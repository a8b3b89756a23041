/** The canonical JSON text that the event stores compare payloads by. */
module CanonicalJson {
  import opened Basics
  import opened JsonText
  import opened TextOrder

  /** A finite number other than -0 is named by an integer; 0 is `Finite(0)`. */
  datatype Number = NegativeZero | Finite(name: int) | NotFinite

  datatype Json =
    | Null
    | Bool(value: bool)
    | Num(number: Number)
    | Str(text: Text)
    | Arr(items: seq<Json>)
    | Obj(members: seq<Member>)

  datatype Member = Member(name: Text, value: Json)

  /** Prints the finite number of a given name. */
  type Printer = int -> Text

  predicate Numeric(u: Unit) {
    u == 43 || u == 45 || u == 46 || 48 <= u <= 57 || u == 69 || u == 101
  }

  /** What is asked of the number printer: distinct numbers get distinct texts, made of number characters. */
  ghost predicate Faithful(show: Printer) {
    && (forall n :: show(n) != [] && forall u | u in show(n) :: Numeric(u))
    && (forall n, m :: show(n) == show(m) ==> n == m)
  }

  function NumberName(n: Number): int {
    if n.Finite? then n.name else 0
  }

  type Pair = (Text, Text)

  function Keys(members: seq<Member>): (keys: seq<Text>)
    ensures |keys| == |members|
    ensures forall i :: 0 <= i < |members| ==> keys[i] == members[i].name
  {
    seq(|members|, i requires 0 <= i < |members| => members[i].name)
  }

  ghost predicate Distinct(keys: seq<Text>) {
    forall i, j :: 0 <= i < j < |keys| ==> keys[i] != keys[j]
  }

  /** A JSON value as JavaScript objects represent it: no object has two members of one name. */
  ghost predicate WellFormed(v: Json) {
    match v
    case Arr(items) => forall i :: 0 <= i < |items| ==> WellFormed(items[i])
    case Obj(members) =>
      Distinct(Keys(members)) && forall i :: 0 <= i < |members| ==> WellFormed(members[i].value)
    case _ => true
  }

  /** The values the encoder does not throw on. */
  predicate Encodable(v: Json) {
    match v
    case Num(n) => !n.NotFinite?
    case Arr(items) => forall i :: 0 <= i < |items| ==> Encodable(items[i])
    case Obj(members) => forall i :: 0 <= i < |members| ==> Encodable(members[i].value)
    case _ => true
  }

  /** Equal up to the order of object members and the sign of zero. */
  ghost predicate Same(a: Json, b: Json)
    decreases a
  {
    match (a, b)
    case (Null, Null) => true
    case (Bool(x), Bool(y)) => x == y
    case (Num(x), Num(y)) => NumberName(x) == NumberName(y)
    case (Str(x), Str(y)) => x == y
    case (Arr(x), Arr(y)) => |x| == |y| && forall i :: 0 <= i < |x| ==> Same(x[i], y[i])
    case (Obj(x), Obj(y)) =>
      && (forall k :: k in Keys(x) <==> k in Keys(y))
      && forall i, j :: 0 <= i < |x| && 0 <= j < |y| && x[i].name == y[j].name ==> Same(x[i].value, y[j].value)
    case _ => false
  }

  function Insert(m: Pair, sorted: seq<Pair>): (r: seq<Pair>)
    ensures multiset(r) == multiset(sorted) + multiset{m}
  {
    if sorted == [] || Less(m.0, sorted[0].0) then [m] + sorted
    else
      assert sorted == [sorted[0]] + sorted[1..];
      [sorted[0]] + Insert(m, sorted[1..])
  }

  /** `Object.keys(value).sort()`, carrying each member's text along. */
  function Sort(pairs: seq<Pair>): (r: seq<Pair>)
    ensures multiset(r) == multiset(pairs)
  {
    if pairs == [] then []
    else
      assert pairs == [pairs[0]] + pairs[1..];
      Insert(pairs[0], Sort(pairs[1..]))
  }

  /** `join(",")`. */
  function Join(texts: seq<Text>): Text {
    if texts == [] then []
    else if |texts| == 1 then texts[0]
    else texts[0] + [COMMA] + Join(texts[1..])
  }

  function MemberText(p: Pair): Text {
    Quote(p.0) + [COLON] + p.1
  }

  function MemberTexts(pairs: seq<Pair>): (texts: seq<Text>)
    ensures |texts| == |pairs| && forall i :: 0 <= i < |pairs| ==> texts[i] == MemberText(pairs[i])
  {
    seq(|pairs|, i requires 0 <= i < |pairs| => MemberText(pairs[i]))
  }

  function Encode(v: Json, show: Printer): Text
    decreases v, 1
  {
    match v
    case Null => [110, 117, 108, 108]
    case Bool(b) => if b then [116, 114, 117, 101] else [102, 97, 108, 115, 101]
    case Num(n) => show(NumberName(n))
    case Str(s) => Quote(s)
    case Arr(items) => [OPEN] + Join(EncodeAll(items, show)) + [CLOSE]
    case Obj(members) => [123] + Join(MemberTexts(Sort(EncodePairs(members, show)))) + [125]
  }

  function EncodeAll(items: seq<Json>, show: Printer): (texts: seq<Text>)
    ensures |texts| == |items| && forall i :: 0 <= i < |items| ==> texts[i] == Encode(items[i], show)
    decreases items, 0
  {
    if items == [] then [] else [Encode(items[0], show)] + EncodeAll(items[1..], show)
  }

  function EncodePairs(members: seq<Member>, show: Printer): (pairs: seq<Pair>)
    ensures |pairs| == |members|
    ensures forall i :: 0 <= i < |members| ==> pairs[i] == (members[i].name, Encode(members[i].value, show))
    decreases members, 0
  {
    if members == [] then [] else [(members[0].name, Encode(members[0].value, show))] + EncodePairs(members[1..], show)
  }

  /** What `encode` returns; `None` stands for the thrown error. */
  datatype Encoded = NoText | Encoded(text: Text)

  function EncodePayload(v: Json, show: Printer): Encoded {
    if Encodable(v) then Encoded(Encode(v, show)) else NoText
  }

  /** A value is the other or stands somewhere inside it. */
  ghost predicate Occurs(w: Json, v: Json)
    decreases v
  {
    || w == v
    || (v.Arr? && exists i :: 0 <= i < |v.items| && Occurs(w, v.items[i]))
    || (v.Obj? && exists i :: 0 <= i < |v.members| && Occurs(w, v.members[i].value))
  }

  /** A payload has its text unless a number in it, however deep, is not finite. */
  lemma {:induction false} PayloadsMean(v: Json, show: Printer)
    ensures EncodePayload(v, show) == if Occurs(Num(NotFinite), v) then NoText else Encoded(Encode(v, show))
    decreases v
  {
    match v
    case Arr(items) =>
      forall i | 0 <= i < |items| ensures Encodable(items[i]) <==> !Occurs(Num(NotFinite), items[i]) {
        PayloadsMean(items[i], show);
      }
    case Obj(members) =>
      forall i | 0 <= i < |members| ensures Encodable(members[i].value) <==> !Occurs(Num(NotFinite), members[i].value) {
        PayloadsMean(members[i].value, show);
      }
    case _ =>
  }

  // ---- The text itself ----

  /** Scalars are written as in JSON, and -0 as 0. */
  lemma {:induction false} ScalarsAreJson(show: Printer, text: Text, n: int)
    ensures Encode(Null, show) == Ascii("null")
    ensures Encode(Bool(true), show) == Ascii("true") && Encode(Bool(false), show) == Ascii("false")
    ensures Encode(Num(Finite(n)), show) == show(n) && Encode(Num(NegativeZero), show) == show(0)
    ensures Encode(Str(text), show) == Ascii("\"") + Body(text) + Ascii("\"")
  {
  }

  /** Items stand in their order between brackets, with commas between them. */
  lemma {:induction false} ArraysAreJson(a: Json, b: Json, show: Printer)
    ensures Encode(Arr([]), show) == Ascii("[]")
    ensures Encode(Arr([a]), show) == Ascii("[") + Encode(a, show) + Ascii("]")
    ensures Encode(Arr([a, b]), show)
              == Ascii("[") + (Encode(a, show) + Ascii(",") + Encode(b, show)) + Ascii("]")
  {
    hide Encode, EncodeAll;
    var s, t := Encode(a, show), Encode(b, show);
    ItemsOfTwo(a, b, show);
    JoinsTwo(s, t);
    ArrayText([], [], show);
    ArrayText([a], [s], show);
    ArrayText([a, b], [s, t], show);
    assert Ascii(",") == [COMMA];
  }

  lemma {:induction false} ItemsOfTwo(a: Json, b: Json, show: Printer)
    ensures EncodeAll([], show) == [] && EncodeAll([a], show) == [Encode(a, show)]
    ensures EncodeAll([a, b], show) == [Encode(a, show), Encode(b, show)]
  {
  }

  lemma {:induction false} ArrayText(items: seq<Json>, texts: seq<Text>, show: Printer)
    requires EncodeAll(items, show) == texts
    ensures Encode(Arr(items), show) == [OPEN] + Join(texts) + [CLOSE]
  {
  }

  lemma JoinsTwo(s: Text, t: Text)
    ensures Join([s]) == s && Join([s, t]) == s + [COMMA] + t
  {
    assert [s, t][1..] == [t];
  }

  /** A name, a colon and a value. */
  function Entry(m: Member, show: Printer): Text {
    Quote(m.name) + Ascii(":") + Encode(m.value, show)
  }

  /** Members stand between braces in the order of their names, with commas between them. */
  lemma ObjectsAreJson(m: Member, n: Member, show: Printer)
    requires Less(m.name, n.name)
    ensures Encode(Obj([]), show) == Ascii("{}")
    ensures Encode(Obj([m]), show) == Ascii("{") + Entry(m, show) + Ascii("}")
    ensures Encode(Obj([n, m]), show) == Encode(Obj([m, n]), show)
              == Ascii("{") + (Entry(m, show) + Ascii(",") + Entry(n, show)) + Ascii("}")
  {
    hide Encode, Sort, EncodePairs, Quote;
    var p, q := (m.name, Encode(m.value, show)), (n.name, Encode(n.value, show));
    PairsOfTwo(m, n, show);
    PairsOfTwo(n, m, show);
    SortsTwo(p, q);
    JoinsTwo(MemberText(p), MemberText(q));
    ObjectText([], [], show);
    ObjectText([m], [p], show);
    ObjectText([m, n], [p, q], show);
    ObjectText([n, m], [p, q], show);
    assert Ascii(":") == [COLON] && Ascii(",") == [COMMA];
  }

  lemma {:induction false} ObjectText(members: seq<Member>, sorted: seq<Pair>, show: Printer)
    requires Sort(EncodePairs(members, show)) == sorted
    ensures Encode(Obj(members), show) == [123] + Join(MemberTexts(sorted)) + [125]
  {
  }

  lemma PairsOfTwo(m: Member, n: Member, show: Printer)
    ensures EncodePairs([], show) == [] && EncodePairs([m], show) == [(m.name, Encode(m.value, show))]
    ensures EncodePairs([m, n], show) == [(m.name, Encode(m.value, show)), (n.name, Encode(n.value, show))]
  {
  }

  lemma SortsTwo(p: Pair, q: Pair)
    requires Less(p.0, q.0)
    ensures Sort([]) == [] && Sort([p]) == [p] && Sort([p, q]) == Sort([q, p]) == [p, q]
    ensures MemberTexts([p]) == [MemberText(p)] && MemberTexts([p, q]) == [MemberText(p), MemberText(q)]
  {
    LessTotal(p.0, q.0);
    assert [p, q][1..] == [q] && [q, p][1..] == [p];
    assert Sort([q]) == [q] && Sort([p]) == [p];
    assert Sort([p, q]) == [p, q] && Sort([q, p]) == [p, q];
  }

  // ---- Sorting ----

  ghost predicate StrictlySorted(pairs: seq<Pair>) {
    forall i, j :: 0 <= i < j < |pairs| ==> Less(pairs[i].0, pairs[j].0)
  }

  lemma {:induction false} InsertSorts(m: Pair, sorted: seq<Pair>)
    requires StrictlySorted(sorted) && forall p | p in sorted :: p.0 != m.0
    ensures StrictlySorted(Insert(m, sorted))
    decreases |sorted|
  {
    if sorted != [] {
      var head, tail := sorted[0], sorted[1..];
      LessTotal(m.0, head.0);
      if Less(m.0, head.0) {
        forall j | 0 <= j < |sorted| ensures Less(m.0, sorted[j].0) {
          if j > 0 { LessTransitive(m.0, head.0, sorted[j].0); }
        }
      } else {
        InsertSorts(m, tail);
        SameElements(Insert(m, tail), tail + [m]);
        var r := Insert(m, tail);
        assert Insert(m, sorted) == [head] + r;
        forall i | 0 <= i < |r| ensures Less(head.0, r[i].0) {
          assert r[i] in tail + [m];
        }
      }
    }
  }

  lemma SameElements(a: seq<Pair>, b: seq<Pair>)
    requires multiset(a) == multiset(b)
    ensures |a| == |b| && forall p :: p in a <==> p in b
  {
    assert |multiset(a)| == |multiset(b)|;
    forall p ensures p in a <==> p in b {
      assert p in multiset(a) <==> p in multiset(b);
    }
  }

  ghost predicate DistinctKeys(pairs: seq<Pair>) {
    forall i, j :: 0 <= i < j < |pairs| ==> pairs[i].0 != pairs[j].0
  }

  lemma {:induction false} SortSorts(pairs: seq<Pair>)
    requires DistinctKeys(pairs)
    ensures StrictlySorted(Sort(pairs))
    ensures |Sort(pairs)| == |pairs| && forall p :: p in Sort(pairs) <==> p in pairs
    decreases |pairs|
  {
    if pairs != [] {
      var tail := pairs[1..];
      SortSorts(tail);
      InsertSorts(pairs[0], Sort(tail));
    }
    SameElements(Sort(pairs), pairs);
  }

  /** Two strictly sorted lists of the same pairs are the same list. */
  lemma {:induction false} SortedIsUnique(a: seq<Pair>, b: seq<Pair>)
    requires StrictlySorted(a) && StrictlySorted(b) && forall p :: p in a <==> p in b
    ensures a == b
    decreases |a|
  {
    assert b != [] ==> b[0] in a;
    if a != [] {
      assert a[0] in b;
      var i :| 0 <= i < |a| && a[i] == b[0];
      var j :| 0 <= j < |b| && b[j] == a[0];
      LessTotal(a[0].0, b[0].0);
      assert a[0] == b[0];
      DropHead(a, b);
      SortedIsUnique(a[1..], b[1..]);
    }
  }

  lemma DropHead(a: seq<Pair>, b: seq<Pair>)
    requires a != [] && b != [] && a[0] == b[0] && StrictlySorted(a) && StrictlySorted(b)
    requires forall p :: p in a <==> p in b
    ensures forall p :: p in a[1..] <==> p in b[1..]
  {
    LessTotal(a[0].0, a[0].0);
    forall p ensures p in a[1..] <==> p in b[1..] {
      assert p in a <==> p == a[0] || p in a[1..];
      assert p in b <==> p == b[0] || p in b[1..];
    }
  }

  // ---- Texts that show where they end ----

  /** A text that cannot be read as the continuation of a number. */
  predicate Stops(t: Text) {
    t == [] || !Numeric(t[0])
  }

  /** No text of `a` runs on into a text of `b`. */
  ghost predicate Splits(a: seq<Text>, b: seq<Text>) {
    forall i, j, more: Text, rest: Text ::
      0 <= i < |a| && 0 <= j < |b| && a[i] + more == b[j] + rest && Stops(more) && Stops(rest)
      ==> a[i] == b[j] && more == rest
  }

  ghost predicate Starts(texts: seq<Text>) {
    forall t | t in texts :: t != [] && t[0] != CLOSE && t[0] != 125
  }

  function JoinTail(a: seq<Text>, close: Unit, more: Text): Text
    requires a != []
  {
    if |a| == 1 then [close] + more else [COMMA] + (Join(a[1..]) + ([close] + more))
  }

  lemma {:induction false} JoinSplit(a: seq<Text>, close: Unit, more: Text)
    requires a != []
    ensures Join(a) + ([close] + more) == a[0] + JoinTail(a, close, more)
    ensures JoinTail(a, close, more)[1..] == if |a| == 1 then more else Join(a[1..]) + ([close] + more)
  {
    if |a| > 1 {
      var rest, end := Join(a[1..]), [close] + more;
      Associate(a[0] + [COMMA], rest, end);
      Associate(a[0], [COMMA], rest + end);
      DropFirst(COMMA, rest + end);
    } else {
      DropFirst(close, more);
    }
  }

  lemma HeadSplits(a: seq<Text>, b: seq<Text>, m: Text, r: Text)
    requires Splits(a, b) && a != [] && b != [] && a[0] + m == b[0] + r && Stops(m) && Stops(r)
    ensures a[0] == b[0] && m == r
  {
  }

  lemma {:induction false} JoinDelimits(a: seq<Text>, b: seq<Text>, close: Unit, more: Text, rest: Text)
    requires Splits(a, b) && Starts(a) && Starts(b) && (close == CLOSE || close == 125)
    requires Join(a) + ([close] + more) == Join(b) + ([close] + rest)
    ensures a == b && more == rest
    decreases |a|
  {
    if a == [] || b == [] {
      EmptyJoin(a, b, close, more, rest);
    } else {
      JoinSplit(a, close, more);
      JoinSplit(b, close, rest);
      var m, r := JoinTail(a, close, more), JoinTail(b, close, rest);
      HeadSplits(a, b, m, r);
      assert m[0] == r[0];
      if |a| > 1 {
        TailSplits(a, b);
        JoinDelimits(a[1..], b[1..], close, more, rest);
        assert a == [a[0]] + a[1..] && b == [b[0]] + b[1..];
      }
    }
  }

  lemma TailSplits(a: seq<Text>, b: seq<Text>)
    requires a != [] && b != [] && Splits(a, b) && Starts(a) && Starts(b)
    ensures Splits(a[1..], b[1..]) && Starts(a[1..]) && Starts(b[1..])
  {
    forall i, j, more: Text, rest: Text |
      0 <= i < |a[1..]| && 0 <= j < |b[1..]| && a[1..][i] + more == b[1..][j] + rest && Stops(more) && Stops(rest)
      ensures a[1..][i] == b[1..][j] && more == rest
    {
      assert a[i + 1] + more == b[j + 1] + rest;
    }
    assert forall t | t in a[1..] :: t in a;
    assert forall t | t in b[1..] :: t in b;
  }

  lemma {:induction false} EmptyJoin(a: seq<Text>, b: seq<Text>, close: Unit, more: Text, rest: Text)
    requires a == [] || b == []
    requires Starts(a) && Starts(b) && (close == CLOSE || close == 125)
    requires Join(a) + ([close] + more) == Join(b) + ([close] + rest)
    ensures a == b && more == rest
  {
    if a == [] && b == [] {
      assert Join(a) + ([close] + more) == [close] + more && Join(b) + ([close] + rest) == [close] + rest;
      assert ([close] + more)[1..] == more && ([close] + rest)[1..] == rest;
    } else {
      JoinStarts(if a == [] then b else a, [close] + (if a == [] then rest else more));
      assert false;
    }
  }

  lemma {:induction false} JoinStarts(a: seq<Text>, tail: Text)
    requires a != [] && Starts(a)
    ensures Join(a) != [] && (Join(a) + tail)[0] != CLOSE && (Join(a) + tail)[0] != 125
  {
    assert a[0] in a;
  }

  ghost predicate Opens(v: Json, u: Unit) {
    match v
    case Null => u == 110
    case Bool(b) => u == if b then 116 else 102
    case Num(_) => Numeric(u)
    case Str(_) => u == QUOTE
    case Arr(_) => u == OPEN
    case Obj(_) => u == 123
  }

  lemma {:induction false} FirstUnit(v: Json, show: Printer)
    requires Faithful(show)
    ensures Encode(v, show) != [] && Opens(v, Encode(v, show)[0])
  {
  }

  lemma NumberDelimits(a: Text, b: Text, more: Text, rest: Text)
    requires (forall u | u in a :: Numeric(u)) && forall u | u in b :: Numeric(u)
    requires a + more == b + rest && Stops(more) && Stops(rest)
    ensures a == b && more == rest
  {
    var t := a + more;
    assert t[..|a|] == a && t[|a|..] == more;
    assert t[..|b|] == b && t[|b|..] == rest;
  }

  // ---- The text of a value shows where it ends ----

  lemma {:induction false} Delimits(a: Json, b: Json, show: Printer, more: Text, rest: Text)
    requires Faithful(show) && Encode(a, show) + more == Encode(b, show) + rest && Stops(more) && Stops(rest)
    ensures Encode(a, show) == Encode(b, show) && more == rest
    decreases a, 1
  {
    FirstUnit(a, show);
    FirstUnit(b, show);
    assert (Encode(a, show) + more)[0] == (Encode(b, show) + rest)[0];
    match (a, b)
    case (Num(x), Num(y)) => NumberDelimits(Encode(a, show), Encode(b, show), more, rest);
    case (Str(x), Str(y)) => QuoteDelimits(x, y, more, rest);
    case (Arr(x), Arr(y)) => ArraysDelimit(x, y, show, more, rest);
    case (Obj(x), Obj(y)) => ObjectsDelimit(x, y, show, more, rest);
    case (Null, Null) => EqualParts(Encode(a, show), more, Encode(b, show), rest);
    case (Bool(x), Bool(y)) => EqualParts(Encode(a, show), more, Encode(b, show), rest);
    case _ =>
  }

  lemma EqualParts(a: Text, more: Text, b: Text, rest: Text)
    requires a + more == b + rest && |a| == |b|
    ensures a == b && more == rest
  {
    assert (a + more)[..|a|] == a && (b + rest)[..|b|] == b;
    assert (a + more)[|a|..] == more && (b + rest)[|b|..] == rest;
  }

  lemma {:induction false} ItemsSplit(x: seq<Json>, y: seq<Json>, show: Printer)
    requires Faithful(show)
    ensures Splits(EncodeAll(x, show), EncodeAll(y, show))
    decreases x, 0
  {
    var s, t := EncodeAll(x, show), EncodeAll(y, show);
    forall i, j, more: Text, rest: Text |
      0 <= i < |s| && 0 <= j < |t| && s[i] + more == t[j] + rest && Stops(more) && Stops(rest)
      ensures s[i] == t[j] && more == rest
    {
      Delimits(x[i], y[j], show, more, rest);
    }
  }

  lemma {:induction false} ItemsStart(x: seq<Json>, show: Printer)
    requires Faithful(show)
    ensures Starts(EncodeAll(x, show))
  {
    forall t | t in EncodeAll(x, show) ensures t != [] && t[0] != CLOSE && t[0] != 125 {
      var i :| 0 <= i < |x| && EncodeAll(x, show)[i] == t;
      FirstUnit(x[i], show);
    }
  }

  lemma {:induction false} ArraysDelimit(x: seq<Json>, y: seq<Json>, show: Printer, more: Text, rest: Text)
    requires Faithful(show)
    requires Encode(Arr(x), show) + more == Encode(Arr(y), show) + rest
    ensures EncodeAll(x, show) == EncodeAll(y, show) && more == rest
    decreases x, 1
  {
    var s, t := EncodeAll(x, show), EncodeAll(y, show);
    ItemsSplit(x, y, show);
    ItemsStart(x, show);
    ItemsStart(y, show);
    Unwrap(OPEN, Join(s), CLOSE, more);
    Unwrap(OPEN, Join(t), CLOSE, rest);
    Associate(Join(s), [CLOSE], more);
    Associate(Join(t), [CLOSE], rest);
    JoinDelimits(s, t, CLOSE, more, rest);
  }

  lemma {:induction false} PairsSplit(x: seq<Member>, p: Pair, q: Pair, y: seq<Member>, show: Printer, more: Text,
      rest: Text)
    requires Faithful(show) && p in EncodePairs(x, show) && q in EncodePairs(y, show)
    requires MemberText(p) + more == MemberText(q) + rest && Stops(more) && Stops(rest)
    ensures p == q && more == rest
    decreases x, 0
  {
    RegroupMember(p, more);
    RegroupMember(q, rest);
    QuoteDelimits(p.0, q.0, [COLON] + (p.1 + more), [COLON] + (q.1 + rest));
    assert ([COLON] + (p.1 + more))[1..] == p.1 + more && ([COLON] + (q.1 + rest))[1..] == q.1 + rest;
    var i :| 0 <= i < |x| && EncodePairs(x, show)[i] == p;
    var j :| 0 <= j < |y| && EncodePairs(y, show)[j] == q;
    Delimits(x[i].value, y[j].value, show, more, rest);
  }

  lemma RegroupMember(p: Pair, more: Text)
    ensures MemberText(p) + more == Quote(p.0) + ([COLON] + (p.1 + more))
  {
  }

  function SortedPairs(x: seq<Member>, show: Printer): seq<Pair> {
    Sort(EncodePairs(x, show))
  }

  lemma MembersStart(pairs: seq<Pair>)
    ensures Starts(MemberTexts(pairs))
  {
    forall t | t in MemberTexts(pairs) ensures t != [] && t[0] != CLOSE && t[0] != 125 {
      var i :| 0 <= i < |pairs| && MemberTexts(pairs)[i] == t;
      assert t[0] == QUOTE;
    }
  }

  lemma {:induction false} MembersSplit(x: seq<Member>, y: seq<Member>, show: Printer)
    requires Faithful(show)
    ensures Splits(MemberTexts(SortedPairs(x, show)), MemberTexts(SortedPairs(y, show)))
    decreases x, 1
  {
    var P, Q := SortedPairs(x, show), SortedPairs(y, show);
    SameElements(P, EncodePairs(x, show));
    SameElements(Q, EncodePairs(y, show));
    var s, t := MemberTexts(P), MemberTexts(Q);
    forall i, j, more: Text, rest: Text |
      0 <= i < |s| && 0 <= j < |t| && s[i] + more == t[j] + rest && Stops(more) && Stops(rest)
      ensures s[i] == t[j] && more == rest
    {
      assert P[i] in P && Q[j] in Q;
      PairsSplit(x, P[i], Q[j], y, show, more, rest);
    }
  }

  lemma {:induction false} ObjectsDelimit(x: seq<Member>, y: seq<Member>, show: Printer, more: Text, rest: Text)
    requires Faithful(show)
    requires Encode(Obj(x), show) + more == Encode(Obj(y), show) + rest
    ensures SortedPairs(x, show) == SortedPairs(y, show) && more == rest
    decreases x, 2
  {
    var P, Q := SortedPairs(x, show), SortedPairs(y, show);
    MembersSplit(x, y, show);
    MembersStart(P);
    MembersStart(Q);
    Unwrap(123, Join(MemberTexts(P)), 125, more);
    Unwrap(123, Join(MemberTexts(Q)), 125, rest);
    Associate(Join(MemberTexts(P)), [125], more);
    Associate(Join(MemberTexts(Q)), [125], rest);
    JoinDelimits(MemberTexts(P), MemberTexts(Q), 125, more, rest);
    EqualMemberTexts(P, Q);
  }

  lemma EqualMemberTexts(a: seq<Pair>, b: seq<Pair>)
    requires MemberTexts(a) == MemberTexts(b)
    ensures a == b
  {
    assert |a| == |b|;
    forall i | 0 <= i < |a| ensures a[i] == b[i] {
      assert MemberText(a[i]) == MemberTexts(a)[i] == MemberTexts(b)[i] == MemberText(b[i]);
      RegroupMember(a[i], []);
      RegroupMember(b[i], []);
      QuoteDelimits(a[i].0, b[i].0, [COLON] + (a[i].1 + []), [COLON] + (b[i].1 + []));
      assert ([COLON] + (a[i].1 + []))[1..] == a[i].1 && ([COLON] + (b[i].1 + []))[1..] == b[i].1;
    }
  }

  // ---- The encoder as an identity ----

  lemma {:induction false} EqualTextsAreSame(a: Json, b: Json, show: Printer)
    requires Faithful(show) && WellFormed(a) && WellFormed(b)
    requires Encode(a, show) == Encode(b, show)
    ensures Same(a, b)
    decreases a, 1
  {
    FirstUnit(a, show);
    FirstUnit(b, show);
    match (a, b)
    case (Str(x), Str(y)) => QuoteDelimits(x, y, [], []);
    case (Arr(x), Arr(y)) =>
      ArraysDelimit(x, y, show, [], []);
      assert |EncodeAll(x, show)| == |x| && |EncodeAll(y, show)| == |y|;
      forall i | 0 <= i < |x| ensures Same(x[i], y[i]) {
        assert EncodeAll(x, show)[i] == EncodeAll(y, show)[i];
        EqualTextsAreSame(x[i], y[i], show);
      }
    case (Obj(x), Obj(y)) =>
      ObjectsDelimit(x, y, show, [], []);
      EqualPairsAreSame(x, y, show);
    case _ =>
  }

  lemma {:induction false} SortedPairsElements(x: seq<Member>, show: Printer)
    ensures forall p :: p in SortedPairs(x, show) <==> p in EncodePairs(x, show)
  {
    SameElements(SortedPairs(x, show), EncodePairs(x, show));
  }

  lemma {:induction false} EqualPairsAreSame(x: seq<Member>, y: seq<Member>, show: Printer)
    requires Faithful(show) && WellFormed(Obj(x)) && WellFormed(Obj(y))
    requires SortedPairs(x, show) == SortedPairs(y, show)
    ensures Same(Obj(x), Obj(y))
    decreases x, 0
  {
    var P, Q := EncodePairs(x, show), EncodePairs(y, show);
    SortedPairsElements(x, show);
    SortedPairsElements(y, show);
    assert forall p :: p in P <==> p in Q;
    forall k ensures k in Keys(x) <==> k in Keys(y) {
      NamesArePairs(x, show, k);
      NamesArePairs(y, show, k);
    }
    forall i, j | 0 <= i < |x| && 0 <= j < |y| && x[i].name == y[j].name ensures Same(x[i].value, y[j].value) {
      EqualNamesEqualTexts(x, y, show, i, j);
      EqualTextsAreSame(x[i].value, y[j].value, show);
    }
  }

  /** Members of one name in objects of the same pairs have the same text. */

  lemma {:induction false} EqualNamesEqualTexts(x: seq<Member>, y: seq<Member>, show: Printer, i: nat, j: nat)
    requires Distinct(Keys(y)) && forall p :: p in EncodePairs(x, show) <==> p in EncodePairs(y, show)
    requires i < |x| && j < |y| && x[i].name == y[j].name
    ensures Encode(x[i].value, show) == Encode(y[j].value, show)
  {
    var P, Q := EncodePairs(x, show), EncodePairs(y, show);
    assert P[i] in Q;
    var m :| 0 <= m < |Q| && Q[m] == P[i];
    assert Keys(y)[m] == Keys(y)[j];
  }

  lemma {:induction false} NamesArePairs(x: seq<Member>, show: Printer, k: Text)
    ensures k in Keys(x) <==> exists p :: p in EncodePairs(x, show) && p.0 == k
  {
    var P := EncodePairs(x, show);
    if k in Keys(x) {
      var i :| 0 <= i < |x| && Keys(x)[i] == k;
      assert P[i] in P && P[i].0 == k;
    }
    if p :| p in P && p.0 == k {
      var i :| 0 <= i < |P| && P[i] == p;
      assert Keys(x)[i] == k;
    }
  }

  lemma {:induction false} SameHasEqualText(a: Json, b: Json, show: Printer)
    requires WellFormed(a) && WellFormed(b) && Same(a, b)
    ensures Encode(a, show) == Encode(b, show)
    decreases a, 1
  {
    match (a, b)
    case (Arr(x), Arr(y)) =>
      forall i | 0 <= i < |x| ensures EncodeAll(x, show)[i] == EncodeAll(y, show)[i] {
        SameHasEqualText(x[i], y[i], show);
      }
      assert EncodeAll(x, show) == EncodeAll(y, show);
    case (Obj(x), Obj(y)) =>
      forall p ensures p in EncodePairs(x, show) <==> p in EncodePairs(y, show) {
        SamePairs(x, y, show, p);
      }
      PairsAreDistinct(x, show);
      PairsAreDistinct(y, show);
      SortSorts(EncodePairs(x, show));
      SortSorts(EncodePairs(y, show));
      SortedIsUnique(Sort(EncodePairs(x, show)), Sort(EncodePairs(y, show)));
    case _ =>
  }

  lemma {:induction false} PairsAreDistinct(x: seq<Member>, show: Printer)
    requires Distinct(Keys(x))
    ensures DistinctKeys(EncodePairs(x, show))
  {
    var P := EncodePairs(x, show);
    forall i, j | 0 <= i < j < |P| ensures P[i].0 != P[j].0 {
      assert Keys(x)[i] != Keys(x)[j];
    }
  }

  lemma {:induction false} SamePairs(x: seq<Member>, y: seq<Member>, show: Printer, p: Pair)
    requires WellFormed(Obj(x)) && WellFormed(Obj(y)) && Same(Obj(x), Obj(y))
    ensures p in EncodePairs(x, show) <==> p in EncodePairs(y, show)
    decreases x, 0
  {
    var P, Q := EncodePairs(x, show), EncodePairs(y, show);
    if p in P {
      var i :| 0 <= i < |x| && P[i] == p;
      assert Keys(x)[i] in Keys(y);
      var j :| 0 <= j < |y| && Keys(y)[j] == x[i].name;
      SameHasEqualText(x[i].value, y[j].value, show);
      assert Q[j] == p;
    }
    if p in Q {
      var j :| 0 <= j < |y| && Q[j] == p;
      assert Keys(y)[j] in Keys(x);
      var i :| 0 <= i < |x| && Keys(x)[i] == y[j].name;
      SameHasEqualText(x[i].value, y[j].value, show);
      assert P[i] == p;
    }
  }

  /** Two payloads have one canonical text exactly when they are equal up to member order and the sign of zero. */
  lemma {:induction false} EncodeIsIdentity(a: Json, b: Json, show: Printer)
    requires Faithful(show) && WellFormed(a) && WellFormed(b)
    ensures Encode(a, show) == Encode(b, show) <==> Same(a, b)
  {
    if Encode(a, show) == Encode(b, show) { EqualTextsAreSame(a, b, show); }
    if Same(a, b) { SameHasEqualText(a, b, show); }
  }
}
