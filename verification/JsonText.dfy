/** JSON text of strings, over UTF-16 code units, and what makes it usable inside keys:
    a quoted string shows where it ends, so no quoted string runs on into another. */
module JsonText {
  import opened Basics

  type Unit = n: nat | n < 0x1_0000
  type Text = seq<Unit>

  const QUOTE: Unit := 34
  const COMMA: Unit := 44
  const COLON: Unit := 58
  const OPEN: Unit := 91
  const BACKSLASH: Unit := 92
  const CLOSE: Unit := 93
  const NEWLINE: Unit := 10

  predicate High(u: Unit) { 0xD800 <= u < 0xDC00 }
  predicate Low(u: Unit) { 0xDC00 <= u < 0xE000 }

  predicate PairAt(s: Text) {
    |s| >= 2 && High(s[0]) && Low(s[1])
  }

  function HexDigit(n: nat): Unit
    requires n < 16
  {
    if n < 10 then 48 + n else 87 + n
  }

  function HexValue(u: Unit): nat {
    if 48 <= u <= 57 then u - 48 else if 97 <= u <= 102 then u - 87 else 0
  }

  function Hex(u: Unit): Text {
    [HexDigit(u / 4096), HexDigit(u / 256 % 16), HexDigit(u / 16 % 16), HexDigit(u % 16)]
  }

  function Short(u: Unit): Unit {
    if u == 8 then 98 else if u == 9 then 116 else if u == 10 then 110
    else if u == 12 then 102 else if u == 13 then 114 else u
  }

  predicate HasShort(u: Unit) {
    u == QUOTE || u == BACKSLASH || u == 8 || u == 9 || u == 10 || u == 12 || u == 13
  }

  function Unshort(u: Unit): Unit {
    if u == 98 then 8 else if u == 116 then 9 else if u == 110 then 10
    else if u == 102 then 12 else if u == 114 then 13 else u
  }

  /** How one code unit that is not half of a surrogate pair is written. */
  function Escape(u: Unit): Text {
    if HasShort(u) then [BACKSLASH, Short(u)]
    else if u < 32 || High(u) || Low(u) then [BACKSLASH, 117] + Hex(u)
    else [u]
  }

  function Body(s: Text): Text {
    if s == [] then []
    else if PairAt(s) then s[..2] + Body(s[2..])
    else Escape(s[0]) + Body(s[1..])
  }

  /** `JSON.stringify` of a string. */
  function Quote(s: Text): Text {
    [QUOTE] + Body(s) + [QUOTE]
  }

  /** Bytes of the UTF-8 encoding; a lone surrogate is replaced by a three-byte character. */
  function Utf8Length(s: Text): nat {
    if s == [] then 0
    else if PairAt(s) then 4 + Utf8Length(s[2..])
    else (if s[0] < 0x80 then 1 else if s[0] < 0x800 then 2 else 3) + Utf8Length(s[1..])
  }

  datatype Reading = Bad | Read(value: Text, rest: Text)

  function After(u: Unit, r: Reading): Reading {
    if r.Bad? then Bad else Read([u] + r.value, r.rest)
  }

  /** Reads a string body up to its closing quote. */
  function ReadBody(t: Text): Reading
    decreases |t|
  {
    if t == [] then Bad
    else if t[0] == QUOTE then Read([], t[1..])
    else if t[0] != BACKSLASH then After(t[0], ReadBody(t[1..]))
    else if |t| < 2 then Bad
    else if t[1] != 117 then After(Unshort(t[1]), ReadBody(t[2..]))
    else if |t| < 6 then Bad
    else
      var v := HexValue(t[2]) * 4096 + HexValue(t[3]) * 256 + HexValue(t[4]) * 16 + HexValue(t[5]);
      if v < 0x1_0000 then After(v, ReadBody(t[6..])) else Bad
  }

  /** The units of an ASCII text. */
  function Ascii(s: string): (t: Text)
    requires forall i | 0 <= i < |s| :: s[i] as int < 128
    ensures |t| == |s|
  {
    seq(|s|, i requires 0 <= i < |s| => s[i] as int)
  }

  /** The hexadecimal digits of a unit, the highest first. */
  function Nibble(u: Unit, i: nat): (n: nat)
    requires i < 4
    ensures n < 16
  {
    (if i == 0 then u / 4096 else if i == 1 then u / 256 else if i == 2 then u / 16 else u) % 16
  }

  lemma DigitMeans(n: nat)
    requires n < 16
    ensures HexDigit(n) == Ascii("0123456789abcdef")[n]
  {
  }

  lemma HexMeans(u: Unit, i: nat)
    requires i < 4
    ensures Hex(u)[i] == Ascii("0123456789abcdef")[Nibble(u, i)]
  {
    hide Ascii, HexDigit;
    DigitMeans(Nibble(u, i));
    assert u / 4096 % 16 == u / 4096;
  }

  /** The short escapes of `QuoteJSONString` in ECMA-262. */
  lemma ShortEscapesAreStandard()
    ensures Escape(34) == Ascii("\\\"") && Escape(92) == Ascii("\\\\")
    ensures Escape(8) == Ascii("\\b") && Escape(9) == Ascii("\\t") && Escape(10) == Ascii("\\n")
    ensures Escape(12) == Ascii("\\f") && Escape(13) == Ascii("\\r")
  {
  }

  /** Other controls and lone surrogates are written with four hexadecimal digits, and all else as itself. */
  lemma EscapesAreStandard(u: Unit)
    ensures (u < 32 && u !in {8, 9, 10, 12, 13}) || 0xD800 <= u < 0xE000 ==>
              |Escape(u)| == 6 && Escape(u)[0] == 92 && Escape(u)[1] == 117
              && forall i | 0 <= i < 4 :: Escape(u)[2 + i] == Ascii("0123456789abcdef")[Nibble(u, i)]
    ensures 32 <= u && u != 34 && u != 92 && !(0xD800 <= u < 0xE000) ==> Escape(u) == [u]
  {
    hide Ascii, HexDigit, Nibble;
    forall i | 0 <= i < 4 ensures Hex(u)[i] == Ascii("0123456789abcdef")[Nibble(u, i)] { HexMeans(u, i); }
  }

  lemma HexReads(u: Unit)
    ensures var h := Hex(u);
            HexValue(h[0]) * 4096 + HexValue(h[1]) * 256 + HexValue(h[2]) * 16 + HexValue(h[3]) == u
  {
    assert u == u / 16 * 16 + u % 16;
    assert u / 16 == u / 256 * 16 + u / 16 % 16;
    assert u / 256 == u / 4096 * 16 + u / 256 % 16;
  }

  lemma {:induction false} EscapeReads(u: Unit, rest: Text)
    ensures ReadBody(Escape(u) + rest) == After(u, ReadBody(rest))
  {
    var t := Escape(u) + rest;
    if HasShort(u) {
      assert t[2..] == rest;
    } else if u < 32 || High(u) || Low(u) {
      HexReads(u);
      assert t[6..] == rest;
    } else {
      assert t[1..] == rest;
    }
  }

  lemma {:induction false} PlainReads(u: Unit, rest: Text)
    requires u != QUOTE && u != BACKSLASH
    ensures ReadBody([u] + rest) == After(u, ReadBody(rest))
  {
    assert ([u] + rest)[1..] == rest;
  }

  lemma {:induction false} PairReads(s: Text, more: Text, rest: Text)
    requires PairAt(s) && ReadBody(more) == Read(s[2..], rest)
    ensures ReadBody(s[..2] + more) == Read(s, rest)
  {
    PlainReads(s[1], more);
    PlainReads(s[0], [s[1]] + more);
    assert s[..2] + more == [s[0]] + ([s[1]] + more);
    assert s == [s[0]] + ([s[1]] + s[2..]);
  }

  lemma {:induction false} BodyReads(s: Text, rest: Text)
    ensures ReadBody(Body(s) + [QUOTE] + rest) == Read(s, rest)
    decreases |s|
  {
    if s == [] {
      assert (Body(s) + [QUOTE] + rest)[1..] == rest;
    } else if PairAt(s) {
      BodyReads(s[2..], rest);
      var more := Body(s[2..]) + [QUOTE] + rest;
      PairReads(s, more, rest);
      assert Body(s) + [QUOTE] + rest == s[..2] + more;
    } else {
      BodyReads(s[1..], rest);
      UnitReads(s, rest);
    }
  }

  lemma {:induction false} UnitReads(s: Text, rest: Text)
    requires s != [] && !PairAt(s) && ReadBody(Body(s[1..]) + [QUOTE] + rest) == Read(s[1..], rest)
    ensures ReadBody(Body(s) + [QUOTE] + rest) == Read(s, rest)
  {
    var more := Body(s[1..]) + [QUOTE] + rest;
    EscapeReads(s[0], more);
    Regroup(Escape(s[0]), Body(s[1..]), rest);
  }

  /** The same for a text that ends in a quote. */
  lemma Regroup(a: Text, b: Text, c: Text)
    ensures (a + b) + [QUOTE] + c == a + (b + [QUOTE] + c)
  {
  }

  /** Two texts that start with a quoted string and are equal quote the same string and go on alike. */
  lemma QuoteDelimits(a: Text, b: Text, more: Text, rest: Text)
    requires Quote(a) + more == Quote(b) + rest
    ensures a == b && more == rest
  {
    BodyReads(a, more);
    BodyReads(b, rest);
    Unwrap(QUOTE, Body(a), QUOTE, more);
    Unwrap(QUOTE, Body(b), QUOTE, rest);
  }

  /** What is left of a bracketed text after its first unit. */
  lemma Unwrap(open: Unit, inner: Text, close: Unit, more: Text)
    ensures ([open] + inner + [close] + more)[1..] == inner + [close] + more
  {
  }

  lemma {:induction false} BodyIsPrintable(s: Text)
    ensures forall u | u in Body(s) :: u >= 32
    decreases |s|
  {
    if s != [] {
      if PairAt(s) {
        BodyIsPrintable(s[2..]);
        assert forall u | u in Body(s) :: u == s[0] || u == s[1] || u in Body(s[2..]);
      } else {
        BodyIsPrintable(s[1..]);
        assert forall u | u in Escape(s[0]) :: u >= 32;
      }
    }
  }

  /** The names of a path, quoted and separated by commas. */
  function Items(path: seq<Text>): Text {
    if path == [] then []
    else if |path| == 1 then Quote(path[0])
    else Quote(path[0]) + [COMMA] + Items(path[1..])
  }

  /** `JSON.stringify` of an array of strings. */
  function QuoteList(path: seq<Text>): Text {
    [OPEN] + Items(path) + [CLOSE]
  }

  lemma {:induction false} ItemsArePrintable(path: seq<Text>)
    ensures forall u | u in Items(path) :: u >= 32
    decreases |path|
  {
    if path != [] {
      BodyIsPrintable(path[0]);
      ItemsArePrintable(path[1..]);
    }
  }

  function Tail(path: seq<Text>): Text
    requires path != []
  {
    if |path| == 1 then [CLOSE] else [COMMA] + (Items(path[1..]) + [CLOSE])
  }

  lemma {:induction false} ItemsSplit(path: seq<Text>)
    requires path != []
    ensures Items(path) + [CLOSE] == Quote(path[0]) + Tail(path)
  {
    if |path| > 1 {
      var head, tail := Quote(path[0]), Items(path[1..]);
      Associate(head + [COMMA], tail, [CLOSE]);
      Associate(head, [COMMA], tail + [CLOSE]);
    }
  }

  lemma TailPeels(path: seq<Text>)
    requires |path| > 1
    ensures Tail(path)[1..] == Items(path[1..]) + [CLOSE]
  {
    DropFirst(COMMA, Items(path[1..]) + [CLOSE]);
  }

  lemma DropFirst(u: Unit, t: Text)
    ensures ([u] + t)[1..] == t
  {
  }

  lemma {:induction false} ItemsDelimit(a: seq<Text>, b: seq<Text>)
    requires a != [] && b != [] && Items(a) + [CLOSE] == Items(b) + [CLOSE]
    ensures a == b
    decreases |a|
  {
    ItemsSplit(a);
    ItemsSplit(b);
    QuoteDelimits(a[0], b[0], Tail(a), Tail(b));
    assert Tail(a)[0] == Tail(b)[0];
    if |a| > 1 {
      TailPeels(a);
      TailPeels(b);
      ItemsDelimit(a[1..], b[1..]);
      assert a == [a[0]] + a[1..] && b == [b[0]] + b[1..];
    }
  }

  lemma Peel(items: Text)
    ensures ([OPEN] + items + [CLOSE])[1..] == items + [CLOSE]
  {
  }

  /** Distinct nonempty paths have distinct texts, so cache scopes never share a namespace. */
  lemma QuoteListIsInjective(a: seq<Text>, b: seq<Text>)
    requires a != [] && b != [] && QuoteList(a) == QuoteList(b)
    ensures a == b
  {
    Peel(Items(a));
    Peel(Items(b));
    ItemsDelimit(a, b);
  }

  /** `JSON.stringify([namespace, key])`. */
  function Composite(namespace: Text, key: Text): Text {
    Prefix(namespace) + Quote(key) + [CLOSE]
  }

  /** The start of the composite of every key of one namespace. */
  function Prefix(namespace: Text): Text {
    [OPEN] + Quote(namespace) + [COMMA]
  }

  lemma CompositeSplit(n: Text, k: Text)
    ensures Composite(n, k)[1..] == Quote(n) + ([COMMA] + (Quote(k) + [CLOSE]))
  {
    Associate(Prefix(n), Quote(k), [CLOSE]);
    PrefixPeels(Quote(n), Quote(k) + [CLOSE]);
  }

  lemma CompositeIsInjective(n: Text, k: Text, m: Text, j: Text)
    requires Composite(n, k) == Composite(m, j)
    ensures n == m && k == j
  {
    CompositeSplit(n, k);
    CompositeSplit(m, j);
    var a, b := Quote(k) + [CLOSE], Quote(j) + [CLOSE];
    QuoteDelimits(n, m, [COMMA] + a, [COMMA] + b);
    assert ([COMMA] + a)[1..] == a && ([COMMA] + b)[1..] == b;
    QuoteDelimits(k, j, [CLOSE], [CLOSE]);
  }

  /** The prefix scan meets exactly one namespace's entries. */
  lemma PrefixSelectsNamespace(n: Text, m: Text, k: Text)
    ensures Prefix(n) <= Composite(m, k) <==> n == m
  {
    Associate(Prefix(m), Quote(k), [CLOSE]);
    if Prefix(n) <= Composite(m, k) {
      var rest := Composite(m, k)[|Prefix(n)|..];
      assert Prefix(n) + rest == Prefix(m) + (Quote(k) + [CLOSE]);
      PrefixPeels(Quote(n), rest);
      PrefixPeels(Quote(m), Quote(k) + [CLOSE]);
      QuoteDelimits(n, m, [COMMA] + rest, [COMMA] + (Quote(k) + [CLOSE]));
    }
  }

  lemma PrefixPeels(quoted: Text, rest: Text)
    ensures (([OPEN] + quoted + [COMMA]) + rest)[1..] == quoted + ([COMMA] + rest)
  {
  }

  /** The id of a load: the namespace text, a newline and the key. */
  function LoadId(namespace: Text, key: Text): Text {
    namespace + [NEWLINE] + key
  }

  /** A namespace text holds no newline, so a load id belongs to exactly one namespace and one key. */
  lemma LoadIdSelects(a: seq<Text>, b: seq<Text>, k: Text, j: Text)
    ensures QuoteList(a) + [NEWLINE] <= LoadId(QuoteList(b), k) <==> QuoteList(a) == QuoteList(b)
    ensures LoadId(QuoteList(a), j) == LoadId(QuoteList(b), k) <==> QuoteList(a) == QuoteList(b) && j == k
  {
    ItemsArePrintable(a);
    ItemsArePrintable(b);
    NewlineSplits(QuoteList(a), QuoteList(b), k);
    if LoadId(QuoteList(a), j) == LoadId(QuoteList(b), k) {
      assert QuoteList(a) + [NEWLINE] <= LoadId(QuoteList(b), k);
      assert LoadId(QuoteList(a), j)[|QuoteList(a)| + 1..] == j;
      assert LoadId(QuoteList(b), k)[|QuoteList(b)| + 1..] == k;
    }
  }

  lemma NewlineSplits(n: Text, m: Text, k: Text)
    requires NEWLINE !in n && NEWLINE !in m
    ensures n + [NEWLINE] <= LoadId(m, k) <==> n == m
  {
    if n + [NEWLINE] <= LoadId(m, k) {
      var id := LoadId(m, k);
      assert id[|n|] == NEWLINE && id[|m|] == NEWLINE;
      assert id[..|n|] == n && id[..|m|] == m;
    }
  }
}
