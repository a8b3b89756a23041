/** The in-memory cache adapter: two least-recently-used maps, a byte budget and namespace generations. */
module MemoryCache {
  import opened Basics
  import opened JsonText

  type Generation = Text

  datatype Entry = Entry(generation: Generation, value: Text, expiresAt: int, bytes: nat)

  /** A (namespace, key) pair; entries are filed under its composite text. */
  datatype Slot = Slot(namespace: Text, key: Text)

  function Id(s: Slot): Text {
    Composite(s.namespace, s.key)
  }

  const MAX_TTL_MS := 86_400_000
  const MAX_BATCH_SIZE := 100

  datatype SetOutcome = Stored | Stale | InvalidTtl | TooLarge
  datatype Batch = Results(values: seq<Option<Text>>) | TooMany

  // ---- A JavaScript map's key order, as a list ----

  ghost predicate Distinct(order: seq<Text>) {
    order == [] || (order[0] !in order[1..] && Distinct(order[1..]))
  }

  /** The list without one key; deleting from the map. */
  function Remove(order: seq<Text>, id: Text): (r: seq<Text>)
    ensures forall k :: k in r <==> k in order && k != id
    ensures |r| <= |order|
  {
    if order == [] then []
    else (if order[0] == id then [] else [order[0]]) + Remove(order[1..], id)
  }

  /** Delete and insert again: the key becomes the most recent. */
  function Touch(order: seq<Text>, id: Text): seq<Text> {
    Remove(order, id) + [id]
  }

  /** The keys that do not start with a prefix. */
  function Unprefixed(order: seq<Text>, prefix: Text): seq<Text> {
    if order == [] then []
    else (if prefix <= order[0] then [] else [order[0]]) + Unprefixed(order[1..], prefix)
  }

  lemma {:induction false} UnprefixedElements(order: seq<Text>, prefix: Text)
    ensures forall k :: k in Unprefixed(order, prefix) <==> k in order && !(prefix <= k)
    ensures |Unprefixed(order, prefix)| <= |order|
    decreases |order|
  {
    if order != [] {
      UnprefixedElements(order[1..], prefix);
      assert order == [order[0]] + order[1..];
    }
  }

  lemma {:induction false} RemoveKeepsDistinct(order: seq<Text>, id: Text)
    requires Distinct(order)
    ensures Distinct(Remove(order, id))
    ensures id in order ==> |Remove(order, id)| == |order| - 1
    ensures id !in order ==> Remove(order, id) == order
    decreases |order|
  {
    if order != [] {
      var tail := order[1..];
      RemoveKeepsDistinct(tail, id);
      if order[0] == id {
        assert [] + Remove(tail, id) == Remove(tail, id);
      } else {
        assert ([order[0]] + Remove(tail, id))[1..] == Remove(tail, id);
      }
    }
  }

  lemma {:induction false} AppendKeepsDistinct(order: seq<Text>, id: Text)
    requires Distinct(order) && id !in order
    ensures Distinct(order + [id])
    decreases |order|
  {
    if order != [] {
      AppendKeepsDistinct(order[1..], id);
      assert (order + [id])[1..] == order[1..] + [id];
    }
  }

  lemma {:induction false} DistinctAt(order: seq<Text>, i: nat)
    requires Distinct(order) && i < |order|
    ensures order[i] !in order[..i] && order[i] !in order[i + 1..]
    decreases |order|
  {
    if i > 0 {
      DistinctAt(order[1..], i - 1);
      assert order[1..][..i - 1] == order[..i][1..] && order[1..][i..] == order[i + 1..];
      assert order[i] == order[1..][i - 1];
    }
  }

  // ---- Bytes in use ----

  function Total(order: seq<Text>, entries: map<Text, Entry>): nat
    requires forall id | id in order :: id in entries
  {
    if order == [] then 0 else entries[order[0]].bytes + Total(order[1..], entries)
  }

  lemma {:induction false} TotalAgrees(order: seq<Text>, a: map<Text, Entry>, b: map<Text, Entry>)
    requires forall id | id in order :: id in a && id in b && a[id] == b[id]
    ensures Total(order, a) == Total(order, b)
    decreases |order|
  {
    if order != [] { TotalAgrees(order[1..], a, b); }
  }

  lemma {:induction false} TotalRemoves(order: seq<Text>, entries: map<Text, Entry>, id: Text)
    requires Distinct(order) && forall k | k in order :: k in entries
    ensures Total(Remove(order, id), entries) == Total(order, entries) - if id in order then entries[id].bytes else 0
    decreases |order|
  {
    if order != [] {
      var tail := order[1..];
      RemoveKeepsDistinct(order, id);
      RemoveKeepsDistinct(tail, id);
      TotalRemoves(tail, entries, id);
      if order[0] == id {
        assert id !in tail;
        assert Remove(order, id) == tail;
      } else {
        assert Remove(order, id) == [order[0]] + Remove(tail, id);
        assert Remove(order, id)[1..] == Remove(tail, id);
      }
    }
  }

  lemma {:induction false} TotalAppends(order: seq<Text>, entries: map<Text, Entry>, id: Text)
    requires (forall k | k in order :: k in entries) && id in entries
    ensures Total(order + [id], entries) == Total(order, entries) + entries[id].bytes
    decreases |order|
  {
    if order == [] {
      assert order + [id] == [id];
    } else {
      assert (order + [id])[1..] == order[1..] + [id];
      TotalAppends(order[1..], entries, id);
    }
  }

  // ---- What one read sees and does ----

  /** Bytes an entry is charged. */
  function EntrySize(namespace: Text, generation: Generation, key: Text, value: Text): nat {
    Utf8Length(namespace) + Utf8Length(generation) + Utf8Length(key) + Utf8Length(value)
  }

  predicate Expired(entries: map<Text, Entry>, generation: Generation, id: Text, now: int) {
    id in entries && entries[id].generation == generation && entries[id].expiresAt <= now
  }

  predicate Live(entries: map<Text, Entry>, generation: Generation, id: Text, now: int) {
    id in entries && entries[id].generation == generation && entries[id].expiresAt > now
  }

  /** What a lookup must answer, and what it does to the recency order. */
  function Answer(entries: map<Text, Entry>, generation: Generation, id: Text, now: int): Option<Text> {
    if Live(entries, generation, id, now) then Some(entries[id].value) else None
  }

  function AfterRead(order: seq<Text>, entries: map<Text, Entry>, generation: Generation, id: Text, now: int): seq<Text>
  {
    if Live(entries, generation, id, now) then Touch(order, id)
    else if Expired(entries, generation, id, now) then Remove(order, id)
    else order
  }

  function AfterLookup(entries: map<Text, Entry>, generation: Generation, id: Text, now: int): map<Text, Entry> {
    if Expired(entries, generation, id, now) then entries - {id} else entries
  }

  /** A hit becomes the most recent key, a key found expired leaves, and nothing else moves. */
  lemma {:induction false} LookupMovesItsKeyOnly(order: seq<Text>, entries: map<Text, Entry>, generation: Generation,
      id: Text, now: int)
    ensures var after := AfterRead(order, entries, generation, id, now);
            if Answer(entries, generation, id, now).Some? then after == Remove(order, id) + [id]
            else if id in AfterLookup(entries, generation, id, now) || id !in entries then after == order
            else after == Remove(order, id)
  {
  }

  /** What a batch leaves: one lookup after another, each at the time its clock reading says. */
  function EntriesAfter(entries: map<Text, Entry>, namespace: Text, generation: Generation, keys: seq<Text>,
                        clock: seq<int>): map<Text, Entry>
    requires |clock| == |keys|
  {
    if keys == [] then entries
    else
      var last := |keys| - 1;
      AfterLookup(EntriesAfter(entries, namespace, generation, keys[..last], clock[..last]), generation,
                  Composite(namespace, keys[last]), clock[last])
  }

  function OrderAfter(order: seq<Text>, entries: map<Text, Entry>, namespace: Text, generation: Generation,
      keys: seq<Text>, clock: seq<int>): seq<Text>
    requires |clock| == |keys|
  {
    if keys == [] then order
    else
      var last := |keys| - 1;
      AfterRead(OrderAfter(order, entries, namespace, generation, keys[..last], clock[..last]),
                EntriesAfter(entries, namespace, generation, keys[..last], clock[..last]), generation,
                Composite(namespace, keys[last]), clock[last])
  }

  function Answers(entries: map<Text, Entry>, namespace: Text, generation: Generation, keys: seq<Text>, clock: seq<int>)
    : seq<Option<Text>>
    requires |clock| == |keys|
  {
    if keys == [] then []
    else
      var last := |keys| - 1;
      Answers(entries, namespace, generation, keys[..last], clock[..last])
      + [Answer(EntriesAfter(entries, namespace, generation, keys[..last], clock[..last]), generation,
                Composite(namespace, keys[last]), clock[last])]
  }

  /** A batch takes out nothing but entries it found expired. */
  lemma {:induction false} BatchDropsExpired(entries: map<Text, Entry>, namespace: Text, generation: Generation,
                                             keys: seq<Text>, clock: seq<int>, id: Text)
    requires |clock| == |keys|
    ensures var after := EntriesAfter(entries, namespace, generation, keys, clock);
            && Within(after, entries)
            && (id in entries && id !in after ==>
                  exists i :: 0 <= i < |keys| && id == Composite(namespace, keys[i])
                      && entries[id].expiresAt <= clock[i])
    decreases |keys|
  {
    if keys != [] {
      var last := |keys| - 1;
      BatchDropsExpired(entries, namespace, generation, keys[..last], clock[..last], id);
      var before := EntriesAfter(entries, namespace, generation, keys[..last], clock[..last]);
      if id in entries && id !in before {
        var i :| 0 <= i < last && id == Composite(namespace, keys[..last][i])
            && entries[id].expiresAt <= clock[..last][i];
        assert id == Composite(namespace, keys[i]) && entries[id].expiresAt <= clock[i];
      }
    }
  }

  /** No lookup of this id among the first ones found it expired. */
  ghost predicate Unexpired(entry: Entry, id: Text, namespace: Text, keys: seq<Text>, clock: seq<int>)
    requires |clock| == |keys|
  {
    forall j | 0 <= j < |keys| && Composite(namespace, keys[j]) == id :: clock[j] < entry.expiresAt
  }

  lemma {:induction false} BatchKeepsExactly(entries: map<Text, Entry>, namespace: Text, generation: Generation,
                                             keys: seq<Text>, clock: seq<int>, id: Text)
    requires |clock| == |keys|
    ensures var after := EntriesAfter(entries, namespace, generation, keys, clock);
            id in entries && entries[id].generation == generation ==>
              (id in after <==> Unexpired(entries[id], id, namespace, keys, clock))
                  && (id in after ==> after[id] == entries[id])
    ensures id !in entries ==> id !in EntriesAfter(entries, namespace, generation, keys, clock)
    decreases |keys|
  {
    if keys != [] {
      var last := |keys| - 1;
      BatchKeepsExactly(entries, namespace, generation, keys[..last], clock[..last], id);
      BatchDropsExpired(entries, namespace, generation, keys[..last], clock[..last], id);
      assert keys == keys[..last] + [keys[last]] && clock == clock[..last] + [clock[last]];
    }
  }

  /** The slot of a lookup is filled under this generation, and neither this lookup nor an earlier one of the same key
      in the batch comes at or after its expiry. */
  ghost predicate HitsAt(entries: map<Text, Entry>, namespace: Text, generation: Generation, keys: seq<Text>,
                         clock: seq<int>, i: nat)
    requires |clock| == |keys| && i < |keys|
  {
    var id := Composite(namespace, keys[i]);
    && id in entries && entries[id].generation == generation
    && forall j | 0 <= j <= i && keys[j] == keys[i] :: clock[j] < entries[id].expiresAt
  }

  lemma HitsInPrefix(entries: map<Text, Entry>, namespace: Text, generation: Generation, keys: seq<Text>,
                     clock: seq<int>, i: nat, n: nat)
    requires |clock| == |keys| && i < n <= |keys|
    ensures HitsAt(entries, namespace, generation, keys[..n], clock[..n], i)
            <==> HitsAt(entries, namespace, generation, keys, clock, i)
  {
    assert keys[..n][i] == keys[i];
    assert forall j | 0 <= j <= i :: keys[..n][j] == keys[j] && clock[..n][j] == clock[j];
  }

  /** A lookup of a batch answers the entry's value exactly then, and nothing otherwise. */
  lemma {:induction false} BatchHitsExactly(entries: map<Text, Entry>, namespace: Text, generation: Generation,
                                            keys: seq<Text>, clock: seq<int>, i: nat)
    requires |clock| == |keys| && i < |keys|
    ensures |Answers(entries, namespace, generation, keys, clock)| == |keys|
    ensures Answers(entries, namespace, generation, keys, clock)[i]
              == if HitsAt(entries, namespace, generation, keys, clock, i)
                 then Some(entries[Composite(namespace, keys[i])].value) else None
    decreases |keys|
  {
    hide HitsAt, Answer, EntriesAfter;
    var last := |keys| - 1;
    AnswersCount(entries, namespace, generation, keys[..last], clock[..last]);
    if i < last {
      BatchHitsExactly(entries, namespace, generation, keys[..last], clock[..last], i);
      HitsInPrefix(entries, namespace, generation, keys, clock, i, last);
      assert keys[..last][i] == keys[i];
    } else {
      LastHitsExactly(entries, namespace, generation, keys, clock);
    }
  }

  lemma {:induction false} AnswersCount(entries: map<Text, Entry>, namespace: Text, generation: Generation,
                                        keys: seq<Text>, clock: seq<int>)
    requires |clock| == |keys|
    ensures |Answers(entries, namespace, generation, keys, clock)| == |keys|
    decreases |keys|
  {
    if keys != [] {
      AnswersCount(entries, namespace, generation, keys[..|keys| - 1], clock[..|keys| - 1]);
    }
  }

  lemma LastHitsExactly(entries: map<Text, Entry>, namespace: Text, generation: Generation, keys: seq<Text>,
                        clock: seq<int>)
    requires |clock| == |keys| && keys != []
    ensures var last := |keys| - 1; var id := Composite(namespace, keys[last]);
            Answer(EntriesAfter(entries, namespace, generation, keys[..last], clock[..last]), generation, id,
                clock[last])
            == if HitsAt(entries, namespace, generation, keys, clock, last) then Some(entries[id].value) else None
  {
    var last := |keys| - 1;
    var id := Composite(namespace, keys[last]);
    hide EntriesAfter, Unexpired;
    BatchKeepsExactly(entries, namespace, generation, keys[..last], clock[..last], id);
    BatchDropsExpired(entries, namespace, generation, keys[..last], clock[..last], id);
    if id in entries { UnexpiredByKey(entries[id], namespace, keys, clock); }
  }

  lemma UnexpiredByKey(entry: Entry, namespace: Text, keys: seq<Text>, clock: seq<int>)
    requires |clock| == |keys| && keys != []
    ensures var last := |keys| - 1;
            Unexpired(entry, Composite(namespace, keys[last]), namespace, keys[..last], clock[..last])
            <==> forall j | 0 <= j < last && keys[j] == keys[last] :: clock[j] < entry.expiresAt
  {
    var last := |keys| - 1;
    forall j | 0 <= j < last
      ensures keys[..last][j] == keys[j] && clock[..last][j] == clock[j]
      ensures Composite(namespace, keys[j]) == Composite(namespace, keys[last]) <==> keys[j] == keys[last]
    {
      if Composite(namespace, keys[j]) == Composite(namespace, keys[last]) {
        CompositeIsInjective(namespace, keys[j], namespace, keys[last]);
      }
    }
  }

  lemma {:induction false} TouchKeeps(order: seq<Text>, id: Text)
    requires Distinct(order) && id in order
    ensures Distinct(Touch(order, id)) && |Touch(order, id)| == |order|
    ensures forall k :: k in Touch(order, id) <==> k in order
  {
    RemoveKeepsDistinct(order, id);
    AppendKeepsDistinct(Remove(order, id), id);
  }

  lemma {:induction false} TotalTouches(order: seq<Text>, entries: map<Text, Entry>, id: Text)
    requires Distinct(order) && id in order && forall k | k in order :: k in entries
    ensures (forall k | k in Touch(order, id) :: k in entries)
            && Total(Touch(order, id), entries) == Total(order, entries)
  {
    TotalRemoves(order, entries, id);
    TotalAppends(Remove(order, id), entries, id);
  }

  lemma {:induction false} HeadRemoves(order: seq<Text>)
    requires Distinct(order) && order != []
    ensures Remove(order, order[0]) == order[1..]
  {
    AbsentRemove(order[1..], order[0]);
  }

  lemma SuffixTotals(order: seq<Text>, a: map<Text, Entry>, b: map<Text, Entry>)
    requires forall id | id in order :: id in a && id in b && a[id] == b[id]
    ensures forall n | 0 <= n <= |order| :: Total(order[n..], a) == Total(order[n..], b)
  {
    forall n | 0 <= n <= |order| ensures Total(order[n..], a) == Total(order[n..], b) {
      TotalAgrees(order[n..], a, b);
    }
  }

  // ---- What the adapter's fields promise each other ----

  /** The entry map, its recency order and the running byte count agree. */
  ghost predicate Counted(order: seq<Text>, entries: map<Text, Entry>, bytes: int) {
    && Distinct(order) && (forall id {:trigger id in entries} :: id in order <==> id in entries)
    && bytes == Total(order, entries)
  }

  ghost predicate Named(nsOrder: seq<Text>, namespaces: map<Text, Generation>, spent: set<Generation>) {
    && Distinct(nsOrder) && (forall n :: n in nsOrder <==> n in namespaces)
    && (forall n | n in namespaces :: namespaces[n] in spent)
  }

  /** Every entry belongs to a slot of a live namespace, under its current generation, and is that slot's latest. */
  ghost predicate Filed(entries: map<Text, Entry>, filed: map<Text, Slot>, namespaces: map<Text, Generation>,
                        latest: map<Slot, Entry>) {
    forall id {:trigger FiledAt(id, entries[id], filed, namespaces, latest)} | id in entries ::
      FiledAt(id, entries[id], filed, namespaces, latest)
  }

  ghost predicate FiledAt(id: Text, entry: Entry, filed: map<Text, Slot>, namespaces: map<Text, Generation>,
                          latest: map<Slot, Entry>) {
    && id in filed && id == Id(filed[id])
    && filed[id].namespace in namespaces && entry.generation == namespaces[filed[id].namespace]
    && filed[id] in latest && latest[filed[id]] == entry
  }

  /** A generation that was handed out and is not the namespace's current one. */
  ghost predicate Superseded(namespaces: map<Text, Generation>, spent: set<Generation>, namespace: Text, g: Generation)
  {
    g in spent && !(namespace in namespaces && namespaces[namespace] == g)
  }

  /** Generations are only ever added, and one that is superseded stays so. */
  ghost predicate Onward(were: map<Text, Generation>, spentWas: set<Generation>, namespaces: map<Text, Generation>,
                         spent: set<Generation>) {
    && spentWas <= spent
    && forall n, g | Superseded(were, spentWas, n, g) :: Superseded(namespaces, spent, n, g)
  }

  ghost predicate Within(small: map<Text, Entry>, large: map<Text, Entry>) {
    forall id | id in small :: id in large && small[id] == large[id]
  }

  lemma FiledShrinks(small: map<Text, Entry>, large: map<Text, Entry>, filed: map<Text, Slot>,
                     namespaces: map<Text, Generation>, latest: map<Slot, Entry>)
    requires Filed(large, filed, namespaces, latest) && Within(small, large)
    ensures Filed(small, filed, namespaces, latest)
  {
  }

  /** After the scan no entry is left of the namespace, so it can be dropped, or its slots emptied. */
  lemma {:induction false} FiledForgets(was: seq<Text>, order: seq<Text>, entries: map<Text, Entry>,
      filed: map<Text, Slot>, namespaces: map<Text, Generation>, latest: map<Slot, Entry>, namespace: Text)
    requires Filed(entries, filed, namespaces, latest)
    requires (forall id :: id in order <==> id in entries) && order == Unprefixed(was, Prefix(namespace))
    ensures Filed(entries, filed, namespaces - {namespace}, latest)
    ensures Filed(entries, filed, namespaces - {namespace}, Without(latest, namespace))
  {
    UnprefixedElements(was, Prefix(namespace));
    forall id | id in entries
      ensures FiledAt(id, entries[id], filed, namespaces - {namespace}, latest)
      ensures FiledAt(id, entries[id], filed, namespaces - {namespace}, Without(latest, namespace))
    {
      assert FiledAt(id, entries[id], filed, namespaces, latest);
      PrefixSelectsNamespace(namespace, filed[id].namespace, filed[id].key);
    }
  }

  /** The plain map without one namespace's slots. */
  function Without(latest: map<Slot, Entry>, namespace: Text): map<Slot, Entry> {
    map s | s in latest && s.namespace != namespace :: latest[s]
  }

  /** An unknown namespace has no entries, so a scan for it would find none. */
  lemma {:induction false} AbsentForgets(order: seq<Text>, entries: map<Text, Entry>, filed: map<Text, Slot>,
                      namespaces: map<Text, Generation>, latest: map<Slot, Entry>, namespace: Text)
    requires Filed(entries, filed, namespaces, latest) && namespace !in namespaces
    requires forall id :: id in order <==> id in entries
    ensures Filed(entries, filed, namespaces, Without(latest, namespace))
    ensures Unprefixed(order, Prefix(namespace)) == order
  {
    forall id | id in entries
      ensures FiledAt(id, entries[id], filed, namespaces, Without(latest, namespace)) && !(Prefix(namespace) <= id)
    {
      assert FiledAt(id, entries[id], filed, namespaces, latest);
      PrefixSelectsNamespace(namespace, filed[id].namespace, filed[id].key);
    }
    UnprefixedKeepsAll(order, Prefix(namespace));
  }

  lemma {:induction false} UnprefixedKeepsAll(order: seq<Text>, prefix: Text)
    requires forall id | id in order :: !(prefix <= id)
    ensures Unprefixed(order, prefix) == order
    decreases |order|
  {
    if order != [] {
      assert order[0] in order;
      assert forall id | id in order[1..] :: id in order;
      UnprefixedKeepsAll(order[1..], prefix);
    }
  }

  lemma FiledJoins(entries: map<Text, Entry>, filed: map<Text, Slot>, namespaces: map<Text, Generation>,
                   latest: map<Slot, Entry>, namespace: Text, generation: Generation)
    requires Filed(entries, filed, namespaces, latest) && namespace !in namespaces
    ensures Filed(entries, filed, namespaces[namespace := generation], latest)
  {
    forall id | id in entries ensures FiledAt(id, entries[id], filed, namespaces[namespace := generation], latest) {
      assert FiledAt(id, entries[id], filed, namespaces, latest);
    }
  }

  lemma FiledInserts(entries: map<Text, Entry>, filed: map<Text, Slot>, namespaces: map<Text, Generation>,
                     latest: map<Slot, Entry>, slot: Slot, entry: Entry)
    requires Filed(entries, filed, namespaces, latest) && Id(slot) !in entries
    requires slot.namespace in namespaces && namespaces[slot.namespace] == entry.generation
    ensures Filed(entries[Id(slot) := entry], filed[Id(slot) := slot], namespaces, latest[slot := entry])
  {
    var id, more := Id(slot), entries[Id(slot) := entry];
    forall k | k in more ensures FiledAt(k, more[k], filed[id := slot], namespaces, latest[slot := entry]) {
      if k != id { assert FiledAt(k, entries[k], filed, namespaces, latest); }
    }
  }

  lemma FiledDeletes(entries: map<Text, Entry>, filed: map<Text, Slot>, namespaces: map<Text, Generation>,
                     latest: map<Slot, Entry>, slot: Slot)
    requires Filed(entries, filed, namespaces, latest)
    ensures Filed(entries - {Id(slot)}, filed, namespaces, latest - {slot})
  {
    var less := entries - {Id(slot)};
    forall k | k in less ensures FiledAt(k, less[k], filed, namespaces, latest - {slot}) {
      assert FiledAt(k, entries[k], filed, namespaces, latest);
    }
  }

  lemma {:induction false} NamesRemove(nsOrder: seq<Text>, namespaces: map<Text, Generation>, spent: set<Generation>,
      namespace: Text)
    requires Named(nsOrder, namespaces, spent)
    ensures Named(Remove(nsOrder, namespace), namespaces - {namespace}, spent)
    ensures namespace in namespaces ==> |Remove(nsOrder, namespace)| == |nsOrder| - 1
    ensures namespace !in namespaces ==> Remove(nsOrder, namespace) == nsOrder
  {
    RemoveKeepsDistinct(nsOrder, namespace);
  }

  lemma NamesJoin(nsOrder: seq<Text>, namespaces: map<Text, Generation>, spent: set<Generation>, namespace: Text,
                  generation: Generation)
    requires Named(nsOrder, namespaces, spent) && namespace !in namespaces
    ensures Named(nsOrder + [namespace], namespaces[namespace := generation], spent + {generation})
  {
    AppendKeepsDistinct(nsOrder, namespace);
  }

  lemma CountedInserts(order: seq<Text>, entries: map<Text, Entry>, bytes: int, id: Text, entry: Entry)
    requires Counted(order, entries, bytes) && id !in entries
    ensures Counted(order + [id], entries[id := entry], bytes + entry.bytes)
  {
    AppendKeepsDistinct(order, id);
    TotalAgrees(order, entries, entries[id := entry]);
    TotalAppends(order, entries[id := entry], id);
  }

  lemma {:induction false} CountedRemoves(order: seq<Text>, entries: map<Text, Entry>, bytes: int, id: Text)
    requires Counted(order, entries, bytes) && id in entries
    ensures Counted(Remove(order, id), entries - {id}, bytes - entries[id].bytes)
    ensures |Remove(order, id)| == |order| - 1
  {
    RemoveKeepsDistinct(order, id);
    TotalRemoves(order, entries, id);
    TotalAgrees(Remove(order, id), entries, entries - {id});
  }

  lemma CountedTouches(order: seq<Text>, entries: map<Text, Entry>, bytes: int, id: Text)
    requires Counted(order, entries, bytes) && id in entries
    ensures Counted(Touch(order, id), entries, bytes) && |Touch(order, id)| == |order|
  {
    TouchKeeps(order, id);
    TotalTouches(order, entries, id);
  }

  lemma AnswerIsLatest(entries: map<Text, Entry>, filed: map<Text, Slot>, namespaces: map<Text, Generation>,
                       latest: map<Slot, Entry>, s: Slot, generation: Generation, now: int)
    requires Filed(entries, filed, namespaces, latest)
    ensures var answer := Answer(entries, generation, Id(s), now);
            answer.Some? ==>
              s in latest && latest[s].generation == generation && latest[s].value == answer.value
                  && latest[s].expiresAt > now
  {
    var id := Id(s);
    if id in entries {
      assert FiledAt(id, entries[id], filed, namespaces, latest);
      CompositeIsInjective(s.namespace, s.key, filed[id].namespace, filed[id].key);
    }
  }

  lemma {:induction false} AnswersAreLatest(entries: map<Text, Entry>, filed: map<Text, Slot>,
      namespaces: map<Text, Generation>, latest: map<Slot, Entry>, namespace: Text, generation: Generation,
      keys: seq<Text>, clock: seq<int>)
    requires |clock| == |keys| && Filed(entries, filed, namespaces, latest)
    ensures var answers := Answers(entries, namespace, generation, keys, clock);
            && |answers| == |keys|
            && forall i | 0 <= i < |keys| && answers[i].Some? ::
                 var s := Slot(namespace, keys[i]);
                 && s in latest && latest[s].generation == generation
                 && latest[s].value == answers[i].value && latest[s].expiresAt > clock[i]
    decreases |keys|
  {
    if keys != [] {
      var last := |keys| - 1;
      var before := EntriesAfter(entries, namespace, generation, keys[..last], clock[..last]);
      AnswersAreLatest(entries, filed, namespaces, latest, namespace, generation, keys[..last], clock[..last]);
      BatchDropsExpired(entries, namespace, generation, keys[..last], clock[..last], []);
      FiledShrinks(before, entries, filed, namespaces, latest);
      AnswerIsLatest(before, filed, namespaces, latest, Slot(namespace, keys[last]), generation, clock[last]);
    }
  }

  class Adapter {
    const maxEntries: nat
    const maxBytes: nat
    const maxNamespaces: nat

    var nsOrder: seq<Text>
    var namespaces: map<Text, Generation>
    var order: seq<Text>
    var entries: map<Text, Entry>
    var bytes: int

    /** The slot each id was filed for. */
    ghost var filed: map<Text, Slot>
    /** The plain map: the last successful set of each slot not deleted or invalidated since. Eviction leaves it
        alone. */
    ghost var latest: map<Slot, Entry>
    /** Every generation handed out so far. */
    ghost var spent: set<Generation>

    ghost predicate Core()
      reads this
    {
      Counted(order, entries, bytes)
    }

    ghost predicate NamespacesOk()
      reads this
    {
      Named(nsOrder, namespaces, spent)
    }

    ghost predicate EntriesOk()
      reads this
    {
      Filed(entries, filed, namespaces, latest)
    }

    ghost predicate Bounded()
      reads this
    {
      |order| <= maxEntries && bytes <= maxBytes && |nsOrder| <= maxNamespaces
    }

    ghost predicate Valid()
      reads this
    {
      && 0 < maxEntries && 0 < maxBytes && 0 < maxNamespaces
      && Core() && NamespacesOk() && EntriesOk() && Bounded()
    }

    constructor (maxEntries: nat, maxBytes: nat, maxNamespaces: nat)
      requires 0 < maxEntries && 0 < maxBytes && 0 < maxNamespaces
      ensures Valid() && entries == map[] && namespaces == map[] && latest == map[]
    {
      this.maxEntries, this.maxBytes, this.maxNamespaces := maxEntries, maxBytes, maxNamespaces;
      nsOrder, namespaces, order, entries, bytes := [], map[], [], map[], 0;
      filed, latest, spent := map[], map[], {};
    }

    method RemoveEntry(id: Text)
      requires Core()
      modifies this`order, this`entries, this`bytes
      ensures Core() && order == Remove(old(order), id) && entries == old(entries) - {id}
      ensures bytes <= old(bytes)
    {
      if id !in entries {
        RemoveKeepsDistinct(order, id);
        return;
      }
      CountedRemoves(order, entries, bytes, id);
      bytes := bytes - entries[id].bytes;
      entries := entries - {id};
      order := Remove(order, id);
    }

    method Scan(prefix: Text)
      requires Core()
      modifies this`order, this`entries, this`bytes
      ensures Core() && bytes <= old(bytes) && |order| <= |old(order)|
      ensures order == Unprefixed(old(order), prefix)
      ensures Within(entries, old(entries))
    {
      var keys := order;
      var i := 0;
      while i < |keys|
        invariant 0 <= i <= |keys| && Core() && bytes <= old(bytes)
        invariant order == Scanned(keys, i, prefix)
        invariant Within(entries, old(entries))
      {
        if prefix <= keys[i] { RemoveEntry(keys[i]); }
        i := i + 1;
      }
      ScanEnds(keys, prefix);
    }

    /** The scan over all keys that removes those starting with the namespace's prefix. */
    method EvictNamespace(namespace: Text)
      requires Core()
      modifies this`order, this`entries, this`bytes
      ensures Core() && bytes <= old(bytes) && |order| <= |old(order)|
      ensures order == Unprefixed(old(order), Prefix(namespace))
      ensures Within(entries, old(entries))
    {
      Scan(Prefix(namespace));
    }

    /** Whether a generation is the namespace's current one. */
    predicate IsCurrent(namespace: Text, generation: Generation)
      reads this
    {
      namespace in namespaces && namespaces[namespace] == generation
    }

    method TouchKnown(namespace: Text)
      requires Valid() && namespace in namespaces
      modifies this`nsOrder
      ensures Valid() && nsOrder == Touch(old(nsOrder), namespace)
    {
      TouchKeeps(nsOrder, namespace);
      nsOrder := Touch(nsOrder, namespace);
    }

    /** The current generation of the namespace, made most recent; a new namespace may push out the oldest one. */
    method TouchNamespace(namespace: Text, token: Generation) returns (generation: Generation)
      requires Valid() && token !in spent
      modifies this`nsOrder, this`namespaces, this`order, this`entries, this`bytes, this`spent
      ensures Valid() && IsCurrent(namespace, generation) && Onward(old(namespaces), old(spent), namespaces, spent)
      ensures namespace in old(namespaces) ==>
                && namespaces == old(namespaces) && nsOrder == Touch(old(nsOrder), namespace)
                && entries == old(entries) && order == old(order) && spent == old(spent)
      ensures namespace !in old(namespaces) ==> generation == token && spent == old(spent) + {token}
      ensures namespace !in old(namespaces) ==> Joined(old(nsOrder), old(namespaces), old(order), namespace, token)
      ensures Within(entries, old(entries))
    {
      if namespace in namespaces {
        generation := namespaces[namespace];
        TouchKnown(namespace);
        return;
      }
      Join(namespace, token);
      generation := token;
    }

    /** The namespace was added; when there was no free place the oldest one went, with all its entries. */
    ghost predicate Joined(nsWas: seq<Text>, were: map<Text, Generation>, was: seq<Text>, namespace: Text,
        token: Generation)
      reads this
    {
      if |nsWas| < maxNamespaces || nsWas == [] then
        nsOrder == nsWas + [namespace] && namespaces == were[namespace := token] && order == was
      else
        && nsOrder == nsWas[1..] + [namespace] && namespaces == (were - {nsWas[0]})[namespace := token]
        && order == Unprefixed(was, Prefix(nsWas[0]))
    }

    method Join(namespace: Text, token: Generation)
      requires Valid() && namespace !in namespaces && token !in spent
      modifies this`nsOrder, this`namespaces, this`order, this`entries, this`bytes, this`spent
      ensures Valid() && IsCurrent(namespace, token) && spent == old(spent) + {token}
      ensures Onward(old(namespaces), old(spent), namespaces, spent)
      ensures Joined(old(nsOrder), old(namespaces), old(order), namespace, token)
      ensures Within(entries, old(entries))
    {
      if |nsOrder| >= maxNamespaces { DropOldestNamespace(); }
      NamesJoin(nsOrder, namespaces, spent, namespace, token);
      FiledJoins(entries, filed, namespaces, latest, namespace, token);
      namespaces := namespaces[namespace := token];
      nsOrder := nsOrder + [namespace];
      spent := spent + {token};
    }

    /** Evicts the namespace if it is known; either way it can then be dropped. */
    method Empty(namespace: Text)
      requires Valid()
      modifies this`order, this`entries, this`bytes
      ensures Core() && bytes <= old(bytes) && |order| <= |old(order)| && Within(entries, old(entries))
      ensures order == Unprefixed(old(order), Prefix(namespace))
      ensures Filed(entries, filed, namespaces - {namespace}, latest)
      ensures Filed(entries, filed, namespaces - {namespace}, Without(latest, namespace))
    {
      if namespace in namespaces {
        EvictNamespace(namespace);
        FiledShrinks(entries, old(entries), filed, namespaces, latest);
        FiledForgets(old(order), order, entries, filed, namespaces, latest, namespace);
      } else {
        assert namespaces - {namespace} == namespaces;
        AbsentForgets(order, entries, filed, namespaces, latest, namespace);
      }
    }

    method DropOldestNamespace()
      requires Valid() && |nsOrder| >= maxNamespaces
      modifies this`nsOrder, this`namespaces, this`order, this`entries, this`bytes
      ensures Valid() && |nsOrder| < maxNamespaces
      ensures nsOrder == old(nsOrder)[1..] && namespaces == old(namespaces) - {old(nsOrder)[0]}
      ensures order == Unprefixed(old(order), Prefix(old(nsOrder)[0]))
      ensures Within(entries, old(entries))
    {
      var oldest := nsOrder[0];
      HeadRemoves(nsOrder);
      NamesRemove(nsOrder, namespaces, spent, oldest);
      Empty(oldest);
      namespaces := namespaces - {oldest};
      nsOrder := nsOrder[1..];
    }

    method Generation(namespace: Text, token: Generation) returns (generation: Generation)
      requires Valid() && token !in spent
      modifies this`nsOrder, this`namespaces, this`order, this`entries, this`bytes, this`spent
      ensures Valid() && IsCurrent(namespace, generation) && generation in spent
      ensures Onward(old(namespaces), old(spent), namespaces, spent)
      ensures generation == if namespace in old(namespaces) then old(namespaces)[namespace] else token
      ensures forall n | n in namespaces && n != namespace ::
                n in old(namespaces) && namespaces[n] == old(namespaces)[n]
      ensures Within(entries, old(entries))
    {
      generation := TouchNamespace(namespace, token);
    }

    method GetOne(generation: Generation, id: Text, now: int) returns (value: Option<Text>)
      requires Valid()
      modifies this`order, this`entries, this`bytes
      ensures Valid() && entries == AfterLookup(old(entries), generation, id, now)
      ensures value == Answer(old(entries), generation, id, now)
      ensures order == AfterRead(old(order), old(entries), generation, id, now)
    {
      if id !in entries || entries[id].generation != generation { return None; }
      if entries[id].expiresAt <= now {
        RemoveEntry(id);
        FiledShrinks(entries, old(entries), filed, namespaces, latest);
        return None;
      }
      CountedTouches(order, entries, bytes, id);
      order := Touch(order, id);
      value := Some(entries[id].value);
    }

    /** The lookups of one batch under the current generation; the clock is read once for each key. */
    method GetAll(namespace: Text, generation: Generation, keys: seq<Text>, clock: seq<int>)
      returns (values: seq<Option<Text>>)
      requires Valid() && |clock| == |keys|
      modifies this`order, this`entries, this`bytes
      ensures Valid() && entries == EntriesAfter(old(entries), namespace, generation, keys, clock)
      ensures values == Answers(old(entries), namespace, generation, keys, clock)
      ensures order == OrderAfter(old(order), old(entries), namespace, generation, keys, clock)
    {
      values := [];
      var i := 0;
      while i < |keys|
        invariant 0 <= i <= |keys| && Valid()
        invariant entries == EntriesAfter(old(entries), namespace, generation, keys[..i], clock[..i])
        invariant values == Answers(old(entries), namespace, generation, keys[..i], clock[..i])
        invariant order == OrderAfter(old(order), old(entries), namespace, generation, keys[..i], clock[..i])
      {
        var value := GetOne(generation, Composite(namespace, keys[i]), clock[i]);
        assert keys[..i + 1][..i] == keys[..i] && clock[..i + 1][..i] == clock[..i];
        values := values + [value];
        i := i + 1;
      }
      assert keys[..i] == keys && clock[..i] == clock;
    }

    /** Under the current generation an entry's own generation never stands in the way of a hit. */
    lemma {:induction false} HitsAreExact(namespace: Text, generation: Generation, keys: seq<Text>, clock: seq<int>)
      requires Valid() && IsCurrent(namespace, generation) && |clock| == |keys|
      ensures var answers := Answers(entries, namespace, generation, keys, clock);
              |answers| == |keys| && forall i | 0 <= i < |keys| ::
                answers[i].Some? <==>
                  && Composite(namespace, keys[i]) in entries
                  && forall j | 0 <= j <= i && keys[j] == keys[i] ::
                       clock[j] < entries[Composite(namespace, keys[i])].expiresAt
    {
      AnswersCount(entries, namespace, generation, keys, clock);
      forall i | 0 <= i < |keys|
        ensures Answers(entries, namespace, generation, keys, clock)[i].Some? <==>
                  HitsAt(entries, namespace, generation, keys, clock, i)
        ensures Composite(namespace, keys[i]) in entries ==>
                  entries[Composite(namespace, keys[i])].generation == generation
      {
        BatchHitsExactly(entries, namespace, generation, keys, clock, i);
        var id := Composite(namespace, keys[i]);
        if id in entries {
          assert FiledAt(id, entries[id], filed, namespaces, latest);
          CompositeIsInjective(namespace, keys[i], filed[id].namespace, filed[id].key);
        }
      }
    }

    /** Every hit is the slot's latest value, and every live entry is a hit; a batch under any other generation misses
        throughout. */
    method GetMany(namespace: Text, generation: Generation, keys: seq<Text>, clock: seq<int>) returns (batch: Batch)
      requires Valid() && |clock| == |keys|
      modifies this`nsOrder, this`order, this`entries, this`bytes
      ensures Valid()
      ensures batch.TooMany? <==> |keys| > 100
      ensures batch.Results? ==> |batch.values| == |keys|
      ensures batch.Results? ==> forall i :: 0 <= i < |keys| && batch.values[i].Some? ==>
                var s := Slot(namespace, keys[i]);
                && IsCurrent(namespace, generation) && s in latest && latest[s].generation == generation
                && latest[s].value == batch.values[i].value && latest[s].expiresAt > clock[i]
      ensures batch.Results? && IsCurrent(namespace, generation) ==>
                && batch.values == Answers(old(entries), namespace, generation, keys, clock)
                && entries == EntriesAfter(old(entries), namespace, generation, keys, clock)
                && order == OrderAfter(old(order), old(entries), namespace, generation, keys, clock)
                && nsOrder == Touch(old(nsOrder), namespace)
      ensures batch.TooMany? || !IsCurrent(namespace, generation) ==>
                order == old(order) && entries == old(entries) && nsOrder == old(nsOrder)
      ensures batch.Results? && IsCurrent(namespace, generation) ==> forall i | 0 <= i < |keys| ::
                batch.values[i].Some? <==>
                  && Composite(namespace, keys[i]) in old(entries)
                  && forall j | 0 <= j <= i && keys[j] == keys[i] ::
                       clock[j] < old(entries)[Composite(namespace, keys[i])].expiresAt
      ensures batch.Results? && !IsCurrent(namespace, generation) ==> forall i | 0 <= i < |keys| ::
              batch.values[i].None?
    {
      if |keys| > MAX_BATCH_SIZE { return TooMany; }
      if namespace !in namespaces || namespaces[namespace] != generation {
        return Results(seq(|keys|, i => None));
      }
      AnswersAreLatest(entries, filed, namespaces, latest, namespace, generation, keys, clock);
      HitsAreExact(namespace, generation, keys, clock);
      TouchKnown(namespace);
      var values := GetAll(namespace, generation, keys, clock);
      batch := Results(values);
    }

    /** Whether an entry of `size` bytes fits beside the listed ones. */
    ghost predicate Room(list: seq<Text>, sizes: map<Text, Entry>, size: nat)
      requires forall id | id in list :: id in sizes
    {
      |list| < maxEntries && Total(list, sizes) + size <= maxBytes
    }

    method DropOldest()
      requires Core() && order != []
      modifies this`order, this`entries, this`bytes
      ensures Core() && order == old(order)[1..] && Within(entries, old(entries))
    {
      HeadRemoves(order);
      RemoveEntry(order[0]);
    }

    /** The eviction loop; its own escape for an empty map is never needed. */
    method MakeRoom(size: nat) returns (ghost dropped: nat)
      requires Core() && 0 < maxEntries && size <= maxBytes
      modifies this`order, this`entries, this`bytes
      ensures Core() && Room(order, entries, size) && bytes + size <= maxBytes
      ensures dropped <= |old(order)| && order == old(order)[dropped..]
      ensures KeepsFrom(old(order), old(entries), dropped, size)
      ensures Within(entries, old(entries))
    {
      dropped := 0;
      while |order| >= maxEntries || bytes + size > maxBytes
        invariant Core() && 0 <= dropped <= |old(order)| && order == old(order)[dropped..]
        invariant dropped > 0 ==> !Room(old(order)[dropped - 1..], old(entries), size)
        invariant Within(entries, old(entries))
        decreases |order|
      {
        TotalAgrees(order, entries, old(entries));
        DropOldest();
        dropped := dropped + 1;
      }
      TotalAgrees(order, entries, old(entries));
    }

    /** The kept entries are the longest recent run of the others that leaves room, then the new one. */
    ghost predicate SurvivorsOf(was: seq<Text>, sizes: map<Text, Entry>, order: seq<Text>, id: Text, size: nat)
      requires forall k | k in was :: k in sizes
    {
      var others := Remove(was, id);
      exists n: nat :: KeepsFrom(others, sizes, n, size) && order == others[n..] + [id]
    }

    ghost predicate KeepsFrom(others: seq<Text>, sizes: map<Text, Entry>, n: nat, size: nat)
      requires forall k | k in others :: k in sizes
    {
      n <= |others| && Room(others[n..], sizes, size) && (n > 0 ==> !Room(others[n - 1..], sizes, size))
    }

    /** No longer run of recent entries leaves room. */
    lemma {:induction false} KeepsLongest(others: seq<Text>, sizes: map<Text, Entry>, n: nat, m: nat, size: nat)
      requires (forall k | k in others :: k in sizes) && KeepsFrom(others, sizes, n, size) && m < n
      ensures !Room(others[m..], sizes, size)
      decreases n - m
    {
      if m + 1 < n {
        KeepsLongest(others, sizes, n, m + 1, size);
        assert others[m..][1..] == others[m + 1..];
      }
    }

    method Insert(slot: Slot, entry: Entry)
      requires Valid() && Id(slot) !in entries && Room(order, entries, entry.bytes)
      requires IsCurrent(slot.namespace, entry.generation)
      modifies this`order, this`entries, this`bytes, this`filed, this`latest
      ensures Valid() && order == old(order) + [Id(slot)] && entries == old(entries)[Id(slot) := entry]
      ensures latest == old(latest)[slot := entry]
    {
      var id := Id(slot);
      CountedInserts(order, entries, bytes, id, entry);
      FiledInserts(entries, filed, namespaces, latest, slot, entry);
      entries := entries[id := entry];
      order := order + [id];
      bytes := bytes + entry.bytes;
      filed := filed[id := slot];
      latest := latest[slot := entry];
    }

    method Set(namespace: Text, generation: Generation, key: Text, value: Text, ttlMs: int, now: int)
      returns (outcome: SetOutcome)
      requires Valid()
      modifies this`nsOrder, this`order, this`entries, this`bytes, this`filed, this`latest
      ensures Valid()
      ensures outcome == InvalidTtl <==> !(0 < ttlMs <= 86_400_000)
      ensures outcome == Stale <==> 0 < ttlMs <= 86_400_000 && !IsCurrent(namespace, generation)
      ensures outcome == TooLarge <==> && 0 < ttlMs <= 86_400_000 && IsCurrent(namespace, generation)
                                       && Utf8Length(namespace) + Utf8Length(generation) + Utf8Length(key)
                                          + Utf8Length(value) > maxBytes
      ensures outcome == InvalidTtl || outcome == Stale ==> nsOrder == old(nsOrder)
      ensures outcome == TooLarge || outcome == Stored ==> nsOrder == Touch(old(nsOrder), namespace)
      ensures outcome == Stored ==>
                && latest == old(latest)[Slot(namespace, key) :=
                               Entry(generation, value, now + ttlMs, EntrySize(namespace, generation, key, value))]
                && Composite(namespace, key) in entries
                && entries[Composite(namespace, key)] == latest[Slot(namespace, key)]
                && SurvivorsOf(old(order), old(entries), order, Composite(namespace, key),
                               EntrySize(namespace, generation, key, value))
      ensures outcome != Stored ==> latest == old(latest) && entries == old(entries) && order == old(order)
      ensures forall id | id in entries && id != Composite(namespace, key) ::
                id in old(entries) && entries[id] == old(entries)[id]
    {
      if !(0 <= ttlMs <= MAX_TTL_MS) || ttlMs == 0 { return InvalidTtl; }
      if namespace !in namespaces || namespaces[namespace] != generation { return Stale; }
      TouchKnown(namespace);
      var size := EntrySize(namespace, generation, key, value);
      if size > maxBytes { return TooLarge; }
      Replace(Slot(namespace, key), Entry(generation, value, now + ttlMs, size));
      outcome := Stored;
    }

    method Replace(slot: Slot, entry: Entry)
      requires Valid() && IsCurrent(slot.namespace, entry.generation) && entry.bytes <= maxBytes
      modifies this`order, this`entries, this`bytes, this`filed, this`latest
      ensures Valid() && latest == old(latest)[slot := entry]
      ensures Id(slot) in entries && entries[Id(slot)] == entry
      ensures SurvivorsOf(old(order), old(entries), order, Id(slot), entry.bytes)
      ensures forall id | id in entries && id != Id(slot) :: id in old(entries) && entries[id] == old(entries)[id]
    {
      Clear(Id(slot), entry.bytes);
      FiledShrinks(entries, old(entries), filed, namespaces, latest);
      Insert(slot, entry);
    }

    /** Takes out the id itself, then the oldest others until there is room. */
    method Clear(id: Text, size: nat)
      requires Core() && 0 < maxEntries && size <= maxBytes
      modifies this`order, this`entries, this`bytes
      ensures Core() && id !in entries && Room(order, entries, size)
      ensures Within(entries, old(entries)) && SurvivorsOf(old(order), old(entries), order + [id], id, size)
    {
      RemoveEntry(id);
      ghost var others, sizes := order, entries;
      var dropped := MakeRoom(size);
      KeepsAlike(others, sizes, old(entries), dropped, size);
    }

    lemma KeepsAlike(others: seq<Text>, sizes: map<Text, Entry>, larger: map<Text, Entry>, n: nat, size: nat)
      requires (forall k | k in others :: k in sizes) && Within(sizes, larger) && KeepsFrom(others, sizes, n, size)
      ensures KeepsFrom(others, larger, n, size)
    {
      SuffixTotals(others, sizes, larger);
    }

    method Delete(namespace: Text, generation: Generation, key: Text)
      requires Valid()
      modifies this`nsOrder, this`order, this`entries, this`bytes, this`latest
      ensures Valid()
      ensures IsCurrent(namespace, generation) ==>
                && latest == old(latest) - {Slot(namespace, key)} && nsOrder == Touch(old(nsOrder), namespace)
                && entries == old(entries) - {Composite(namespace, key)}
                && order == Remove(old(order), Composite(namespace, key))
      ensures !IsCurrent(namespace, generation) ==>
                latest == old(latest) && nsOrder == old(nsOrder) && entries == old(entries) && order == old(order)
    {
      if namespace !in namespaces || namespaces[namespace] != generation { return; }
      FiledDeletes(entries, filed, namespaces, latest, Slot(namespace, key));
      TouchKnown(namespace);
      Discard(Composite(namespace, key), Slot(namespace, key));
    }

    method Discard(id: Text, ghost slot: Slot)
      requires Valid() && Filed(entries - {id}, filed, namespaces, latest - {slot})
      modifies this`order, this`entries, this`bytes, this`latest
      ensures Valid() && latest == old(latest) - {slot}
      ensures entries == old(entries) - {id} && order == Remove(old(order), id)
    {
      RemoveEntry(id);
      latest := latest - {slot};
    }

    /** Drops every slot of the namespace, whatever its key, and replaces its generation by a fresh one. */
    method Invalidate(namespace: Text, token: Generation)
      requires Valid() && token !in spent
      modifies this
      ensures Valid() && IsCurrent(namespace, token) && spent == old(spent) + {token}
      ensures latest == Without(old(latest), namespace)
      ensures forall g | g in old(spent) :: Superseded(namespaces, spent, namespace, g)
      ensures Onward(old(namespaces), old(spent), namespaces, spent)
      ensures Joined(Remove(old(nsOrder), namespace), old(namespaces) - {namespace}, Swept(old(order), namespace),
              namespace,
                     token)
      ensures Within(entries, old(entries))
    {
      Vacate(namespace);
      Join(namespace, token);
    }

    /** The recency order without the namespace's entries. */
    ghost function Swept(was: seq<Text>, namespace: Text): seq<Text>
    {
      Unprefixed(was, Prefix(namespace))
    }

    method Vacate(namespace: Text)
      requires Valid()
      modifies this`nsOrder, this`namespaces, this`order, this`entries, this`bytes, this`latest
      ensures Valid() && latest == Without(old(latest), namespace)
      ensures namespaces == old(namespaces) - {namespace} && nsOrder == Remove(old(nsOrder), namespace)
      ensures order == Swept(old(order), namespace)
      ensures Within(entries, old(entries))
      ensures Onward(old(namespaces), spent, namespaces, spent)
    {
      Empty(namespace);
      NamesRemove(nsOrder, namespaces, spent, namespace);
      latest := Without(latest, namespace);
      nsOrder := Remove(nsOrder, namespace);
      namespaces := namespaces - {namespace};
    }
  }

  /** What was stored is read back until it expires, if nothing comes between. */
  method ReadsBack(cache: Adapter, namespace: Text, generation: Generation, key: Text, value: Text, ttlMs: int,
      now: int, later: int) returns (stored: SetOutcome, batch: Batch)
    requires cache.Valid()
    modifies cache
    ensures cache.Valid()
    ensures stored == Stored ==> batch == Results([if later < now + ttlMs then Some(value) else None])
  {
    stored := cache.Set(namespace, generation, key, value, ttlMs, now);
    batch := cache.GetMany(namespace, generation, [key], [later]);
  }

  lemma {:induction false} UnprefixedAppends(order: seq<Text>, id: Text, prefix: Text)
    ensures Unprefixed(order + [id], prefix) == Unprefixed(order, prefix) + if prefix <= id then [] else [id]
    decreases |order|
  {
    if order == [] {
      assert order + [id] == [id];
    } else {
      var longer, kept := order + [id], if prefix <= id then [] else [id];
      assert longer[0] == order[0] && longer[1..] == order[1..] + [id];
      UnprefixedAppends(order[1..], id, prefix);
      Associate(if prefix <= order[0] then [] else [order[0]], Unprefixed(order[1..], prefix), kept);
    }
  }

  lemma {:induction false} RemoveFromMiddle(a: seq<Text>, id: Text, b: seq<Text>)
    requires id !in a && id !in b
    ensures Remove(a + [id] + b, id) == a + b
    decreases |a|
  {
    if a == [] {
      assert a + [id] + b == [id] + b;
      AbsentRemove(b, id);
    } else {
      assert (a + [id] + b)[1..] == a[1..] + [id] + b;
      RemoveFromMiddle(a[1..], id, b);
      assert a + b == [a[0]] + (a[1..] + b);
    }
  }

  lemma {:induction false} AbsentRemove(order: seq<Text>, id: Text)
    requires id !in order
    ensures Remove(order, id) == order
    decreases |order|
  {
    if order != [] { AbsentRemove(order[1..], id); }
  }

  /** The order after the scan has looked at the first keys. */
  function Scanned(keys: seq<Text>, i: nat, prefix: Text): seq<Text>
    requires i <= |keys|
  {
    if i == 0 then keys
    else if prefix <= keys[i - 1] then Remove(Scanned(keys, i - 1, prefix), keys[i - 1])
    else Scanned(keys, i - 1, prefix)
  }

  lemma {:induction false} ScannedIs(keys: seq<Text>, i: nat, prefix: Text)
    requires Distinct(keys) && i <= |keys|
    ensures Scanned(keys, i, prefix) == Unprefixed(keys[..i], prefix) + keys[i..]
    decreases i
  {
    if i > 0 {
      ScannedIs(keys, i - 1, prefix);
      ScanStep(keys, i - 1, prefix);
    }
  }

  lemma {:induction false} ScanEnds(keys: seq<Text>, prefix: Text)
    requires Distinct(keys)
    ensures Scanned(keys, |keys|, prefix) == Unprefixed(keys, prefix)
    ensures |Unprefixed(keys, prefix)| <= |keys|
  {
    ScannedIs(keys, |keys|, prefix);
    assert keys[..|keys|] == keys;
    UnprefixedElements(keys, prefix);
  }

  lemma {:induction false} ScanStep(keys: seq<Text>, i: nat, prefix: Text)
    requires i < |keys| && Distinct(keys)
    ensures keys[..i + 1] == keys[..i] + [keys[i]]
    ensures var list := Unprefixed(keys[..i], prefix) + keys[i..];
            Unprefixed(keys[..i + 1], prefix) + keys[i + 1..] == if prefix <= keys[i] then Remove(list, keys[i])
                else list
  {
    assert keys[..i + 1] == keys[..i] + [keys[i]];
    UnprefixedAppends(keys[..i], keys[i], prefix);
    var done := Unprefixed(keys[..i], prefix);
    assert keys[i..] == [keys[i]] + keys[i + 1..];
    assert done + keys[i..] == done + [keys[i]] + keys[i + 1..];
    DistinctAt(keys, i);
    UnprefixedElements(keys[..i], prefix);
    RemoveFromMiddle(done, keys[i], keys[i + 1..]);
  }
}
