/** How a batch of lookups moves the recency order that eviction follows: keys it finds become the most recent ones,
    and all others keep their places. */
module CacheRecency {
  import opened JsonText
  import opened MemoryCache

  /** The first stands somewhere before the second. */
  ghost predicate Precedes(order: seq<Text>, a: Text, b: Text) {
    exists i, j :: 0 <= i < j < |order| && order[i] == a && order[j] == b
  }

  lemma PrecedesFromHead(order: seq<Text>, a: Text, b: Text)
    requires order != []
    ensures Precedes(order, a, b) <==> (order[0] == a && b in order[1..]) || Precedes(order[1..], a, b)
  {
    var tail := order[1..];
    if i, j :| 0 <= i < j < |order| && order[i] == a && order[j] == b {
      assert tail[j - 1] == b;
      if i > 0 { assert tail[i - 1] == a; }
    }
    if order[0] == a && b in tail {
      var j :| 0 <= j < |tail| && tail[j] == b;
      assert order[j + 1] == b;
    }
    if i, j :| 0 <= i < j < |tail| && tail[i] == a && tail[j] == b {
      assert order[i + 1] == a && order[j + 1] == b;
    }
  }

  lemma {:induction false} RemoveKeepsPlaces(order: seq<Text>, id: Text, a: Text, b: Text)
    requires a != id && b != id
    ensures Precedes(Remove(order, id), a, b) <==> Precedes(order, a, b)
    decreases |order|
  {
    hide Precedes;
    if order == [] {
      assert Remove(order, id) == order;
    } else {
      var tail := order[1..];
      RemoveKeepsPlaces(tail, id, a, b);
      PrecedesFromHead(order, a, b);
      if order[0] == id {
        assert Remove(order, id) == Remove(tail, id);
      } else {
        assert Remove(order, id)[1..] == Remove(tail, id);
        PrecedesFromHead(Remove(order, id), a, b);
      }
    }
  }

  lemma AppendKeepsPlaces(order: seq<Text>, id: Text, a: Text, b: Text)
    requires b != id
    ensures Precedes(order + [id], a, b) <==> Precedes(order, a, b)
  {
    if i, j :| 0 <= i < j < |order| && order[i] == a && order[j] == b {
      assert (order + [id])[i] == a && (order + [id])[j] == b;
    }
  }

  /** One lookup leaves two other keys where they were. */
  lemma ReadKeepsPlaces(order: seq<Text>, entries: map<Text, Entry>, generation: Generation, id: Text, now: int,
      a: Text, b: Text)
    requires a != id && b != id
    ensures Precedes(AfterRead(order, entries, generation, id, now), a, b) <==> Precedes(order, a, b)
    ensures a in AfterRead(order, entries, generation, id, now) <==> a in order
  {
    hide Precedes;
    RemoveKeepsPlaces(order, id, a, b);
    AppendKeepsPlaces(Remove(order, id), id, a, b);
  }

  ghost predicate Asks(namespace: Text, keys: seq<Text>, id: Text) {
    exists i :: 0 <= i < |keys| && Composite(namespace, keys[i]) == id
  }

  lemma AsksLess(namespace: Text, keys: seq<Text>, id: Text)
    requires keys != []
    ensures var last := |keys| - 1;
            Asks(namespace, keys, id) <==> Asks(namespace, keys[..last], id) || Composite(namespace, keys[last]) == id
  {
    var last := |keys| - 1;
    if i :| 0 <= i < last && Composite(namespace, keys[..last][i]) == id { assert keys[i] == keys[..last][i]; }
    if i :| 0 <= i < |keys| && Composite(namespace, keys[i]) == id {
      if i < last { assert keys[..last][i] == keys[i]; }
    }
  }

  /** Keys that a batch does not ask for keep their places among themselves. */
  lemma {:induction false} OthersKeepTheirPlaces(order: seq<Text>, entries: map<Text, Entry>, namespace: Text,
      generation: Generation, keys: seq<Text>, clock: seq<int>, a: Text, b: Text)
    requires |clock| == |keys| && !Asks(namespace, keys, a) && !Asks(namespace, keys, b)
    ensures var after := OrderAfter(order, entries, namespace, generation, keys, clock);
            (Precedes(after, a, b) <==> Precedes(order, a, b)) && (a in after <==> a in order)
    decreases |keys|
  {
    hide Precedes, Asks, Composite, AfterRead, EntriesAfter;
    if keys != [] {
      var last := |keys| - 1;
      var before := EntriesAfter(entries, namespace, generation, keys[..last], clock[..last]);
      AsksLess(namespace, keys, a);
      AsksLess(namespace, keys, b);
      OthersKeepTheirPlaces(order, entries, namespace, generation, keys[..last], clock[..last], a, b);
      ReadKeepsPlaces(OrderAfter(order, entries, namespace, generation, keys[..last], clock[..last]), before,
          generation,
                      Composite(namespace, keys[last]), clock[last], a, b);
    }
  }

  lemma HitMovesLast(order: seq<Text>, entries: map<Text, Entry>, generation: Generation, id: Text, now: int, a: Text)
    requires a in order && a != id && id in entries && entries[id].generation == generation
    requires id in AfterLookup(entries, generation, id, now)
    ensures Precedes(AfterRead(order, entries, generation, id, now), a, id)
  {
    var rest := Remove(order, id);
    assert AfterRead(order, entries, generation, id, now) == rest + [id];
    var i :| 0 <= i < |rest| && rest[i] == a;
    assert (rest + [id])[i] == a && (rest + [id])[|rest|] == id;
  }

  /** A key that a batch asked for and left in place stands after every key it did not ask for. */
  lemma {:induction false} HitsComeLast(order: seq<Text>, entries: map<Text, Entry>, namespace: Text,
      generation: Generation, keys: seq<Text>, clock: seq<int>, a: Text, id: Text)
    requires |clock| == |keys| && a in order && !Asks(namespace, keys, a) && Asks(namespace, keys, id)
    requires id in entries && entries[id].generation == generation
    requires id in EntriesAfter(entries, namespace, generation, keys, clock)
    ensures Precedes(OrderAfter(order, entries, namespace, generation, keys, clock), a, id)
    decreases |keys|
  {
    hide Precedes, Composite, AfterRead;
    var last := |keys| - 1;
    var before := EntriesAfter(entries, namespace, generation, keys[..last], clock[..last]);
    var was := OrderAfter(order, entries, namespace, generation, keys[..last], clock[..last]);
    AsksLess(namespace, keys, a);
    AsksLess(namespace, keys, id);
    BatchDropsExpired(entries, namespace, generation, keys[..last], clock[..last], id);
    if Composite(namespace, keys[last]) == id {
      OthersKeepTheirPlaces(order, entries, namespace, generation, keys[..last], clock[..last], a, a);
      HitMovesLast(was, before, generation, id, clock[last], a);
    } else {
      HitsComeLast(order, entries, namespace, generation, keys[..last], clock[..last], a, id);
      ReadKeepsPlaces(was, before, generation, Composite(namespace, keys[last]), clock[last], a, id);
    }
  }
}
