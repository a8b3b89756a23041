/** What holds of the outbox over every run of store calls by any number of workers. A worker samples the clock while
    it holds its row, so times go forward row by row; across rows, and before a row is held, samples may be out of
    order. */
module EventHistory {
  import opened Basics
  import opened JsonText
  import opened CanonicalJson
  import opened EventOutbox

  /** One successful claim: the lease it was given and, if its holder gave it back early, when. */
  datatype Claim = Claim(key: Key, token: Token, from: int, until: int, released: Option<int>)

  /** The tables, the last time sampled for each row, and a record of what the calls so far returned. */
  datatype World = World(
    db: Db,
    clocks: map<Key, int>,
    claims: seq<Claim>,
    acknowledged: seq<Key>,
    audience: map<Text, set<Text>>
  )

  datatype Call =
    | Register(id: Text, topic: Text)
    | Cancel(id: Text)
    | Publish(event: Text, topic: Text, payload: Encoded, now: int)
    | Claims(ids: set<Text>, locked: set<Key>, leaseMs: int, now: int, leaseStart: int, token: Token, key: Key)
    | Acknowledge(key: Key, token: Token, now: int)
    | Retry(key: Key, token: Token, delayMs: int, now: int)

  const START := World(Db(map[], map[], map[]), map[], [], [], map[])

  /** The time is not before the last one sampled for the row. */
  predicate Onward(w: World, k: Key, time: int) {
    k in w.clocks ==> w.clocks[k] <= time
  }

  /** Clocks do not go back on a row, claim tokens are fresh, and `key` is the row the claim selects. A claim samples
      `now` before it holds a row and `leaseStart` after, so any row may have been written in between. */
  ghost predicate Enabled(w: World, c: Call) {
    match c
    case Register(_, _) => true
    case Cancel(_) => true
    case Publish(_, _, _, _) => true
    case Claims(ids, locked, leaseMs, now, leaseStart, token, key) =>
      && now <= leaseStart && Onward(w, key, leaseStart) && DurationValid(leaseMs)
      && Selected(w.db, ids, locked, now, key)
      && forall i :: 0 <= i < |w.claims| ==> w.claims[i].token != token
    case Acknowledge(key, _, now) => Onward(w, key, now)
    case Retry(key, _, delayMs, now) => Onward(w, key, now) && DurationValid(delayMs)
  }

  /** Marks the one claim of this token as given back. */
  ghost function Released(claims: seq<Claim>, token: Token, now: int): (r: seq<Claim>)
    ensures |r| == |claims|
    ensures forall i :: 0 <= i < |r| ==>
              r[i] == if claims[i].token == token then claims[i].(released := Some(now)) else claims[i]
  {
    seq(|claims|, i requires 0 <= i < |claims| =>
      if claims[i].token == token then claims[i].(released := Some(now)) else claims[i])
  }

  ghost function Step(w: World, c: Call): World
    requires Enabled(w, c)
  {
    match c
    case Register(id, topic) => w.(db := Registered(w.db, id, topic))
    case Cancel(id) => w.(db := CancelledDb(w.db, id))
    case Publish(event, topic, payload, now) =>
      w.(db := PublishedDb(w.db, event, topic, payload, now),
         audience := if PublishOutcome(w.db, event, topic, payload) == Created
                     then w.audience[event := Audience(w.db, topic)] else w.audience)
    case Claims(_, _, leaseMs, _, leaseStart, token, key) =>
      w.(db := ClaimedDb(w.db, key, token, leaseStart + leaseMs),
         clocks := w.clocks[key := leaseStart],
         claims := w.claims + [Claim(key, token, leaseStart, leaseStart + leaseMs, None)])
    case Acknowledge(key, token, now) =>
      w.(db := AcknowledgedDb(w.db, key, token, now),
         clocks := if HoldsLease(w.db, key, token, now) then w.clocks[key := now] else w.clocks,
         acknowledged := if HoldsLease(w.db, key, token, now) then w.acknowledged + [key] else w.acknowledged)
    case Retry(key, token, delayMs, now) =>
      w.(db := RetriedDb(w.db, key, token, delayMs, now),
         clocks := if HoldsLease(w.db, key, token, now) then w.clocks[key := now] else w.clocks,
         claims := if HoldsLease(w.db, key, token, now) then Released(w.claims, token, now) else w.claims)
  }

  ghost predicate CanRun(w: World, calls: seq<Call>)
    decreases |calls|
  {
    calls != [] ==> Enabled(w, calls[0]) && CanRun(Step(w, calls[0]), calls[1..])
  }

  ghost function Run(w: World, calls: seq<Call>): World
    requires CanRun(w, calls)
    decreases |calls|
  {
    if calls == [] then w else Run(Step(w, calls[0]), calls[1..])
  }

  // ---- Invariants ----

  ghost predicate RowShape(row: Row) {
    && (row.status == Processing <==> row.token.Some?)
    && (row.status == Processing <==> row.leaseUntil.Some?)
  }

  /** Exactly the rows fixed at the first publish of each event, for subscriptions of its topic. */
  ghost predicate RowsFixed(w: World) {
    && w.audience.Keys == w.db.events.Keys
    && (forall k :: k in w.db.rows <==> k.event in w.audience && k.subscription in w.audience[k.event])
    && (forall k | k in w.db.rows :: k.subscription in w.db.subscriptions
          && w.db.subscriptions[k.subscription].topic == w.db.events[k.event].topic)
  }

  /** One row's shape; a processing row is held by the last claim made of it. */
  ghost predicate RowOk(w: World, k: Key) {
    && k in w.db.rows && k.subscription in w.db.subscriptions && RowShape(w.db.rows[k])
    && (!w.db.subscriptions[k.subscription].active ==> Terminal(w.db.rows[k]))
    && w.db.rows[k].attempts == ClaimCount(w.claims, k)
    && (w.db.rows[k].status == Processing ==> Held(w, k))
  }

  ghost predicate RowsShaped(w: World) {
    forall k {:trigger RowOk(w, k)} | k in w.db.rows :: RowOk(w, k)
  }

  ghost function ClaimCount(claims: seq<Claim>, k: Key): nat {
    if claims == [] then 0
    else ClaimCount(claims[..|claims| - 1], k) + if claims[|claims| - 1].key == k then 1 else 0
  }

  /** When the claimant's hold ended or will end by itself. */
  ghost function End(c: Claim): int {
    if c.released.Some? then c.released.value else c.until
  }

  /** No later claim of the same row. */
  ghost predicate LastClaim(claims: seq<Claim>, i: int)
    requires 0 <= i < |claims|
  {
    forall j :: i < j < |claims| ==> claims[j].key != claims[i].key
  }

  ghost predicate TokensDiffer(claims: seq<Claim>) {
    forall i, j :: 0 <= i < j < |claims| ==> claims[i].token != claims[j].token
  }

  /** A claim began and ended no later than its row was last heard of, and is over when the row is pending. */
  ghost predicate ClaimOk(w: World, c: Claim) {
    && c.key in w.db.rows && c.key in w.clocks && c.from <= w.clocks[c.key] && c.from <= End(c)
    && (c.released.Some? ==> c.released.value <= w.clocks[c.key])
    && (w.db.rows[c.key].status == Pending ==> End(c) <= w.clocks[c.key])
  }

  ghost predicate ClaimsRecorded(w: World) {
    && TokensDiffer(w.claims)
    && forall i {:trigger ClaimOk(w, w.claims[i])} | 0 <= i < |w.claims| :: ClaimOk(w, w.claims[i])
  }

  /** The token on a row is that of its last claim, still unreleased and with the row's lease. */
  ghost predicate Current(w: World, k: Key, i: int) {
    && k in w.db.rows && 0 <= i < |w.claims| && w.claims[i].key == k && LastClaim(w.claims, i)
    && w.claims[i].released == None
    && w.db.rows[k].token == Some(w.claims[i].token) && w.db.rows[k].leaseUntil == Some(w.claims[i].until)
  }

  ghost predicate Held(w: World, k: Key) {
    exists i :: Current(w, k, i)
  }

  ghost predicate LeasesDisjoint(claims: seq<Claim>) {
    forall i, j :: 0 <= i < j < |claims| && claims[i].key == claims[j].key ==> End(claims[i]) <= claims[j].from
  }

  ghost predicate Acknowledgements(w: World) {
    && (forall i :: 0 <= i < |w.acknowledged| ==>
          w.acknowledged[i] in w.db.rows && w.db.rows[w.acknowledged[i]].status == Delivered)
    && (forall i, j :: 0 <= i < j < |w.acknowledged| ==> w.acknowledged[i] != w.acknowledged[j])
  }

  ghost predicate Inv(w: World) {
    && RowsFixed(w) && RowsShaped(w) && ClaimsRecorded(w) && LeasesDisjoint(w.claims)
    && Acknowledgements(w)
  }

  lemma StartInv()
    ensures Inv(START)
  {
  }

  // ---- Each call keeps the invariants ----

  /** A row that a call leaves alone, with the claims as they are. */
  lemma RowStays(w: World, v: World, k: Key)
    requires RowOk(w, k) && k in v.db.rows && v.db.rows[k] == w.db.rows[k] && v.claims == w.claims
    requires k.subscription in v.db.subscriptions
             && v.db.subscriptions[k.subscription] == w.db.subscriptions[k.subscription]
    ensures RowOk(v, k)
  {
    if w.db.rows[k].status == Processing {
      var i :| Current(w, k, i);
      assert Current(v, k, i);
    }
  }

  lemma RegisterKeeps(w: World, c: Call)
    requires Inv(w) && Enabled(w, c) && c.Register?
    ensures Inv(Step(w, c))
  {
    var v := Step(w, c);
    forall k | k in v.db.rows ensures RowOk(v, k) {
      assert RowOk(w, k);
      RowStays(w, v, k);
    }
    forall i | 0 <= i < |v.claims| ensures ClaimOk(v, v.claims[i]) { assert ClaimOk(w, w.claims[i]); }
  }

  lemma CancelKeeps(w: World, c: Call)
    requires Inv(w) && Enabled(w, c) && c.Cancel?
    ensures Inv(Step(w, c))
  {
    var v := Step(w, c);
    forall k | k in v.db.rows ensures RowOk(v, k) {
      assert RowOk(w, k);
      if k.subscription != c.id { RowStays(w, v, k); }
    }
    forall i | 0 <= i < |v.claims| ensures ClaimOk(v, v.claims[i]) { assert ClaimOk(w, w.claims[i]); }
  }

  /** A first publish adds fresh pending rows and touches no other. */
  lemma PublishedRows(w: World, c: Call)
    requires RowsFixed(w) && Enabled(w, c) && c.Publish? && PublishOutcome(w.db, c.event, c.topic, c.payload) == Created
    ensures var v := Step(w, c);
            && (forall k | k in w.db.rows :: k in v.db.rows && v.db.rows[k] == w.db.rows[k] && k.event != c.event)
            && (forall k | k in v.db.rows && k !in w.db.rows :: v.db.rows[k] == Row(Pending, 0, c.now, None, None))
            && (forall k :: k in v.db.rows && k !in w.db.rows
                  <==> k.event == c.event && k.subscription in Audience(w.db, c.topic))
  {
    assert forall k | k in w.db.rows :: k.event in w.db.events;
    var f := FannedOut(w.db, c.event, c.topic, c.now);
    forall k ensures k in f <==> k.event == c.event && k.subscription in Audience(w.db, c.topic) {
      if k.event == c.event && k.subscription in Audience(w.db, c.topic) {
        assert k == Key(c.event, k.subscription);
      }
    }
  }

  lemma CreatedKeeps(w: World, c: Call)
    requires Inv(w) && Enabled(w, c) && c.Publish? && PublishOutcome(w.db, c.event, c.topic, c.payload) == Created
    ensures RowsShaped(Step(w, c)) && ClaimsRecorded(Step(w, c))
  {
    var v := Step(w, c);
    PublishedRows(w, c);
    forall i | 0 <= i < |v.claims| ensures ClaimOk(v, v.claims[i]) { assert ClaimOk(w, w.claims[i]); }
    forall k | k in v.db.rows ensures RowOk(v, k) {
      if k in w.db.rows {
        assert RowOk(w, k);
        RowStays(w, v, k);
      } else {
        forall i | 0 <= i < |w.claims| ensures w.claims[i].key != k { assert ClaimOk(w, w.claims[i]); }
        NeverClaimed(w.claims, k);
      }
    }
  }

  lemma CreatedKeepsAudience(w: World, c: Call)
    requires Inv(w) && Enabled(w, c) && c.Publish? && PublishOutcome(w.db, c.event, c.topic, c.payload) == Created
    ensures RowsFixed(Step(w, c)) && Acknowledgements(Step(w, c))
  {
    PublishedRows(w, c);
  }

  lemma PublishKeeps(w: World, c: Call)
    requires Inv(w) && Enabled(w, c) && c.Publish?
    ensures Inv(Step(w, c))
  {
    if PublishOutcome(w.db, c.event, c.topic, c.payload) == Created {
      CreatedKeeps(w, c);
      CreatedKeepsAudience(w, c);
    } else {
      assert Step(w, c) == w;
    }
  }

  lemma {:induction false} NeverClaimed(claims: seq<Claim>, k: Key)
    requires forall i :: 0 <= i < |claims| ==> claims[i].key != k
    ensures ClaimCount(claims, k) == 0
    decreases |claims|
  {
    if claims != [] { NeverClaimed(claims[..|claims| - 1], k); }
  }

  lemma {:induction false} CountAppends(claims: seq<Claim>, c: Claim, k: Key)
    ensures ClaimCount(claims + [c], k) == ClaimCount(claims, k) + if c.key == k then 1 else 0
  {
    assert (claims + [c])[..|claims|] == claims;
  }

  lemma {:induction false} ReleaseKeepsCount(claims: seq<Claim>, token: Token, now: int, k: Key)
    ensures ClaimCount(Released(claims, token, now), k) == ClaimCount(claims, k)
    decreases |claims|
  {
    if claims != [] {
      var n := |claims| - 1;
      ReleaseKeepsCount(claims[..n], token, now, k);
      assert Released(claims, token, now)[..n] == Released(claims[..n], token, now);
    }
  }

  lemma AcknowledgeKeeps(w: World, c: Call)
    requires Inv(w) && Enabled(w, c) && c.Acknowledge?
    ensures Inv(Step(w, c))
  {
    var v := Step(w, c);
    if HoldsLease(w.db, c.key, c.token, c.now) {
      forall k | k in v.db.rows ensures RowOk(v, k) {
        assert RowOk(w, k);
        if k != c.key { RowStays(w, v, k); }
      }
      forall i | 0 <= i < |v.claims| ensures ClaimOk(v, v.claims[i]) { assert ClaimOk(w, w.claims[i]); }
    } else {
      assert v == w;
    }
  }

  /** Everything ever claimed on the row is over when the new lease starts. */
  lemma ClaimableIsOver(w: World, c: Call, i: int)
    requires Inv(w) && Enabled(w, c) && c.Claims? && 0 <= i < |w.claims| && w.claims[i].key == c.key
    ensures End(w.claims[i]) <= c.leaseStart
  {
    assert ClaimOk(w, w.claims[i]) && RowOk(w, c.key);
    if w.db.rows[c.key].status == Processing {
      var j :| Current(w, c.key, j);
      assert ClaimOk(w, w.claims[j]);
      if i < j { assert End(w.claims[i]) <= w.claims[j].from <= End(w.claims[j]); }
    }
  }

  lemma ClaimKeepsRows(w: World, c: Call)
    requires Inv(w) && Enabled(w, c) && c.Claims?
    ensures RowsShaped(Step(w, c))
  {
    var v := Step(w, c);
    var n := |w.claims|;
    forall k | k in v.db.rows ensures RowOk(v, k) {
      assert RowOk(w, k);
      CountAppends(w.claims, v.claims[n], k);
      if k == c.key {
        assert Current(v, k, n);
      } else if w.db.rows[k].status == Processing {
        var i :| Current(w, k, i);
        assert Current(v, k, i);
      }
    }
  }

  lemma ClaimKeepsLeases(w: World, c: Call)
    requires Inv(w) && Enabled(w, c) && c.Claims?
    ensures ClaimsRecorded(Step(w, c)) && LeasesDisjoint(Step(w, c).claims)
  {
    var v := Step(w, c);
    var n := |w.claims|;
    forall i | 0 <= i < n && w.claims[i].key == c.key ensures End(v.claims[i]) <= v.claims[n].from {
      ClaimableIsOver(w, c, i);
    }
    forall i | 0 <= i < |v.claims| ensures ClaimOk(v, v.claims[i]) {
      if i < n { assert ClaimOk(w, w.claims[i]); }
    }
  }

  lemma ClaimKeeps(w: World, c: Call)
    requires Inv(w) && Enabled(w, c) && c.Claims?
    ensures Inv(Step(w, c))
  {
    ClaimKeepsRows(w, c);
    ClaimKeepsLeases(w, c);
  }

  /** The claim a retry gives back: the row's last, made with this token. */
  lemma RetriedClaim(w: World, c: Call) returns (held: int)
    requires Inv(w) && Enabled(w, c) && c.Retry? && HoldsLease(w.db, c.key, c.token, c.now)
    ensures Current(w, c.key, held) && w.claims[held].token == c.token
            && w.claims[held].from <= c.now < w.claims[held].until
    ensures forall i :: 0 <= i < |w.claims| && i != held ==> Step(w, c).claims[i] == w.claims[i]
  {
    assert RowOk(w, c.key);
    held :| Current(w, c.key, held);
    assert ClaimOk(w, w.claims[held]);
  }

  lemma RetryKeepsRows(w: World, c: Call)
    requires Inv(w) && Enabled(w, c) && c.Retry? && HoldsLease(w.db, c.key, c.token, c.now)
    ensures RowsShaped(Step(w, c))
  {
    var v := Step(w, c);
    var held := RetriedClaim(w, c);
    forall k | k in v.db.rows ensures RowOk(v, k) {
      assert RowOk(w, k);
      ReleaseKeepsCount(w.claims, c.token, c.now, k);
      if k != c.key && w.db.rows[k].status == Processing {
        var i :| Current(w, k, i);
        assert Current(v, k, i);
      }
    }
  }

  lemma RetryKeepsLeases(w: World, c: Call)
    requires Inv(w) && Enabled(w, c) && c.Retry? && HoldsLease(w.db, c.key, c.token, c.now)
    ensures ClaimsRecorded(Step(w, c)) && LeasesDisjoint(Step(w, c).claims)
  {
    var v := Step(w, c);
    var held := RetriedClaim(w, c);
    forall i | 0 <= i < |v.claims| ensures ClaimOk(v, v.claims[i]) {
      assert ClaimOk(w, w.claims[i]);
      if v.claims[i].key == c.key && i < held { assert End(w.claims[i]) <= w.claims[held].from; }
    }
  }

  lemma RetryKeeps(w: World, c: Call)
    requires Inv(w) && Enabled(w, c) && c.Retry?
    ensures Inv(Step(w, c))
  {
    if HoldsLease(w.db, c.key, c.token, c.now) {
      RetryKeepsRows(w, c);
      RetryKeepsLeases(w, c);
    } else {
      assert Step(w, c) == w;
    }
  }

  lemma StepKeeps(w: World, c: Call)
    requires Inv(w) && Enabled(w, c)
    ensures Inv(Step(w, c))
  {
    match c
    case Register(_, _) => RegisterKeeps(w, c);
    case Cancel(_) => CancelKeeps(w, c);
    case Publish(_, _, _, _) => PublishKeeps(w, c);
    case Claims(_, _, _, _, _, _, _) => ClaimKeeps(w, c);
    case Acknowledge(_, _, _) => AcknowledgeKeeps(w, c);
    case Retry(_, _, _, _) => RetryKeeps(w, c);
  }

  lemma {:induction false} RunKeeps(w: World, calls: seq<Call>)
    requires Inv(w) && CanRun(w, calls)
    ensures Inv(Run(w, calls))
    decreases |calls|
  {
    if calls != [] {
      StepKeeps(w, calls[0]);
      RunKeeps(Step(w, calls[0]), calls[1..]);
    }
  }

  // ---- What this means for workers and publishers ----

  ghost predicate Reachable(w: World) {
    exists calls: seq<Call> :: CanRun(START, calls) && Run(START, calls) == w
  }

  lemma ReachableInv(w: World)
    requires Reachable(w)
    ensures Inv(w)
  {
    var calls: seq<Call> :| CanRun(START, calls) && Run(START, calls) == w;
    StartInv();
    RunKeeps(START, calls);
  }

  /** Of all claims ever made of one delivery, at most one is unexpired and not given back at any time from its
      start. */
  lemma OneLiveLease(w: World, i: int, j: int, time: int)
    requires Reachable(w)
    requires 0 <= i < |w.claims| && 0 <= j < |w.claims| && w.claims[i].key == w.claims[j].key
    requires w.claims[i].from <= time < End(w.claims[i]) && w.claims[j].from <= time < End(w.claims[j])
    ensures i == j
  {
    ReachableInv(w);
  }

  /** Only the holder of the delivery's last claim, within its lease, can settle it; any superseded token is refused. */
  lemma OnlyLastClaimSettles(w: World, k: Key, token: Token, now: int)
    requires Reachable(w) && Onward(w, k, now) && HoldsLease(w.db, k, token, now)
    ensures exists i :: 0 <= i < |w.claims| && w.claims[i].key == k && w.claims[i].token == token
                        && LastClaim(w.claims, i) && w.claims[i].released == None
                        && w.claims[i].from <= now < w.claims[i].until
  {
    ReachableInv(w);
    assert RowOk(w, k);
    var i :| Current(w, k, i);
    assert ClaimOk(w, w.claims[i]) && w.claims[i].token == token;
  }

  /** A delivery is acknowledged at most once, and is delivered ever after. */
  lemma AcknowledgedOnce(w: World, i: int, j: int)
    requires Reachable(w) && 0 <= i < |w.acknowledged| && 0 <= j < |w.acknowledged|
    ensures w.acknowledged[i] == w.acknowledged[j] ==> i == j
    ensures w.acknowledged[i] in w.db.rows && w.db.rows[w.acknowledged[i]].status == Delivered
  {
    ReachableInv(w);
  }

  /** What no call ever undoes: settled rows, cancelled subscriptions, published events and their audience. */
  ghost predicate Keeps(w: World, v: World) {
    KeepsRows(w.db, v.db) && KeepsSubscriptions(w.db, v.db) && KeepsEvents(w, v)
  }

  ghost predicate KeepsRows(a: Db, b: Db) {
    forall k | k in a.rows ::
      k in b.rows && b.rows[k].attempts >= a.rows[k].attempts && (Terminal(a.rows[k]) ==> b.rows[k] == a.rows[k])
  }

  ghost predicate KeepsSubscriptions(a: Db, b: Db) {
    forall s | s in a.subscriptions ::
      s in b.subscriptions && b.subscriptions[s].topic == a.subscriptions[s].topic
      && (!a.subscriptions[s].active ==> !b.subscriptions[s].active)
  }

  ghost predicate KeepsEvents(w: World, v: World) {
    && (forall e | e in w.db.events :: e in v.db.events && v.db.events[e] == w.db.events[e])
    && (forall e | e in w.audience :: e in v.audience && v.audience[e] == w.audience[e])
  }

  lemma StepNeverUndoes(w: World, c: Call)
    requires Inv(w) && Enabled(w, c)
    ensures Keeps(w, Step(w, c))
  {
    StepKeepsRows(w, c);
    assert KeepsSubscriptions(w.db, Step(w, c).db);
    assert KeepsEvents(w, Step(w, c));
  }

  lemma StepKeepsRows(w: World, c: Call)
    requires Inv(w) && Enabled(w, c)
    ensures KeepsRows(w.db, Step(w, c).db)
  {
    if c.Publish? && PublishOutcome(w.db, c.event, c.topic, c.payload) == Created { PublishedRows(w, c); }
  }

  lemma {:induction false} NeverUndone(w: World, calls: seq<Call>)
    requires Inv(w) && CanRun(w, calls)
    ensures Keeps(w, Run(w, calls))
    decreases |calls|
  {
    if calls != [] {
      var v := Step(w, calls[0]);
      StepKeeps(w, calls[0]);
      StepNeverUndoes(w, calls[0]);
      NeverUndone(v, calls[1..]);
    }
  }

  /** An event's delivery rows are, for ever, one for each subscription active on its topic when it was first
      published. */
  lemma {:induction false} AudienceFixedAtPublish(w: World, event: Text, topic: Text, payload: Encoded, now: int,
      calls: seq<Call>, s: Text)
    requires Reachable(w) && Enabled(w, Publish(event, topic, payload, now))
    requires PublishOutcome(w.db, event, topic, payload) == Created
    requires CanRun(Step(w, Publish(event, topic, payload, now)), calls)
    ensures Key(event, s) in Run(Step(w, Publish(event, topic, payload, now)), calls).db.rows
            <==> s in w.db.subscriptions && w.db.subscriptions[s] == Subscription(topic, true)
  {
    var c := Publish(event, topic, payload, now);
    ReachableInv(w);
    StepKeeps(w, c);
    NeverUndone(Step(w, c), calls);
    RunKeeps(Step(w, c), calls);
  }

  /** Publishing an id again, after any run, is accepted as a replay exactly when topic and payload are the same. */
  lemma {:induction false} ReplayDetectsConflicts(w: World, id: Text, topic: Text, first: Json, now: int,
      calls: seq<Call>, topic2: Text, second: Json, show: Printer)
    requires Reachable(w) && Faithful(show) && WellFormed(first) && WellFormed(second)
    requires Enabled(w, Publish(id, topic, EncodePayload(first, show), now))
    requires PublishOutcome(w.db, id, topic, EncodePayload(first, show)) == Created
    requires CanRun(Step(w, Publish(id, topic, EncodePayload(first, show), now)), calls)
    requires Encodable(second) && Utf8Length(Encode(second, show)) <= MAX_PAYLOAD_BYTES
    ensures var v := Run(Step(w, Publish(id, topic, EncodePayload(first, show), now)), calls);
            PublishOutcome(v.db, id, topic2, EncodePayload(second, show))
              == if topic == topic2 && Same(first, second) then Replayed else Conflicting
  {
    var c := Publish(id, topic, EncodePayload(first, show), now);
    ReachableInv(w);
    StepKeeps(w, c);
    NeverUndone(Step(w, c), calls);
    EncodeIsIdentity(first, second, show);
  }

  /** Every delivery of an active subscription that is pending or whose lease ran out can be claimed when due. */
  lemma NothingIsLost(w: World, k: Key, now: int)
    requires Reachable(w) && k in w.db.rows
    requires (w.db.rows[k].status == Pending && w.db.rows[k].availableAt <= now)
             || (w.db.rows[k].status == Processing && forall i | Current(w, k, i) :: w.claims[i].until <= now)
    ensures Claimable(w.db, {k.subscription}, {}, now, k)
  {
    ReachableInv(w);
    assert RowOk(w, k);
    if w.db.rows[k].status == Processing {
      var i :| Current(w, k, i);
    }
  }

  /** The shape of every row in every reachable state. */
  lemma {:induction false} RowsAlwaysShaped(w: World, k: Key)
    requires Reachable(w) && k in w.db.rows
    ensures RowShape(w.db.rows[k]) && w.db.rows[k].attempts == ClaimCount(w.claims, k)
    ensures k.subscription in w.db.subscriptions
            && (!w.db.subscriptions[k.subscription].active ==> Terminal(w.db.rows[k]))
    ensures k.event in w.db.events && w.db.subscriptions[k.subscription].topic == w.db.events[k.event].topic
  {
    ReachableInv(w);
    assert RowOk(w, k);
  }
}
