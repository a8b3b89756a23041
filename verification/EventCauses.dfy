/** Which calls change a delivery, and how: told of one row in plain fields, and over whole runs of calls. */
module EventCauses {
  import opened Basics
  import opened JsonText
  import opened TextOrder
  import opened CanonicalJson
  import opened EventOutbox
  import opened EventHistory

  /** The row of `k` after a call: cancelled with its subscription if unsettled, claimed, settled or given back by the
      holder of its lease, and otherwise as it was. */
  ghost function NextRow(row: Row, k: Key, c: Call): Row {
    if c.Cancel? && c.id == k.subscription && row.status != Delivered && row.status != Cancelled
    then Row(Cancelled, row.attempts, row.availableAt, None, None)
    else if c.Claims? && c.key == k
    then Row(Processing, row.attempts + 1, row.availableAt, Some(c.leaseStart + c.leaseMs), Some(c.token))
    else if c.Acknowledge? && c.key == k && HasLease(row, c.token, c.now)
    then Row(Delivered, row.attempts, row.availableAt, None, None)
    else if c.Retry? && c.key == k && HasLease(row, c.token, c.now)
    then Row(Pending, row.attempts, c.now + c.delayMs, None, None)
    else row
  }

  /** The row is being worked on under this token, and its lease is not over. */
  predicate HasLease(row: Row, token: Token, now: int) {
    row.status == Processing && row.token == Some(token) && row.leaseUntil.Some? && now < row.leaseUntil.value
  }

  /** A call changes a row exactly so, and no other row. */
  lemma RowsChangeExactly(w: World, c: Call, k: Key)
    requires Inv(w) && Enabled(w, c) && k in w.db.rows
    ensures k in Step(w, c).db.rows && Step(w, c).db.rows[k] == NextRow(w.db.rows[k], k, c)
  {
    StepKeepsRows(w, c);
    if c.Publish? && PublishOutcome(w.db, c.event, c.topic, c.payload) == Created { PublishedRows(w, c); }
  }

  /** A claim takes a row of an active subscription the worker serves and nobody has locked, when it is due or its
      lease is over, and no such row comes before it. */
  lemma ClaimsAreDue(w: World, c: Call, other: Key)
    requires Enabled(w, c) && c.Claims?
    ensures c.key in w.db.rows && c.key.subscription in c.ids && c.key !in c.locked
    ensures c.key.subscription in w.db.subscriptions && w.db.subscriptions[c.key.subscription].active
    ensures var row := w.db.rows[c.key];
            || (row.status == Pending && row.availableAt <= c.now)
            || (row.status == Processing && row.leaseUntil.Some? && row.leaseUntil.value <= c.now)
    ensures other in w.db.rows && other.subscription in c.ids && other !in c.locked
            && other.subscription in w.db.subscriptions && w.db.subscriptions[other.subscription].active
            && ((w.db.rows[other].status == Pending && w.db.rows[other].availableAt <= c.now)
                || (w.db.rows[other].status == Processing && w.db.rows[other].leaseUntil.Some?
                    && w.db.rows[other].leaseUntil.value <= c.now)) ==>
              var mine, its := w.db.rows[c.key].availableAt, w.db.rows[other].availableAt;
              || mine < its
              || (mine == its && Less(c.key.event, other.event))
              || (mine == its && c.key.event == other.event
                  && (Less(c.key.subscription, other.subscription) || c.key == other))
  {
    assert Claimable(w.db, c.ids, c.locked, c.now, c.key);
    assert Claimable(w.db, c.ids, c.locked, c.now, other) && other != c.key ==> Before(w.db, c.key, other);
  }

  /** A row that a call adds is due at once, for a subscription active on the topic of the event it publishes. */
  lemma RowsAreAddedExactly(w: World, c: Call, k: Key)
    requires Inv(w) && Enabled(w, c) && k !in w.db.rows
    ensures k in Step(w, c).db.rows <==>
              && c.Publish? && k.event == c.event && c.event !in w.db.events
              && c.payload.Encoded? && Utf8Length(c.payload.text) <= 1_048_576
              && k.subscription in w.db.subscriptions
                    && w.db.subscriptions[k.subscription] == Subscription(c.topic, true)
    ensures k in Step(w, c).db.rows ==> Step(w, c).db.rows[k] == Row(Pending, 0, c.now, None, None)
  {
    if c.Publish? && PublishOutcome(w.db, c.event, c.topic, c.payload) == Created { PublishedRows(w, c); }
  }

  /** Subscriptions are added active and are cancelled by name; nothing else happens to them. */
  lemma SubscriptionsChangeExactly(w: World, c: Call, s: Text)
    requires Enabled(w, c)
    ensures var v := Step(w, c).db.subscriptions;
            if s in w.db.subscriptions
            then s in v && v[s] == if c == Cancel(s) then Subscription(w.db.subscriptions[s].topic, false)
                                   else w.db.subscriptions[s]
            else s in v <==> c.Register? && c.id == s
    ensures var v := Step(w, c).db.subscriptions;
            s in v && s !in w.db.subscriptions && c.Register? ==> v[s] == Subscription(c.topic, true)
  {
  }

  // ---- Over whole runs ----

  /** A delivery is only ever cancelled with its own subscription, and only ever delivered by its own
      acknowledgement. */
  lemma {:induction false} SettledForAReason(w: World, calls: seq<Call>, k: Key)
    requires Inv(w) && CanRun(w, calls) && k in Run(w, calls).db.rows
    requires k in w.db.rows ==> w.db.rows[k].status == Pending || w.db.rows[k].status == Processing
    ensures Run(w, calls).db.rows[k].status == Cancelled ==> Cancel(k.subscription) in calls
    ensures Run(w, calls).db.rows[k].status == Delivered ==> exists c :: c in calls && c.Acknowledge? && c.key == k
    decreases |calls|
  {
    hide Inv, Step, Enabled;
    if calls != [] {
      var v := Step(w, calls[0]);
      StepKeeps(w, calls[0]);
      if k in w.db.rows { RowsChangeExactly(w, calls[0], k); } else { RowsAreAddedExactly(w, calls[0], k); }
      if k in v.db.rows && Terminal(v.db.rows[k]) {
        NeverUndone(v, calls[1..]);
      } else {
        SettledForAReason(v, calls[1..], k);
      }
    }
  }

  /** Unclaimed, a pending row keeps its due time until it is cancelled. */
  lemma {:induction false} UnclaimedKeepsDue(w: World, calls: seq<Call>, k: Key)
    requires Inv(w) && CanRun(w, calls) && k in w.db.rows
    requires w.db.rows[k].status == Pending || w.db.rows[k].status == Cancelled
    requires forall b | b in calls :: !(b.Claims? && b.key == k)
    ensures k in Run(w, calls).db.rows && Run(w, calls).db.rows[k].availableAt == w.db.rows[k].availableAt
    ensures Run(w, calls).db.rows[k].status == Pending || Run(w, calls).db.rows[k].status == Cancelled
    decreases |calls|
  {
    hide Inv, Step, Enabled;
    if calls != [] {
      StepKeeps(w, calls[0]);
      RowsChangeExactly(w, calls[0], k);
      UnclaimedKeepsDue(Step(w, calls[0]), calls[1..], k);
    }
  }

  /** A delivery given back with a delay is not claimed again before the delay is over, whatever others do. */
  lemma {:induction false} GivenBackIsDueLater(w: World, k: Key, token: Token, delayMs: int, now: int, calls: seq<Call>,
      c: Call)
    requires Inv(w) && Enabled(w, Retry(k, token, delayMs, now)) && k in w.db.rows
    requires HasLease(w.db.rows[k], token, now)
    requires CanRun(Step(w, Retry(k, token, delayMs, now)), calls)
    requires forall b | b in calls :: !(b.Claims? && b.key == k)
    requires Enabled(Run(Step(w, Retry(k, token, delayMs, now)), calls), c) && c.Claims? && c.key == k
    ensures now + delayMs <= c.now
  {
    var v := Step(w, Retry(k, token, delayMs, now));
    RowsChangeExactly(w, Retry(k, token, delayMs, now), k);
    StepKeeps(w, Retry(k, token, delayMs, now));
    UnclaimedKeepsDue(v, calls, k);
    ClaimsAreDue(Run(v, calls), c, k);
  }
}
