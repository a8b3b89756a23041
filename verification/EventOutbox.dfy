/** The durable event outbox: subscriptions, events and one delivery row per event and subscription.
    Each store call is one atomic statement, batch or row-locked transaction. */
module EventOutbox {
  import opened Basics
  import opened JsonText
  import opened TextOrder
  import opened CanonicalJson

  type Token = nat

  datatype Status = Pending | Processing | Delivered | Cancelled
  datatype Row = Row(status: Status, attempts: nat, availableAt: int, leaseUntil: Option<int>, token: Option<Token>)
  datatype Subscription = Subscription(topic: Text, active: bool)
  datatype Event = Event(topic: Text, payload: Text)
  datatype Key = Key(event: Text, subscription: Text)

  datatype Db = Db(subscriptions: map<Text, Subscription>, events: map<Text, Event>, rows: map<Key, Row>)

  const MAX_PAYLOAD_BYTES := 1_048_576
  const MAX_DURATION := 86_400_000

  predicate Whitespace(u: Unit) {
    9 <= u <= 13 || u == 32 || u == 0xA0 || u == 0x1680 || 0x2000 <= u <= 0x200A
    || u == 0x2028 || u == 0x2029 || u == 0x202F || u == 0x205F || u == 0x3000 || u == 0xFEFF
  }

  predicate NameValid(name: Text) {
    |name| <= 256 && exists i :: 0 <= i < |name| && !Whitespace(name[i])
  }

  /** A name has at most 256 units, not all of them blank. */
  lemma NamesMean(name: Text)
    ensures NameValid(name) <==> |name| < 257 && exists i :: 0 <= i < |name| && name[i] !in BLANKS
  {
    assert forall u: Unit :: u in BLANKS <==> Whitespace(u);
  }

  /** What `trim` removes: the white space and line terminators of ECMAScript, code by code. */
  const BLANKS: set<Unit> := {
    9, 10, 11, 12, 13, 32, 160, 5760, 8192, 8193, 8194, 8195, 8196, 8197, 8198, 8199, 8200, 8201, 8202,
    8232, 8233, 8239, 8287, 12288, 65279
  }

  predicate DurationValid(ms: int) {
    1 <= ms <= MAX_DURATION
  }

  // ---- The transitions, as functions of the tables ----

  predicate Terminal(row: Row) {
    row.status == Delivered || row.status == Cancelled
  }

  function Registered(db: Db, id: Text, topic: Text): Db {
    if id in db.subscriptions then db else db.(subscriptions := db.subscriptions[id := Subscription(topic, true)])
  }

  /** Whether `register` returns normally: the id is this topic's and still active. */
  predicate RegisterAccepted(db: Db, id: Text, topic: Text) {
    id in db.subscriptions ==> db.subscriptions[id] == Subscription(topic, true)
  }

  function CancelledRow(row: Row): Row {
    if Terminal(row) then row else row.(status := Cancelled, token := None, leaseUntil := None)
  }

  function CancelledDb(db: Db, id: Text): Db {
    db.(
      subscriptions := if id in db.subscriptions
                       then db.subscriptions[id := db.subscriptions[id].(active := false)] else db.subscriptions,
      rows := map k | k in db.rows :: if k.subscription == id then CancelledRow(db.rows[k]) else db.rows[k])
  }

  /** The subscriptions an event of this topic fans out to. */
  function Audience(db: Db, topic: Text): set<Text> {
    set s | s in db.subscriptions && db.subscriptions[s] == Subscription(topic, true)
  }

  datatype Published = Created | Replayed | Conflicting | Rejected

  function PublishOutcome(db: Db, id: Text, topic: Text, payload: Encoded): Published {
    if payload.NoText? || Utf8Length(payload.text) > MAX_PAYLOAD_BYTES then Rejected
    else if id !in db.events then Created
    else if db.events[id] == Event(topic, payload.text) then Replayed
    else Conflicting
  }

  function FannedOut(db: Db, id: Text, topic: Text, now: int): map<Key, Row> {
    map s | s in Audience(db, topic) :: Key(id, s) := Row(Pending, 0, now, None, None)
  }

  function PublishedDb(db: Db, id: Text, topic: Text, payload: Encoded, now: int): Db {
    if PublishOutcome(db, id, topic, payload) == Created
    then db.(events := db.events[id := Event(topic, payload.text)], rows := db.rows + FannedOut(db, id, topic, now))
    else db
  }

  /** A row that a worker for `ids` may claim at `now`; `locked` rows are skipped. */
  predicate Claimable(db: Db, ids: set<Text>, locked: set<Key>, now: int, k: Key) {
    && k in db.rows && k !in locked && k.subscription in ids
    && k.subscription in db.subscriptions && db.subscriptions[k.subscription].active
    && var row := db.rows[k];
       || (row.status == Pending && row.availableAt <= now)
       || (row.status == Processing && row.leaseUntil.Some? && row.leaseUntil.value <= now)
  }

  /** `ORDER BY available_at, event_id, subscription_id`. */
  predicate Before(db: Db, a: Key, b: Key)
    requires a in db.rows && b in db.rows
  {
    || db.rows[a].availableAt < db.rows[b].availableAt
    || (db.rows[a].availableAt == db.rows[b].availableAt
        && (Less(a.event, b.event) || (a.event == b.event && Less(a.subscription, b.subscription))))
  }

  /** The row `LIMIT 1` selects. */
  ghost predicate Selected(db: Db, ids: set<Text>, locked: set<Key>, now: int, k: Key) {
    && Claimable(db, ids, locked, now, k)
    && forall other | Claimable(db, ids, locked, now, other) && other != k :: Before(db, k, other)
  }

  function ClaimedRow(row: Row, token: Token, until: int): Row {
    row.(status := Processing, attempts := row.attempts + 1, leaseUntil := Some(until), token := Some(token))
  }

  function ClaimedDb(db: Db, k: Key, token: Token, until: int): Db
    requires k in db.rows
  {
    db.(rows := db.rows[k := ClaimedRow(db.rows[k], token, until)])
  }

  /** The condition under which `acknowledge` and `retry` change their one row. */
  predicate HoldsLease(db: Db, k: Key, token: Token, now: int) {
    && k in db.rows && db.rows[k].status == Processing && db.rows[k].token == Some(token)
    && db.rows[k].leaseUntil.Some? && db.rows[k].leaseUntil.value > now
  }

  function AcknowledgedDb(db: Db, k: Key, token: Token, now: int): Db {
    if HoldsLease(db, k, token, now)
    then db.(rows := db.rows[k := db.rows[k].(status := Delivered, token := None, leaseUntil := None)]) else db
  }

  function RetriedDb(db: Db, k: Key, token: Token, delayMs: int, now: int): Db {
    if HoldsLease(db, k, token, now)
    then db.(rows := db.rows[k := db.rows[k].(status := Pending, token := None, leaseUntil := None,
                                              availableAt := now + delayMs)])
    else db
  }

  // ---- The store ----

  /** The three tables as mutable state; every method is one transition. */
  class EventStore {
    var subscriptions: map<Text, Subscription>
    var events: map<Text, Event>
    var rows: map<Key, Row>

    ghost function Tables(): Db
      reads this
    {
      Db(subscriptions, events, rows)
    }

    constructor ()
      ensures Tables() == Db(map[], map[], map[])
    {
      subscriptions, events, rows := map[], map[], map[];
    }

    method Register(id: Text, topic: Text) returns (accepted: bool)
      modifies this
      ensures if NameValid(id) && NameValid(topic)
              then Tables() == Registered(old(Tables()), id, topic)
                  && accepted == RegisterAccepted(old(Tables()), id, topic)
              else Tables() == old(Tables()) && !accepted
      ensures accepted ==> id in subscriptions && subscriptions[id] == Subscription(topic, true)
      ensures NameValid(id) && NameValid(topic) && id !in old(subscriptions) ==> accepted
      ensures NameValid(id) && NameValid(topic) && id in old(subscriptions) ==>
                subscriptions == old(subscriptions)
                && (accepted <==> subscriptions[id].topic == topic && subscriptions[id].active)
    {
      if !NameValid(id) || !NameValid(topic) { return false; }
      if id !in subscriptions { subscriptions := subscriptions[id := Subscription(topic, true)]; }
      accepted := subscriptions[id].topic == topic && subscriptions[id].active;
    }

    method Cancel(id: Text) returns (accepted: bool)
      modifies this
      ensures accepted == NameValid(id)
      ensures Tables() == if accepted then CancelledDb(old(Tables()), id) else old(Tables())
      ensures rows.Keys == old(rows.Keys) && events == old(events) && subscriptions.Keys == old(subscriptions.Keys)
      ensures forall k | k in rows && k.subscription != id :: rows[k] == old(rows)[k]
      ensures forall s | s in subscriptions && s != id :: subscriptions[s] == old(subscriptions)[s]
      ensures accepted ==> forall k | k in rows && k.subscription == id ::
                var was := old(rows)[k];
                if was.status == Delivered || was.status == Cancelled then rows[k] == was
                else rows[k] == Row(Cancelled, was.attempts, was.availableAt, None, None)
      ensures accepted && id in subscriptions ==>
                subscriptions[id] == Subscription(old(subscriptions)[id].topic, false)
    {
      if !NameValid(id) { return false; }
      ghost var db := Tables();
      if id in subscriptions { subscriptions := subscriptions[id := subscriptions[id].(active := false)]; }
      rows := map k | k in rows ::
        if k.subscription == id && (rows[k].status == Pending || rows[k].status == Processing)
        then rows[k].(status := Cancelled, token := None, leaseUntil := None) else rows[k];
      assert rows == CancelledDb(db, id).rows;
      accepted := true;
    }

    method Publish(id: Text, topic: Text, payload: Json, show: Printer, now: int) returns (r: Published)
      modifies this
      ensures if NameValid(id) && NameValid(topic)
              then r == PublishOutcome(old(Tables()), id, topic, EncodePayload(payload, show))
                   && Tables() == PublishedDb(old(Tables()), id, topic, EncodePayload(payload, show), now)
              else r == Rejected && Tables() == old(Tables())
    {
      if !NameValid(id) || !NameValid(topic) { return Rejected; }
      var text := EncodePayload(payload, show);
      if text.NoText? || Utf8Length(text.text) > MAX_PAYLOAD_BYTES { return Rejected; }
      if id in events {
        return if events[id].topic == topic && events[id].payload == text.text then Replayed else Conflicting;
      }
      ghost var db := Tables();
      var fan := map s | s in subscriptions && subscriptions[s] == Subscription(topic, true) ::
        Key(id, s) := Row(Pending, 0, now, None, None);
      assert fan == FannedOut(db, id, topic, now);
      rows := rows + fan;
      events := events[id := Event(topic, text.text)];
      r := Created;
    }

    /** `now` is read before the selection and `leaseStart`, after it, starts the lease; D1 reads one clock for both. */
    method Claim(ids: set<Text>, leaseMs: int, locked: set<Key>, now: int, leaseStart: int, token: Token)
      returns (claimed: Option<Key>)
      modifies this
      ensures if 1 <= leaseMs <= 86_400_000 && (forall id | id in ids :: NameValid(id))
              then claimed == None <==> forall k :: !Claimable(old(Tables()), ids, locked, now, k)
              else claimed == None
      ensures claimed.Some? ==> Selected(old(Tables()), ids, locked, now, claimed.value)
      ensures claimed.Some? ==> Tables() == ClaimedDb(old(Tables()), claimed.value, token, leaseStart + leaseMs)
      ensures claimed == None ==> Tables() == old(Tables())
    {
      if !DurationValid(leaseMs) || !(forall id | id in ids :: NameValid(id)) { return None; }
      ghost var db := Tables();
      var ready := set k | k in rows && Claimable(Db(subscriptions, events, rows), ids, locked, now, k);
      assert forall k :: Claimable(db, ids, locked, now, k) <==> k in ready;
      if ready == {} { return None; }
      LeastExists(db, ready);
      var k :| k in ready && Least(Db(subscriptions, events, rows), ready, k);
      rows := rows[k := ClaimedRow(rows[k], token, leaseStart + leaseMs)];
      claimed := Some(k);
    }

    method Acknowledge(k: Key, token: Token, now: int) returns (settled: bool)
      modifies this
      ensures settled == HoldsLease(old(Tables()), k, token, now)
      ensures Tables() == AcknowledgedDb(old(Tables()), k, token, now)
    {
      settled := HoldsLease(Db(subscriptions, events, rows), k, token, now);
      if settled { rows := rows[k := rows[k].(status := Delivered, token := None, leaseUntil := None)]; }
    }

    method Retry(k: Key, token: Token, delayMs: int, now: int) returns (settled: bool)
      modifies this
      ensures settled == (1 <= delayMs <= 86_400_000 && HoldsLease(old(Tables()), k, token, now))
      ensures Tables() == if 1 <= delayMs <= 86_400_000 then RetriedDb(old(Tables()), k, token, delayMs, now)
              else old(Tables())
    {
      settled := DurationValid(delayMs) && HoldsLease(Db(subscriptions, events, rows), k, token, now);
      if settled {
        rows := rows[k := rows[k].(status := Pending, token := None, leaseUntil := None, availableAt := now + delayMs)];
      }
    }
  }

  lemma BeforeIsTotal(db: Db, a: Key, b: Key)
    requires a in db.rows && b in db.rows && a != b
    ensures Before(db, a, b) || Before(db, b, a)
  {
    LessTotal(a.event, b.event);
    LessTotal(a.subscription, b.subscription);
  }

  lemma BeforeIsTransitive(db: Db, a: Key, b: Key, c: Key)
    requires a in db.rows && b in db.rows && c in db.rows && Before(db, a, b) && Before(db, b, c)
    ensures Before(db, a, c)
  {
    if Less(a.event, b.event) && Less(b.event, c.event) { LessTransitive(a.event, b.event, c.event); }
    if Less(a.subscription, b.subscription) && Less(b.subscription, c.subscription) {
      LessTransitive(a.subscription, b.subscription, c.subscription);
    }
  }

  predicate Least(db: Db, keys: set<Key>, k: Key)
    requires k in keys && forall other | other in keys :: other in db.rows
  {
    forall other | other in keys && other != k :: Before(db, k, other)
  }

  /** Any nonempty set of rows has one that comes before all the others. */
  lemma {:induction false} LeastExists(db: Db, keys: set<Key>)
    requires keys != {} && forall k | k in keys :: k in db.rows
    ensures exists k :: k in keys && Least(db, keys, k)
  {
    var a :| a in keys;
    var rest := keys - {a};
    if rest == {} {
      assert keys == {a};
      assert Least(db, keys, a);
    } else {
      LeastExists(db, rest);
      var b :| b in rest && Least(db, rest, b);
      BeforeIsTotal(db, a, b);
      if Before(db, a, b) {
        forall other | other in keys && other != a ensures Before(db, a, other) {
          if other != b { BeforeIsTransitive(db, a, b, other); }
        }
        assert Least(db, keys, a);
      } else {
        assert Least(db, keys, b);
      }
    }
  }
}
