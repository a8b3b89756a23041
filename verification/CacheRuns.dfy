/** Every run of the cache service: what each step keeps, and what no interleaving can break. */
module CacheRuns {
  import opened Basics
  import opened JsonText
  import opened CacheService

  datatype Action =
    | GetOrSet(path: seq<Text>, key: Text, lasting: bool)
    | ReadDone(load: nat, lookup: Lookup)
    | Answer(load: nat, ok: bool)
    | Continue(load: nat)
    | LoaderDone(load: nat, loaded: Loaded)
    | Settle(load: nat)
    | Abort(waiter: nat)
    | Close
    | Start(kind: Kind, path: seq<Text>, key: Text)
    | Drained(op: nat)
    | GenerationDone(op: nat, ok: bool)
    | CommandDone(op: nat)

  ghost predicate Enabled(s: State, a: Action) {
    match a
    case GetOrSet(path, key, _) =>
      !s.closed && if FlightId(path, key) in s.flights then s.flights[FlightId(path, key)] < |s.loads|
          else |s.active| < s.limit
    case ReadDone(f, _) => f < |s.loads| && s.loads[f].phase.Reading?
    case Answer(f, _) => f < |s.loads| && s.loads[f].write.Pending?
    case Continue(f) =>
      f < |s.loads| && s.loads[f].write.Answered? && (s.loads[f].phase.Deleting? || s.loads[f].phase.Storing?)
    case LoaderDone(f, _) => f < |s.loads| && s.loads[f].phase.Loading?
    case Settle(f) => f < |s.loads| && s.loads[f].phase.Finished?
    case Abort(w) => Waiting(s, w)
    case Close => !s.closed
    case Start(_, _, _) => !s.closed
    case Drained(o) => o < |s.ops| && s.ops[o].stage.Draining? && AllAnswered(s.loads, s.ops[o].stage.writes)
    case GenerationDone(o, _) => o < |s.ops| && s.ops[o].stage.Generating?
    case CommandDone(o) => o < |s.ops| && s.ops[o].stage.Commanded?
  }

  ghost function Step(s: State, a: Action): State
    requires Enabled(s, a)
  {
    match a
    case GetOrSet(path, key, lasting) =>
      var id := FlightId(path, key);
      if id in s.flights then JoinedState(s, s.flights[id]) else OpenedState(s, id, lasting)
    case ReadDone(f, r) => Moved(s, f, ReadMove(s.loads[f], r, s.closed))
    case Answer(f, ok) => Replied(s, f, ok)
    case Continue(f) => Moved(s, f, ContinueMove(s.loads[f], s.strict))
    case LoaderDone(f, r) => Moved(s, f, LoadMove(s.loads[f], r, s.closed))
    case Settle(f) => SettledState(s, f)
    case Abort(w) => AbortedState(s, w)
    case Close => ClosedState(s)
    case Start(kind, path, key) => StartedState(s, kind, path, key)
    case Drained(o) => DrainedState(s, o)
    case GenerationDone(o, ok) => Staged(s, o, if ok then Commanded else Ended)
    case CommandDone(o) => Staged(s, o, Ended)
  }

  // ---- What holds in every reachable state ----

  /** The fields of one load agree. */
  ghost predicate Shaped(l: Load) {
    && (l.aborted ==> !l.writable)
    && (l.phase.Settled? ==> l.waiters == {})
    && (!l.phase.Settled? ==> (l.aborted <==> l.waiters == {}))
    && (l.phase.Reading? || (l.phase.Loading? && l.lasting) ==> l.write.Unsent?)
    && (l.phase.Deleting? ==> !l.lasting && !l.write.Unsent?)
    && (l.phase.Storing? ==> l.lasting && !l.write.Unsent?)
    && (l.write.Pending? ==> l.phase.Deleting? || l.phase.Storing?)
  }

  ghost predicate AllShaped(loads: seq<Load>) {
    forall f {:trigger Shaped(loads[f])} | 0 <= f < |loads| :: Shaped(loads[f])
  }

  /** The active loads are those not settled, and a load is writable exactly while it is its id's flight. */
  ghost predicate Mapped(s: State) {
    && (forall f: nat {:trigger f in s.active} :: f in s.active <==> f < |s.loads| && !s.loads[f].phase.Settled?)
    && (forall f {:trigger IsFlight(s, f)} | f in s.active :: s.loads[f].writable <==> IsFlight(s, f))
    && (forall id {:trigger s.flights[id]} | id in s.flights :: s.flights[id] in s.active
          && s.loads[s.flights[id]].id == id)
    && (s.closed ==> s.flights == map[] && forall f | f in s.active :: s.loads[f].aborted)
    && |s.active| <= s.limit
  }

  predicate IsFlight(s: State, f: nat)
  {
    f < |s.loads| && s.loads[f].id in s.flights && s.flights[s.loads[f].id] == f
  }

  /** A caller waits on its own load until it has its one result: its own abort, or the load's outcome. */
  ghost predicate Served(loads: seq<Load>, waiters: seq<Waiter>, w: nat)
    requires w < |waiters|
  {
    && waiters[w].load < |loads|
    && (w in loads[waiters[w].load].waiters <==> waiters[w].results == [])
    && |waiters[w].results| <= 1
    && (waiters[w].results != [] ==>
          waiters[w].results == [Failed(Aborted)] || loads[waiters[w].load].phase == Settled(waiters[w].results[0]))
  }

  ghost predicate AllServed(loads: seq<Load>, waiters: seq<Waiter>) {
    && (forall w {:trigger Served(loads, waiters, w)} | 0 <= w < |waiters| :: Served(loads, waiters, w))
    && (forall f {:trigger Belong(loads[f].waiters, waiters, f)} | 0 <= f < |loads| ::
          Belong(loads[f].waiters, waiters, f))
  }

  /** The callers a load counts as waiting are callers of that load. */
  ghost predicate Belong(who: set<nat>, waiters: seq<Waiter>, f: nat) {
    forall w | w in who :: w < |waiters| && waiters[w].load == f
  }

  /** No load an operation fenced can write any more, and its command, if one was sent, is answered or being waited
      for. */
  ghost predicate Held(loads: seq<Load>, op: Op) {
    forall f | f in op.fenced ::
      f < |loads| && !loads[f].writable && (loads[f].write.Pending? ==> op.stage.Draining? && f in op.stage.writes)
  }

  ghost predicate AllHeld(loads: seq<Load>, ops: seq<Op>) {
    forall o {:trigger Held(loads, ops[o])} | 0 <= o < |ops| :: Held(loads, ops[o])
  }

  /** The log records what was sent and answered. */
  ghost predicate Logged(s: State) {
    && (forall f: nat | Sent(f) in s.log :: f < |s.loads| && !s.loads[f].write.Unsent?)
    && (forall f: nat | Sent(f) in s.log && s.loads[f].write.Answered? :: Reply(f) in s.log)
    && (forall o: nat | Ordered(o) in s.log :: o < |s.ops| && (s.ops[o].stage.Commanded? || s.ops[o].stage.Ended?))
  }

  /** Every command of a load the operation fenced was sent and answered before the operation's own command. */
  ghost predicate Fenced(log: seq<Event>, ops: seq<Op>) {
    forall i | 0 <= i < |log| && log[i].Ordered? && log[i].op < |ops| :: Before(log, i, ops[log[i].op].fenced)
  }

  ghost predicate Before(log: seq<Event>, i: nat, fenced: set<nat>)
    requires i < |log|
  {
    && (forall j | i < j < |log| && log[j].Sent? :: log[j].load !in fenced)
    && (forall f | f in fenced && Sent(f) in log[..i] :: Reply(f) in log[..i])
  }

  ghost predicate Inv(s: State) {
    AllShaped(s.loads) && Mapped(s) && AllServed(s.loads, s.waiters) && AllHeld(s.loads, s.ops) && Logged(s)
    && Fenced(s.log, s.ops)
  }

  // ---- A load moves on ----

  /** What a step of a load's own work may change. */
  ghost predicate Works(l: Load, m: Move) {
    && m.load.id == l.id && m.load.lasting == l.lasting && m.load.writable == l.writable && m.load.aborted == l.aborted
    && m.load.waiters == l.waiters && !m.load.phase.Settled? && !l.phase.Settled?
    && (m.sends ==> l.writable && l.write.Unsent? && m.load.write.Pending?)
    && (!m.sends ==> m.load.write == l.write || (l.writable && l.write.Unsent? && m.load.write.Answered?))
  }

  lemma ReadWorks(l: Load, r: Lookup, closed: bool)
    requires Shaped(l) && l.phase.Reading?
    ensures var m := ReadMove(l, r, closed); Works(l, m) && Shaped(m.load)
  {
  }

  lemma ContinueWorks(l: Load, strict: bool)
    requires Shaped(l) && l.write.Answered? && (l.phase.Deleting? || l.phase.Storing?)
    ensures var m := ContinueMove(l, strict); Works(l, m) && Shaped(m.load)
  {
  }

  lemma LoadWorks(l: Load, r: Loaded, closed: bool)
    requires Shaped(l) && l.phase.Loading?
    ensures var m := LoadMove(l, r, closed); Works(l, m) && Shaped(m.load)
  {
  }

  // ---- Changes of the load list that keep each promise ----

  /** No lost right to write comes back, and commands are never taken back. */
  ghost predicate Onward(a: Load, b: Load) {
    && (!a.writable ==> !b.writable && (b.write.Pending? ==> a.write.Pending?))
    && (!a.write.Unsent? ==> !b.write.Unsent?)
  }

  ghost predicate AllOnward(a: seq<Load>, b: seq<Load>) {
    |a| <= |b| && forall f | 0 <= f < |a| :: Onward(a[f], b[f])
  }

  lemma OnwardKeepsHeld(a: seq<Load>, b: seq<Load>, ops: seq<Op>)
    requires AllHeld(a, ops) && AllOnward(a, b)
    ensures AllHeld(b, ops)
  {
    forall o | 0 <= o < |ops| ensures Held(b, ops[o]) { assert Held(a, ops[o]); }
  }

  /** Same waiters and, once settled, the same outcome. */
  ghost predicate Alike(a: Load, b: Load) {
    a.waiters == b.waiters && (a.phase.Settled? ==> b.phase == a.phase)
  }

  lemma AlikeKeepsServed(a: seq<Load>, b: seq<Load>, waiters: seq<Waiter>)
    requires AllServed(a, waiters) && |a| == |b| && forall f | 0 <= f < |a| :: Alike(a[f], b[f])
    ensures AllServed(b, waiters)
  {
    forall w | 0 <= w < |waiters| ensures Served(b, waiters, w) {
      assert Served(a, waiters, w);
      assert Alike(a[waiters[w].load], b[waiters[w].load]);
    }
    forall f | 0 <= f < |b| ensures Belong(b[f].waiters, waiters, f) {
      assert Alike(a[f], b[f]) && Belong(a[f].waiters, waiters, f);
    }
  }

  /** A command is sent for a load no fence met. */
  lemma SendKeepsFenced(log: seq<Event>, ops: seq<Op>, f: nat)
    requires Fenced(log, ops) && forall o | 0 <= o < |ops| :: f !in ops[o].fenced
    ensures Fenced(log + [Sent(f)], ops)
  {
    var more := log + [Sent(f)];
    forall i | 0 <= i < |more| && more[i].Ordered? && more[i].op < |ops| ensures Before(more, i, ops[more[i].op].fenced)
    {
      assert Before(log, i, ops[log[i].op].fenced);
      assert more[..i] == log[..i];
    }
  }

  lemma ReplyKeepsFenced(log: seq<Event>, ops: seq<Op>, f: nat)
    requires Fenced(log, ops)
    ensures Fenced(log + [Reply(f)], ops)
  {
    var more := log + [Reply(f)];
    forall i | 0 <= i < |more| && more[i].Ordered? && more[i].op < |ops| ensures Before(more, i, ops[more[i].op].fenced)
    {
      assert Before(log, i, ops[log[i].op].fenced);
      assert more[..i] == log[..i];
    }
  }

  /** Steps that touch neither flights nor a load's right to write. */
  lemma SameFlights(s: State, t: State)
    requires Mapped(s) && t.flights == s.flights && t.active == s.active && t.closed == s.closed && t.limit == s.limit
    requires |t.loads| == |s.loads|
    requires forall f | 0 <= f < |s.loads| :: SameStanding(s.loads[f], t.loads[f])
    ensures Mapped(t)
  {
    forall f | f in t.active ensures t.loads[f].writable <==> IsFlight(t, f) {
      assert IsFlight(s, f) <==> IsFlight(t, f);
    }
  }

  ghost predicate SameStanding(a: Load, b: Load) {
    b.id == a.id && b.writable == a.writable && b.aborted == a.aborted && b.phase.Settled? == a.phase.Settled?
  }

  lemma MovedKeeps(s: State, f: nat, m: Move)
    requires Inv(s) && f < |s.loads| && Works(s.loads[f], m) && Shaped(m.load)
    ensures Inv(Moved(s, f, m))
  {
    var t := Moved(s, f, m);
    MovedLists(s, f, m);
    SameFlights(s, t);
    assert Logged(t);
  }

  /** What a load that sends a command has going for it: it is its id's flight, it has sent none before, and no
      operation has fenced it. */
  ghost predicate SendsFreely(s: State, f: nat) {
    IsFlight(s, f) && Sent(f) !in s.log && forall o | 0 <= o < |s.ops| :: f !in s.ops[o].fenced
  }

  lemma SendersAreFree(s: State, f: nat, m: Move)
    requires Inv(s) && f < |s.loads| && Works(s.loads[f], m)
    ensures m.sends ==> SendsFreely(s, f)
  {
    forall o | 0 <= o < |s.ops| && m.sends ensures f !in s.ops[o].fenced { assert Held(s.loads, s.ops[o]); }
    assert m.sends ==> f in s.active;
    assert m.sends ==> (s.loads[f].writable <==> IsFlight(s, f));
  }

  lemma MovedLists(s: State, f: nat, m: Move)
    requires Inv(s) && f < |s.loads| && Works(s.loads[f], m) && Shaped(m.load)
    ensures var t := Moved(s, f, m);
            AllShaped(t.loads) && AllServed(t.loads, t.waiters) && AllHeld(t.loads, t.ops) && Fenced(t.log, t.ops)
  {
    var t := Moved(s, f, m);
    AlikeKeepsServed(s.loads, t.loads, s.waiters);
    OnwardKeepsHeld(s.loads, t.loads, s.ops);
    if m.sends {
      forall o | 0 <= o < |s.ops| ensures f !in s.ops[o].fenced { assert Held(s.loads, s.ops[o]); }
      SendKeepsFenced(s.log, s.ops, f);
    }
  }

  lemma RepliedKeeps(s: State, f: nat, ok: bool)
    requires Inv(s) && f < |s.loads| && s.loads[f].write.Pending?
    ensures Inv(Replied(s, f, ok))
  {
    var t := Replied(s, f, ok);
    assert Shaped(s.loads[f]);
    AlikeKeepsServed(s.loads, t.loads, s.waiters);
    OnwardKeepsHeld(s.loads, t.loads, s.ops);
    ReplyKeepsFenced(s.log, s.ops, f);
    SameFlights(s, t);
    assert Logged(t);
  }

  // ---- Callers come and go ----

  lemma JoinedKeeps(s: State, f: nat)
    requires Inv(s) && f < |s.loads| && IsFlight(s, f)
    ensures Inv(JoinedState(s, f))
  {
    var t := JoinedState(s, f);
    assert f in s.active && Shaped(s.loads[f]);
    JoinedServed(s, f);
    OnwardKeepsHeld(s.loads, t.loads, s.ops);
    SameFlights(s, t);
  }

  lemma JoinedServed(s: State, f: nat)
    requires AllServed(s.loads, s.waiters) && f < |s.loads|
    ensures var t := JoinedState(s, f); AllServed(t.loads, t.waiters)
  {
    var t := JoinedState(s, f);
    assert Belong(s.loads[f].waiters, s.waiters, f);
    forall w | 0 <= w < |t.waiters| ensures Served(t.loads, t.waiters, w) {
      if w < |s.waiters| { assert Served(s.loads, s.waiters, w); }
    }
    forall g | 0 <= g < |t.loads| ensures Belong(t.loads[g].waiters, t.waiters, g) {
      if g < |s.loads| { assert Belong(s.loads[g].waiters, s.waiters, g); }
    }
  }

  lemma OpenedKeeps(s: State, id: Text, lasting: bool)
    requires Inv(s) && !s.closed && id !in s.flights && |s.active| < s.limit
    ensures Inv(OpenedState(s, id, lasting))
  {
    var t := OpenedState(s, id, lasting);
    OpenedServed(s, id, lasting);
    OnwardKeepsHeld(s.loads, t.loads, s.ops);
    OpenedMapped(s, id, lasting);
  }

  lemma OpenedMapped(s: State, id: Text, lasting: bool)
    requires Mapped(s) && !s.closed && id !in s.flights && |s.active| < s.limit
    ensures Mapped(OpenedState(s, id, lasting))
  {
    var t := OpenedState(s, id, lasting);
    assert |s.loads| !in s.active;
    forall f | f in s.active ensures t.loads[f].writable <==> IsFlight(t, f) {
      assert s.loads[f].writable <==> IsFlight(s, f);
    }
    assert IsFlight(t, |s.loads|);
  }

  lemma OpenedServed(s: State, id: Text, lasting: bool)
    requires AllServed(s.loads, s.waiters)
    ensures var t := OpenedState(s, id, lasting); AllServed(t.loads, t.waiters)
  {
    var t := OpenedState(s, id, lasting);
    forall w | 0 <= w < |t.waiters| ensures Served(t.loads, t.waiters, w) {
      if w < |s.waiters| { assert Served(s.loads, s.waiters, w); }
    }
    forall g | 0 <= g < |t.loads| ensures Belong(t.loads[g].waiters, t.waiters, g) {
      if g < |s.loads| { assert Belong(s.loads[g].waiters, s.waiters, g); }
    }
  }

  /** Some callers of a load hear its one answer and leave. */
  lemma ToldServed(a: seq<Load>, b: seq<Load>, waiters: seq<Waiter>, who: set<nat>, outcome: Outcome)
    requires AllServed(a, waiters) && |a| == |b|
    requires forall f | 0 <= f < |a| ::
               b[f].waiters == a[f].waiters - who && (a[f].phase.Settled? ==> b[f].phase == a[f].phase)
    requires forall w | w in who ::
               && w < |waiters| && waiters[w].load < |a| && w in a[waiters[w].load].waiters
               && (outcome == Failed(Aborted) || b[waiters[w].load].phase == Settled(outcome))
    ensures AllServed(b, Told(waiters, who, outcome))
  {
    var told := Told(waiters, who, outcome);
    forall w | 0 <= w < |told| ensures Served(b, told, w) {
      assert Served(a, waiters, w);
      var f := waiters[w].load;
      assert b[f].waiters == a[f].waiters - who;
    }
    forall f | 0 <= f < |b| ensures Belong(b[f].waiters, told, f) {
      assert Belong(a[f].waiters, waiters, f);
    }
  }

  lemma SettledKeeps(s: State, f: nat)
    requires Inv(s) && f < |s.loads| && s.loads[f].phase.Finished?
    ensures Inv(SettledState(s, f))
  {
    var t := SettledState(s, f);
    SettledServed(s, f);
    OnwardKeepsHeld(s.loads, t.loads, s.ops);
    SettledMapped(s, f);
    forall g | 0 <= g < |t.loads| ensures Shaped(t.loads[g]) { assert Shaped(s.loads[g]); }
    assert Logged(t);
  }

  lemma SettledServed(s: State, f: nat)
    requires AllServed(s.loads, s.waiters) && f < |s.loads| && s.loads[f].phase.Finished?
    ensures var t := SettledState(s, f); AllServed(t.loads, t.waiters)
  {
    var t := SettledState(s, f);
    var who := s.loads[f].waiters;
    assert Belong(who, s.waiters, f);
    forall g | 0 <= g < |s.loads| ensures t.loads[g].waiters == s.loads[g].waiters - who {
      assert Belong(s.loads[g].waiters, s.waiters, g);
    }
    ToldServed(s.loads, t.loads, s.waiters, who, s.loads[f].phase.outcome);
  }

  lemma SettledMapped(s: State, f: nat)
    requires Mapped(s) && f < |s.loads| && s.loads[f].phase.Finished?
    ensures Mapped(SettledState(s, f))
  {
    var t := SettledState(s, f);
    assert f in s.active;
    assert |t.active| == |s.active| - 1;
    forall g | g in t.active ensures t.loads[g].writable <==> IsFlight(t, g) {
      assert s.loads[g].writable <==> IsFlight(s, g);
    }
  }

  lemma AbortedKeeps(s: State, w: nat)
    requires Inv(s) && Waiting(s, w)
    ensures Inv(AbortedState(s, w))
  {
    var t := AbortedState(s, w);
    var f := s.waiters[w].load;
    assert Shaped(s.loads[f]);
    AbortedServed(s, w);
    OnwardKeepsHeld(s.loads, t.loads, s.ops);
    AbortedMapped(s, w);
    assert AllShaped(t.loads);
    assert Logged(t);
  }

  lemma AbortedServed(s: State, w: nat)
    requires AllServed(s.loads, s.waiters) && Waiting(s, w)
    ensures var t := AbortedState(s, w); AllServed(t.loads, t.waiters)
  {
    var t := AbortedState(s, w);
    forall g | 0 <= g < |s.loads| ensures t.loads[g].waiters == s.loads[g].waiters - {w} {
      assert Belong(s.loads[g].waiters, s.waiters, g);
    }
    ToldServed(s.loads, t.loads, s.waiters, {w}, Failed(Aborted));
  }

  lemma AbortedMapped(s: State, w: nat)
    requires Mapped(s) && Waiting(s, w)
    ensures Mapped(AbortedState(s, w))
  {
    var t := AbortedState(s, w);
    var f := s.waiters[w].load;
    forall g | g in t.active ensures t.loads[g].writable <==> IsFlight(t, g) {
      assert s.loads[g].writable <==> IsFlight(s, g);
    }
  }

  lemma ClosedKeeps(s: State)
    requires Inv(s)
    ensures Inv(ClosedState(s))
  {
    var t := ClosedState(s);
    ClosedServed(s);
    OnwardKeepsHeld(s.loads, t.loads, s.ops);
    assert Mapped(t);
    forall f | 0 <= f < |t.loads| ensures Shaped(t.loads[f]) { assert Shaped(s.loads[f]); }
    assert Logged(t);
  }

  lemma ClosedServed(s: State)
    requires AllShaped(s.loads) && Mapped(s) && AllServed(s.loads, s.waiters)
    ensures var t := ClosedState(s); AllServed(t.loads, t.waiters)
  {
    var t := ClosedState(s);
    var who := CallersOf(s.loads, s.waiters, s.active);
    forall f | 0 <= f < |s.loads| ensures t.loads[f].waiters == s.loads[f].waiters - who {
      assert Belong(s.loads[f].waiters, s.waiters, f) && Shaped(s.loads[f]);
    }
    ToldServed(s.loads, t.loads, s.waiters, who, Failed(Aborted));
  }

  // ---- Fences ----

  lemma BarredKeeps(s: State, gone: set<nat>)
    requires Inv(s) && gone <= s.active
    ensures var t := s.(loads := Barred(s.loads, gone), flights := Detach(s.flights, gone)); Inv(t)
  {
    var t := s.(loads := Barred(s.loads, gone), flights := Detach(s.flights, gone));
    AlikeKeepsServed(s.loads, t.loads, s.waiters);
    OnwardKeepsHeld(s.loads, t.loads, s.ops);
    BarredMapped(s, gone);
    forall f | 0 <= f < |t.loads| ensures Shaped(t.loads[f]) { assert Shaped(s.loads[f]); }
    assert Logged(t);
  }

  lemma BarredMapped(s: State, gone: set<nat>)
    requires Mapped(s) && gone <= s.active
    ensures Mapped(s.(loads := Barred(s.loads, gone), flights := Detach(s.flights, gone)))
  {
    var t := s.(loads := Barred(s.loads, gone), flights := Detach(s.flights, gone));
    forall g | g in t.active ensures t.loads[g].writable <==> IsFlight(t, g) {
      assert s.loads[g].writable <==> IsFlight(s, g);
    }
  }

  /** An operation that has sent no command may be given any fence that holds. */
  lemma OpKeeps(s: State, o: nat, op: Op)
    requires Inv(s) && o <= |s.ops| && Held(s.loads, op) && Ordered(o) !in s.log
    ensures var ops := if o < |s.ops| then s.ops[o := op] else s.ops + [op]; Inv(s.(ops := ops))
  {
    var ops := if o < |s.ops| then s.ops[o := op] else s.ops + [op];
    var t := s.(ops := ops);
    forall i | 0 <= i < |s.log| && s.log[i].Ordered? && s.log[i].op < |ops|
      ensures Before(s.log, i, ops[s.log[i].op].fenced)
    {
      assert s.log[i] in s.log && s.log[i] == Ordered(s.log[i].op);
      assert Before(s.log, i, s.ops[s.log[i].op].fenced);
    }
    SameFlights(s, t);
    assert Logged(t);
  }

  lemma StartedKeeps(s: State, kind: Kind, path: seq<Text>, key: Text)
    requires Inv(s)
    ensures Inv(StartedState(s, kind, path, key))
  {
    var gone := Met(s, path, Scope(kind, key));
    var t := s.(loads := Barred(s.loads, gone), flights := Detach(s.flights, gone));
    BarredKeeps(s, gone);
    OpKeeps(t, |s.ops|, Op(kind, path, key, Draining(Dispatched(s.loads, gone)), gone));
  }

  lemma FencedAgainKeeps(s: State, o: nat)
    requires Inv(s) && o < |s.ops| && s.ops[o].stage.Draining? && AllAnswered(s.loads, s.ops[o].stage.writes)
    ensures Inv(FencedAgain(s, o))
  {
    var op := s.ops[o];
    var gone := Met(s, op.path, Some(op.key));
    var t := s.(loads := Barred(s.loads, gone), flights := Detach(s.flights, gone));
    assert Held(s.loads, op);
    BarredKeeps(s, gone);
    OpKeeps(t, o, op.(kind := Delete, stage := Draining(Dispatched(s.loads, gone)), fenced := op.fenced + gone));
  }

  /** Nothing an operation fenced is still on its way. */
  ghost predicate Quiet(loads: seq<Load>, op: Op) {
    forall f | f in op.fenced :: f < |loads| && !loads[f].writable && !loads[f].write.Pending?
  }

  lemma StagedKeeps(s: State, o: nat, stage: Stage)
    requires Inv(s) && o < |s.ops| && Quiet(s.loads, s.ops[o]) && !stage.Draining?
    requires stage.Generating? ==> Ordered(o) !in s.log
    ensures Inv(Staged(s, o, stage))
  {
    var t := Staged(s, o, stage);
    forall p | 0 <= p < |t.ops| ensures Held(t.loads, t.ops[p]) { assert Held(s.loads, s.ops[p]); }
    SameFlights(s, t);
    StagedFenced(s, o, stage);
    assert Logged(t) by {
      if stage.Commanded? { assert forall e | e in t.log :: e in s.log || e == Ordered(o); }
    }
  }

  lemma StagedFenced(s: State, o: nat, stage: Stage)
    requires Inv(s) && o < |s.ops| && Quiet(s.loads, s.ops[o])
    ensures var t := Staged(s, o, stage); Fenced(t.log, t.ops)
  {
    var t := Staged(s, o, stage);
    forall i | 0 <= i < |t.log| && t.log[i].Ordered? && t.log[i].op < |t.ops|
      ensures Before(t.log, i, t.ops[t.log[i].op].fenced)
    {
      if i < |s.log| {
        assert Before(s.log, i, s.ops[s.log[i].op].fenced);
        assert t.log[..i] == s.log[..i];
      } else {
        assert t.log[..i] == s.log;
      }
    }
  }

  lemma DrainedKeeps(s: State, o: nat)
    requires Inv(s) && Enabled(s, Drained(o))
    ensures Inv(DrainedState(s, o))
  {
    assert Held(s.loads, s.ops[o]);
    if s.ops[o].kind.Put? && !s.ops[o].kind.lasting && !s.closed { FencedAgainKeeps(s, o); }
    else if s.ops[o].kind.Invalidate? { StagedKeeps(s, o, Commanded); }
    else if s.ops[o].kind.Put? && !s.ops[o].kind.lasting { StagedKeeps(s, o, Ended); }
    else { StagedKeeps(s, o, Generating); }
  }

  // ---- Runs ----

  ghost predicate Initial(s: State) {
    !s.closed && s.flights == map[] && s.active == {} && s.loads == [] && s.waiters == [] && s.ops == [] && s.log == []
  }

  ghost predicate Run(s: State, actions: seq<Action>, t: State)
    decreases |actions|
  {
    if actions == [] then s == t else Enabled(s, actions[0]) && Run(Step(s, actions[0]), actions[1..], t)
  }

  lemma StepKeeps(s: State, a: Action)
    requires Inv(s) && Enabled(s, a)
    ensures Inv(Step(s, a))
  {
    match a
    case GetOrSet(path, key, lasting) =>
      var id := FlightId(path, key);
      if id in s.flights { JoinedKeeps(s, s.flights[id]); } else { OpenedKeeps(s, id, lasting); }
    case ReadDone(f, r) =>
      ReadWorks(s.loads[f], r, s.closed);
      MovedKeeps(s, f, ReadMove(s.loads[f], r, s.closed));
    case Answer(f, ok) => RepliedKeeps(s, f, ok);
    case Continue(f) =>
      ContinueWorks(s.loads[f], s.strict);
      MovedKeeps(s, f, ContinueMove(s.loads[f], s.strict));
    case LoaderDone(f, r) =>
      LoadWorks(s.loads[f], r, s.closed);
      MovedKeeps(s, f, LoadMove(s.loads[f], r, s.closed));
    case Settle(f) => SettledKeeps(s, f);
    case Abort(w) => AbortedKeeps(s, w);
    case Close => ClosedKeeps(s);
    case Start(kind, path, key) => StartedKeeps(s, kind, path, key);
    case Drained(o) => DrainedKeeps(s, o);
    case GenerationDone(o, ok) =>
      assert Held(s.loads, s.ops[o]);
      StagedKeeps(s, o, if ok then Commanded else Ended);
    case CommandDone(o) =>
      assert Held(s.loads, s.ops[o]);
      StagedKeeps(s, o, Ended);
  }

  lemma {:induction false} RunKeeps(s: State, actions: seq<Action>, t: State)
    requires Inv(s) && Run(s, actions, t)
    ensures Inv(t)
    decreases |actions|
  {
    if actions != [] {
      StepKeeps(s, actions[0]);
      RunKeeps(Step(s, actions[0]), actions[1..], t);
    }
  }

  // ---- A fence covers the loads in flight ----

  /** A fence meets exactly the active loads of its namespace, or of its one key there. */
  lemma FenceMeetsExactly(s: State, path: seq<Text>, key: Option<Text>, f: nat, p: seq<Text>, k: Text)
    requires f in s.active && f < |s.loads| && s.loads[f].id == FlightId(p, k)
    ensures f in Met(s, path, key) <==> QuoteList(p) == QuoteList(path) && (key.None? || key.value == k)
  {
    if key.None? { LoadIdSelects(path, p, k, k); } else { LoadIdSelects(path, p, k, key.value); }
  }

  ghost predicate StillFenced(ops: seq<Op>, o: nat, fenced: set<nat>) {
    o < |ops| && fenced <= ops[o].fenced
  }

  lemma FencesStay(s: State, a: Action, o: nat, fenced: set<nat>)
    requires Enabled(s, a) && StillFenced(s.ops, o, fenced)
    ensures StillFenced(Step(s, a).ops, o, fenced)
  {
  }

  lemma {:induction false} FencesStayForRuns(s: State, actions: seq<Action>, t: State, o: nat, fenced: set<nat>)
    requires Run(s, actions, t) && StillFenced(s.ops, o, fenced)
    ensures StillFenced(t.ops, o, fenced)
    decreases |actions|
  {
    if actions != [] {
      FencesStay(s, actions[0], o, fenced);
      FencesStayForRuns(Step(s, actions[0]), actions[1..], t, o, fenced);
    }
  }

  /** A load in flight when a set, delete or invalidate of its key begins sends no command after the operation's own,
      and has had the answer to any command it sent before. */
  lemma {:induction false} FencedLoadsNeverOvertake(s: State, kind: Kind, path: seq<Text>, key: Text,
      actions: seq<Action>, t: State, f: nat, p: seq<Text>, k: Text, i: nat)
    requires Inv(s) && !s.closed && Run(Step(s, Start(kind, path, key)), actions, t)
    requires f in s.active && f < |s.loads| && s.loads[f].id == FlightId(p, k)
    requires QuoteList(p) == QuoteList(path) && (kind.Invalidate? || k == key)
    requires i < |t.log| && t.log[i] == Ordered(|s.ops|)
    ensures forall j | i < j < |t.log| :: t.log[j] != Sent(f)
    ensures Sent(f) in t.log[..i] ==> Reply(f) in t.log[..i]
  {
    FenceMeetsExactly(s, path, Scope(kind, key), f, p, k);
    StepKeeps(s, Start(kind, path, key));
    RunKeeps(Step(s, Start(kind, path, key)), actions, t);
    FencesStayForRuns(Step(s, Start(kind, path, key)), actions, t, |s.ops|, {f});
    assert Before(t.log, i, t.ops[|s.ops|].fenced);
  }

  // ---- One flight a key, one answer a caller ----

  lemma {:induction false} OneWritableLoadPerKey(s: State, actions: seq<Action>, t: State, f: nat, g: nat)
    requires Initial(s) && Run(s, actions, t)
    requires f in t.active && g in t.active && f < |t.loads| && g < |t.loads|
    requires t.loads[f].writable && t.loads[g].writable && t.loads[f].id == t.loads[g].id
    ensures f == g && IsFlight(t, f)
  {
    RunKeeps(s, actions, t);
    assert IsFlight(t, f) && IsFlight(t, g);
  }

  lemma {:induction false} FlightsAreActiveAndWritable(s: State, actions: seq<Action>, t: State)
    requires Initial(s) && Run(s, actions, t)
    ensures |t.active| <= t.limit
    ensures forall id | id in t.flights ::
              && t.flights[id] in t.active && t.flights[id] < |t.loads|
              && t.loads[t.flights[id]].id == id && t.loads[t.flights[id]].writable && !t.loads[t.flights[id]].aborted
  {
    RunKeeps(s, actions, t);
    forall id | id in t.flights ensures t.loads[t.flights[id]].writable && !t.loads[t.flights[id]].aborted {
      assert IsFlight(t, t.flights[id]) && Shaped(t.loads[t.flights[id]]);
    }
  }

  /** Settling tells every caller still there, and no one else, and leaves nobody behind. */
  lemma SettleTellsEveryone(s: State, f: nat, w: nat)
    requires Inv(s) && Enabled(s, Settle(f)) && w < |s.waiters|
    ensures var t := Step(s, Settle(f));
            if w in s.loads[f].waiters then t.waiters[w].results == [s.loads[f].phase.outcome] && !Waiting(t, w)
            else t.waiters[w] == s.waiters[w]
    ensures s.waiters[w].load == f ==> |Step(s, Settle(f)).waiters[w].results| == 1
  {
    assert Served(s.loads, s.waiters, w) && Belong(s.loads[f].waiters, s.waiters, f);
  }

  /** Callers of one load hear the same, unless one of them was cancelled before. */
  lemma {:induction false} SameAnswer(s: State, actions: seq<Action>, t: State, v: nat, w: nat)
    requires Initial(s) && Run(s, actions, t)
    requires v < |t.waiters| && w < |t.waiters| && t.waiters[v].load == t.waiters[w].load
    requires t.waiters[v].results != [] && t.waiters[w].results != []
    requires t.waiters[v].results != [Failed(Aborted)] && t.waiters[w].results != [Failed(Aborted)]
    ensures t.waiters[v].results == t.waiters[w].results && |t.waiters[v].results| == 1
  {
    hide AllShaped, Mapped, AllHeld, Logged, Fenced;
    RunKeeps(s, actions, t);
    assert Served(t.loads, t.waiters, v) && Served(t.loads, t.waiters, w);
  }

  /** A caller still has what it had been told. */
  ghost predicate KeepsHearing(waiters: seq<Waiter>, w: nat, load: nat, results: seq<Outcome>) {
    w < |waiters| && waiters[w].load == load && results <= waiters[w].results
  }

  lemma StepKeepsHearing(s: State, a: Action, w: nat, results: seq<Outcome>)
    requires Enabled(s, a) && w < |s.waiters| && results <= s.waiters[w].results
    ensures KeepsHearing(Step(s, a).waiters, w, s.waiters[w].load, results)
  {
  }

  lemma {:induction false} RunKeepsHearing(s: State, actions: seq<Action>, t: State, w: nat, results: seq<Outcome>)
    requires Run(s, actions, t) && w < |s.waiters| && results <= s.waiters[w].results
    ensures KeepsHearing(t.waiters, w, s.waiters[w].load, results)
    decreases |actions|
  {
    if actions != [] {
      StepKeepsHearing(s, actions[0], w, results);
      RunKeepsHearing(Step(s, actions[0]), actions[1..], t, w, results);
    }
  }

  /** A promise settles once: an answered caller is never answered again. */
  lemma {:induction false} AnsweredOnce(s: State, actions: seq<Action>, t: State, w: nat)
    requires Inv(s) && Run(s, actions, t) && w < |s.waiters| && s.waiters[w].results != []
    ensures w < |t.waiters| && t.waiters[w] == s.waiters[w] && |t.waiters[w].results| == 1
  {
    RunKeeps(s, actions, t);
    RunKeepsHearing(s, actions, t, w, s.waiters[w].results);
    assert Served(t.loads, t.waiters, w) && Served(s.loads, s.waiters, w);
  }

  /** When a load is over, each of its callers has exactly one answer. */
  lemma {:induction false} NobodyWaitsForever(s: State, actions: seq<Action>, t: State, w: nat)
    requires Initial(s) && Run(s, actions, t) && w < |t.waiters|
    ensures t.waiters[w].load < |t.loads|
    ensures (t.waiters[w].load in t.active && !t.closed) || |t.waiters[w].results| == 1
    ensures t.closed && t.waiters[w].load in t.active ==> t.waiters[w].results == [Failed(Aborted)]
  {
    RunKeeps(s, actions, t);
    var f := t.waiters[w].load;
    assert Served(t.loads, t.waiters, w) && Shaped(t.loads[f]);
  }

  // ---- After close ----

  lemma ClosedStepSendsNothing(s: State, a: Action)
    requires Inv(s) && s.closed && Enabled(s, a)
    ensures var t := Step(s, a); t.closed && (t.log == s.log || exists e :: t.log == s.log + [e] && !e.Sent?)
  {
    match a {
      case ReadDone(f, r) => assert Shaped(s.loads[f]);
      case LoaderDone(f, r) => assert Shaped(s.loads[f]);
      case Answer(f, ok) => assert Step(s, a).log == s.log + [Reply(f)];
      case Drained(o) => assert Step(s, a).log == s.log || Step(s, a).log == s.log + [Ordered(o)];
      case GenerationDone(o, ok) => assert Step(s, a).log == s.log || Step(s, a).log == s.log + [Ordered(o)];
      case _ =>
    }
  }

  /** Once the service is closed, no load sends a command. */
  lemma {:induction false} ClosedSendsNothing(s: State, actions: seq<Action>, t: State)
    requires Inv(s) && s.closed && Run(s, actions, t)
    ensures s.log <= t.log && forall j | |s.log| <= j < |t.log| :: !t.log[j].Sent?
    decreases |actions|
  {
    if actions != [] {
      ClosedStepSendsNothing(s, actions[0]);
      StepKeeps(s, actions[0]);
      ClosedSendsNothing(Step(s, actions[0]), actions[1..], t);
    }
  }

  lemma StepStaysClosed(s: State, a: Action)
    requires s.closed && Enabled(s, a)
    ensures Step(s, a).closed && !a.GetOrSet? && !a.Start? && !a.Close?
  {
  }

  lemma {:induction false} RunStaysClosed(s: State, actions: seq<Action>, t: State)
    requires s.closed && Run(s, actions, t)
    ensures t.closed && forall a | a in actions :: !a.GetOrSet? && !a.Start? && !a.Close?
    decreases |actions|
  {
    hide Step, Enabled;
    if actions != [] {
      StepStaysClosed(s, actions[0]);
      RunStaysClosed(Step(s, actions[0]), actions[1..], t);
    }
  }

  /** `close` lets in no further call and no operation, answers every caller at once, and stops the commands of
      loads. */
  lemma {:induction false} CloseIsFinal(s: State, actions: seq<Action>, t: State, w: nat)
    requires Inv(s) && !s.closed && Run(Step(s, Close), actions, t) && w < |s.waiters|
    ensures t.closed && forall a | a in actions :: !a.GetOrSet? && !a.Start?
    ensures w < |Step(s, Close).waiters| && |Step(s, Close).waiters[w].results| == 1
    ensures |s.log| <= |t.log| && forall j | |s.log| <= j < |t.log| :: !t.log[j].Sent?
  {
    var m := Step(s, Close);
    StepKeeps(s, Close);
    RunStaysClosed(m, actions, t);
    ClosedSendsNothing(m, actions, t);
    assert Served(m.loads, m.waiters, w) && Shaped(m.loads[m.waiters[w].load]);
    assert m.waiters[w].load in m.active <==> !m.loads[m.waiters[w].load].phase.Settled?;
  }
}
