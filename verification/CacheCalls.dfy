/** The cache service as it is written: one method for each uninterrupted stretch between two awaits. Each does one
    step of the model, keeps what holds in every reachable state, and says what its caller may rely on. */
module CacheCalls {
  import opened Basics
  import opened JsonText
  import opened CacheService
  import opened CacheRuns

  ghost predicate Keyed(flights: map<Text, nat>, loads: seq<Load>) {
    forall id | id in flights :: flights[id] < |loads| && loads[flights[id]].id == id
  }

  /** Callers that wait for this load and have no answer yet. */
  ghost predicate Listed(waiters: seq<Waiter>, who: set<nat>, f: nat) {
    forall w | w in who :: w < |waiters| && waiters[w].load == f && waiters[w].results == []
  }

  lemma DetachesOne(flights: map<Text, nat>, loads: seq<Load>, f: nat)
    requires Keyed(flights, loads) && f < |loads|
    ensures Detach(flights, {f}) == if loads[f].id in flights && flights[loads[f].id] == f then flights - {loads[f].id}
            else flights
  {
  }

  lemma DetachesOneMore(flights: map<Text, nat>, gone: set<nat>, f: nat)
    ensures Detach(Detach(flights, gone), {f}) == Detach(flights, gone + {f})
  {
  }

  lemma BarsOneMore(loads: seq<Load>, gone: set<nat>, f: nat)
    requires f < |loads|
    ensures Barred(loads, gone + {f}) == Barred(loads, gone)[f := Barred(loads, gone)[f].(writable := false)]
    ensures Dispatched(loads, gone + {f}) == Dispatched(loads, gone) + if loads[f].write != Unsent then {f} else {}
    ensures |Barred(loads, gone)| == |loads|
    ensures Barred(loads, gone)[f].id == loads[f].id && Barred(loads, gone)[f].write == loads[f].write
  {
  }

  lemma FenceStarts(loads: seq<Load>, flights: map<Text, nat>)
    ensures Barred(loads, {}) == loads && Detach(flights, {}) == flights && Dispatched(loads, {}) == {}
  {
  }

  lemma TellsOneMore(waiters: seq<Waiter>, told: set<nat>, w: nat, outcome: Outcome)
    requires w < |waiters| && w !in told
    ensures Told(Told(waiters, told, outcome), {w}, outcome) == Told(waiters, told + {w}, outcome)
    ensures Told(waiters, told, outcome)[w] == waiters[w]
  {
  }

  lemma TellsNobody(waiters: seq<Waiter>, outcome: Outcome)
    ensures Told(waiters, {}, outcome) == waiters
  {
  }

  lemma TellsMore(waiters: seq<Waiter>, told: set<nat>, more: set<nat>, outcome: Outcome)
    requires told !! more
    ensures Told(Told(waiters, told, outcome), more, outcome) == Told(waiters, told + more, outcome)
  {
  }

  lemma CutsOneMore(loads: seq<Load>, waiters: seq<Waiter>, gone: set<nat>, f: nat)
    requires f < |loads| && f !in gone && Listed(waiters, loads[f].waiters, f)
    ensures |Cut(loads, gone)| == |loads| && Cut(loads, gone)[f] == loads[f]
    ensures Cut(loads, gone + {f}) ==
            Cut(loads, gone)[f := loads[f].(writable := false, aborted := true, waiters := {})]
    ensures CallersOf(loads, waiters, gone + {f}) == CallersOf(loads, waiters, gone) + loads[f].waiters
    ensures CallersOf(loads, waiters, gone) !! loads[f].waiters
  {
  }

  lemma CutStarts(loads: seq<Load>, waiters: seq<Waiter>, outcome: Outcome)
    ensures Cut(loads, {}) == loads && Told(waiters, CallersOf(loads, waiters, {}), outcome) == waiters
  {
  }

  /** Callers of another load are not touched. */
  lemma StillListed(waiters: seq<Waiter>, told: set<nat>, outcome: Outcome, who: set<nat>, f: nat)
    requires Listed(waiters, who, f) && told !! who
    ensures Listed(Told(waiters, told, outcome), who, f)
  {
  }

  /** The service as the source runs it, each method one uninterrupted stretch. */
  class Cache {
    const limit: nat
    const strict: bool
    var closed: bool
    var flights: map<Text, nat>
    var active: set<nat>
    var loads: seq<Load>
    var waiters: seq<Waiter>
    var ops: seq<Op>
    ghost var log: seq<Event>

    ghost function Now(): State
      reads this
    {
      State(limit, strict, closed, flights, active, loads, waiters, ops, log)
    }

    /** Flights and waiters are filed under the loads they belong to, and listed callers are unanswered. */
    ghost predicate Indexed()
      reads this
    {
      && (forall f | f in active :: f < |loads|)
      && Keyed(flights, loads)
      && (forall f | 0 <= f < |loads| :: Listed(waiters, loads[f].waiters, f))
    }

    constructor (limit: nat, strict: bool)
      ensures Now() == State(limit, strict, false, map[], {}, [], [], [], []) && Inv(Now())
    {
      this.limit, this.strict := limit, strict;
      closed, flights, active, loads, waiters, ops, log := false, map[], {}, [], [], [], [];
    }

    /** Joins the flight of the key or starts one. */
    method GetOrSet(path: seq<Text>, key: Text, lasting: bool, signalled: bool) returns (joined: Option<Error>)
      requires Inv(Now())
      modifies this`flights, this`active, this`loads, this`waiters
      ensures joined.Some? ==> Now() == old(Now())
      ensures joined == if old(closed) then Some(Closed) else if signalled then Some(Aborted)
                        else if FlightId(path, key) !in old(flights) && |old(active)| >= limit then Some(Busy) else None
      ensures joined.None? ==> Now() == if FlightId(path, key) in old(flights)
                                        then JoinedState(old(Now()), old(flights)[FlightId(path, key)])
                                        else OpenedState(old(Now()), FlightId(path, key), lasting)
      ensures Inv(Now())
    {
      ReachableIsIndexed(this);
      if closed { return Some(Closed); }
      if signalled { return Some(Aborted); }
      var id := FlightId(path, key);
      var w := |waiters|;
      if id in flights {
        var f := flights[id];
        JoinedKeeps(Now(), f);
        waiters := waiters + [Waiter(f, [])];
        loads := loads[f := loads[f].(waiters := loads[f].waiters + {w})];
      } else {
        if |active| >= limit { return Some(Busy); }
        OpenedKeeps(Now(), id, lasting);
        var f := |loads|;
        active := active + {f};
        flights := flights[id := f];
        loads := loads + [Load(id, lasting, true, false, false, Unsent, Reading, {w})];
        waiters := waiters + [Waiter(f, [])];
      }
      joined := None;
    }

    method ReadDone(f: nat, r: Lookup)
      requires Inv(Now()) && f < |loads| && loads[f].phase.Reading?
      modifies this`loads, this`log
      ensures Now() == Moved(old(Now()), f, ReadMove(old(loads[f]), r, closed))
      ensures Inv(Now())
      ensures log == old(log) || (!closed && log == old(log) + [Sent(f)] && SendsFreely(old(Now()), f))
    {
      ghost var m := ReadMove(loads[f], r, closed);
      assert Shaped(loads[f]);
      ReadWorks(loads[f], r, closed);
      SendersAreFree(Now(), f, m);
      MovedKeeps(Now(), f, m);
      TakeRead(f, r);
    }

    method TakeRead(f: nat, r: Lookup)
      requires f < |loads|
      modifies this`loads, this`log
      ensures Now() == Moved(old(Now()), f, ReadMove(old(loads[f]), r, closed))
    {
      if r.Broken? {
        loads := loads[f := loads[f].(phase := Finished(Failed(Backend)))];
        return;
      }
      if loads[f].lasting && r.Hit? {
        loads := loads[f := loads[f].(phase := Finished(r.encoded))];
        return;
      }
      loads := loads[f := loads[f].(known := r.Hit? || r.known)];
      if !loads[f].lasting && loads[f].known && loads[f].writable && !closed && !loads[f].aborted {
        loads := loads[f := loads[f].(write := Pending, phase := Deleting)];
        log := log + [Sent(f)];
      } else {
        CallLoader(f);
      }
    }

    method CallLoader(f: nat)
      requires f < |loads|
      modifies this`loads
      ensures loads == old(loads)[f := ToLoader(old(loads[f])).load]
    {
      if loads[f].aborted {
        loads := loads[f := loads[f].(phase := Finished(Failed(Aborted)))];
      } else {
        loads := loads[f := loads[f].(phase := Loading)];
      }
    }

    method Answer(f: nat, ok: bool)
      requires Inv(Now()) && f < |loads| && loads[f].write.Pending?
      modifies this`loads, this`log
      ensures Now() == Replied(old(Now()), f, ok)
      ensures Inv(Now())
    {
      RepliedKeeps(Now(), f, ok);
      loads := loads[f := loads[f].(write := Answered(ok))];
      log := log + [Reply(f)];
    }

    method Continue(f: nat)
      requires Inv(Now()) && f < |loads| && loads[f].write.Answered?
               && (loads[f].phase.Deleting? || loads[f].phase.Storing?)
      modifies this`loads
      ensures Now() == Moved(old(Now()), f, ContinueMove(old(loads[f]), strict))
      ensures Inv(Now())
    {
      assert Shaped(loads[f]);
      ContinueWorks(loads[f], strict);
      MovedKeeps(Now(), f, ContinueMove(loads[f], strict));
      if !loads[f].write.ok && strict {
        loads := loads[f := loads[f].(phase := Finished(Failed(Backend)))];
      } else if loads[f].phase.Deleting? {
        CallLoader(f);
      } else {
        loads := loads[f := loads[f].(phase := Finished(Value(loads[f].phase.text)))];
      }
    }

    method LoaderDone(f: nat, r: Loaded)
      requires Inv(Now()) && f < |loads| && loads[f].phase.Loading?
      modifies this`loads, this`log
      ensures Now() == Moved(old(Now()), f, LoadMove(old(loads[f]), r, closed))
      ensures Inv(Now())
      ensures log == old(log) || (!closed && log == old(log) + [Sent(f)] && SendsFreely(old(Now()), f))
    {
      ghost var m := LoadMove(loads[f], r, closed);
      assert Shaped(loads[f]);
      LoadWorks(loads[f], r, closed);
      SendersAreFree(Now(), f, m);
      MovedKeeps(Now(), f, m);
      var outcome;
      if r.Threw? {
        outcome := Failed(r.error);
      } else if loads[f].aborted {
        outcome := Failed(Aborted);
      } else if r.Unencodable? {
        outcome := Failed(r.error);
      } else if loads[f].lasting && loads[f].writable && !closed {
        if loads[f].known {
          loads := loads[f := loads[f].(write := Pending, phase := Storing(r.text))];
          log := log + [Sent(f)];
        } else {
          loads := loads[f := loads[f].(write := Answered(true), phase := Storing(r.text))];
        }
        return;
      } else {
        outcome := Value(r.text);
      }
      loads := loads[f := loads[f].(phase := Finished(outcome))];
    }

    /** Settles one caller's promise and takes it off its load's list. */
    method Tell(w: nat, outcome: Outcome)
      requires w < |waiters| && waiters[w].load < |loads| && waiters[w].results == []
      modifies this`waiters, this`loads
      ensures waiters == Told(old(waiters), {w}, outcome)
      ensures var f := old(waiters[w].load);
              loads == old(loads)[f := old(loads)[f].(waiters := old(loads)[f].waiters - {w})]
    {
      var f := waiters[w].load;
      waiters := waiters[w := waiters[w].(results := waiters[w].results + [outcome])];
      loads := loads[f := loads[f].(waiters := loads[f].waiters - {w})];
    }

    /** Tells every caller still listed for the load. */
    method TellAll(f: nat, outcome: Outcome)
      requires f < |loads| && Listed(waiters, loads[f].waiters, f)
      modifies this`waiters, this`loads
      ensures waiters == Told(old(waiters), old(loads[f].waiters), outcome)
      ensures loads == old(loads)[f := old(loads[f]).(waiters := {})]
    {
      ghost var who, told := loads[f].waiters, {};
      TellsNobody(waiters, outcome);
      assert who - told == who && loads[f := loads[f].(waiters := who)] == loads;
      while loads[f].waiters != {}
        invariant |loads| == |old(loads)| && told <= who
        invariant loads == old(loads)[f := old(loads[f]).(waiters := who - told)]
        invariant waiters == Told(old(waiters), told, outcome)
        decreases loads[f].waiters
      {
        var w :| w in loads[f].waiters;
        TellsOneMore(old(waiters), told, w, outcome);
        Tell(w, outcome);
        assert who - told - {w} == who - (told + {w});
        told := told + {w};
      }
      assert told == who;
    }

    /** Takes a load off the map of flights, if it is still there. */
    method Unmap(f: nat)
      requires Keyed(flights, loads) && f < |loads|
      modifies this`flights
      ensures flights == Detach(old(flights), {f})
    {
      DetachesOne(flights, loads, f);
      if loads[f].id in flights && flights[loads[f].id] == f { flights := flights - {loads[f].id}; }
    }

    method Settle(f: nat)
      requires Inv(Now()) && f < |loads| && loads[f].phase.Finished?
      modifies this`active, this`flights, this`loads, this`waiters
      ensures Now() == SettledState(old(Now()), f)
      ensures Inv(Now())
    {
      hide Inv;
      SettledKeeps(Now(), f);
      ReachableIsIndexed(this);
      active := active - {f};
      Unmap(f);
      TellAll(f, loads[f].phase.outcome);
      loads := loads[f := loads[f].(phase := Settled(loads[f].phase.outcome))];
    }

    method Abort(w: nat)
      requires Inv(Now()) && Waiting(Now(), w)
      modifies this`flights, this`loads, this`waiters
      ensures Now() == AbortedState(old(Now()), w)
      ensures Inv(Now())
    {
      hide Inv;
      AbortedKeeps(Now(), w);
      ReachableIsIndexed(this);
      var f := waiters[w].load;
      Tell(w, Failed(Aborted));
      if loads[f].waiters == {} {
        loads := loads[f := loads[f].(writable := false, aborted := true)];
        Unmap(f);
      }
    }

    method Close()
      requires Inv(Now()) && !closed
      modifies this`closed, this`flights, this`loads, this`waiters
      ensures Now() == ClosedState(old(Now()))
      ensures Inv(Now())
    {
      ClosedKeeps(Now());
      ReachableIsIndexed(this);
      closed := true;
      flights := map[];
      CutAll();
    }

    /** Every active load's controller aborts. */
    method CutAll()
      requires forall f | f in active :: f < |loads| && Listed(waiters, loads[f].waiters, f)
      modifies this`loads, this`waiters
      ensures loads == Cut(old(loads), active)
      ensures waiters == Told(old(waiters), CallersOf(old(loads), old(waiters), active), Failed(Aborted))
    {
      CutStarts(loads, waiters, Failed(Aborted));
      var todo := active;
      assert active - todo == {};
      while todo != {}
        invariant todo <= active
        invariant loads == Cut(old(loads), active - todo)
        invariant waiters == Told(old(waiters), CallersOf(old(loads), old(waiters), active - todo), Failed(Aborted))
        decreases todo
      {
        var f :| f in todo;
        assert Listed(old(waiters), old(loads)[f].waiters, f);
        ghost var gone := active - todo;
        ghost var told, who := CallersOf(old(loads), old(waiters), gone), old(loads)[f].waiters;
        CutsOneMore(old(loads), old(waiters), gone, f);
        StillListed(old(waiters), told, Failed(Aborted), who, f);
        TellsMore(old(waiters), told, who, Failed(Aborted));
        CutOff(f);
        todo := todo - {f};
        assert active - todo == gone + {f};
      }
      assert active - todo == active;
    }

    /** One load's controller aborts, and with it every caller. */
    method CutOff(f: nat)
      requires f < |loads| && Listed(waiters, loads[f].waiters, f)
      modifies this`waiters, this`loads
      ensures waiters == Told(old(waiters), old(loads[f].waiters), Failed(Aborted))
      ensures loads == old(loads)[f := old(loads[f]).(writable := false, aborted := true, waiters := {})]
    {
      loads := loads[f := loads[f].(writable := false, aborted := true)];
      TellAll(f, Failed(Aborted));
    }

    /** Takes the right to write from every active load in scope and collects their dispatched commands. */
    method Fence(path: seq<Text>, key: Option<Text>) returns (writes: set<nat>, gone: set<nat>)
      requires Indexed()
      modifies this`flights, this`loads
      ensures gone == Met(old(Now()), path, key) && writes == Dispatched(old(loads), gone)
      ensures loads == Barred(old(loads), gone) && flights == Detach(old(flights), gone)
    {
      writes, gone := {}, {};
      var todo := active;
      FenceStarts(loads, flights);
      while todo != {}
        invariant todo <= active && gone <= active
        invariant forall f | f in active && f !in todo :: f in gone <==> Meets(old(loads)[f].id, path, key)
        invariant gone !! todo
        invariant writes == Dispatched(old(loads), gone)
        invariant loads == Barred(old(loads), gone) && flights == Detach(old(flights), gone)
        decreases todo
      {
        var f :| f in todo;
        BarsOneMore(old(loads), gone, f);
        if Meets(loads[f].id, path, key) {
          DetachesOneMore(old(flights), gone, f);
          loads := loads[f := loads[f].(writable := false)];
          StaysKeyed(old(flights), old(loads), gone, f);
          Unmap(f);
          if loads[f].write != Unsent { writes := writes + {f}; }
          gone := gone + {f};
        }
        todo := todo - {f};
      }
    }

    /** The first stretch of set, delete and invalidate. */
    method Start(kind: Kind, path: seq<Text>, key: Text) returns (refused: Option<Error>)
      requires Inv(Now())
      modifies this`flights, this`loads, this`ops
      ensures refused == if closed then Some(Closed) else None
      ensures Now() == if closed then old(Now()) else StartedState(old(Now()), kind, path, key)
      ensures Inv(Now())
    {
      StartedKeeps(Now(), kind, path, key);
      ReachableIsIndexed(this);
      if closed { return Some(Closed); }
      var writes, gone := Fence(path, Scope(kind, key));
      ops := ops + [Op(kind, path, key, Draining(writes), gone)];
      refused := None;
    }

    /** The stretch after the drain: the operation's command, its generation, or the delete a set turns into. */
    method Drained(o: nat)
      requires Inv(Now()) && o < |ops| && ops[o].stage.Draining? && AllAnswered(loads, ops[o].stage.writes)
      modifies this`flights, this`loads, this`ops, this`log
      ensures Now() == DrainedState(old(Now()), o)
      ensures Inv(Now())
    {
      DrainedKeeps(Now(), o);
      ReachableIsIndexed(this);
      var op := ops[o];
      if op.kind.Invalidate? {
        ops := ops[o := op.(stage := Commanded)];
        log := log + [Ordered(o)];
      } else if op.kind.Delete? || op.kind.lasting {
        ops := ops[o := op.(stage := Generating)];
      } else if closed {
        ops := ops[o := op.(stage := Ended)];
      } else {
        var writes, gone := Fence(op.path, Some(op.key));
        ops := ops[o := op.(kind := Delete, stage := Draining(writes), fenced := op.fenced + gone)];
      }
    }

    method GenerationDone(o: nat, ok: bool)
      requires Inv(Now()) && o < |ops| && ops[o].stage.Generating?
      modifies this`ops, this`log
      ensures Now() == Staged(old(Now()), o, if ok then Commanded else Ended)
      ensures Inv(Now())
    {
      assert Held(loads, ops[o]);
      StagedKeeps(Now(), o, if ok then Commanded else Ended);
      if ok {
        ops := ops[o := ops[o].(stage := Commanded)];
        log := log + [Ordered(o)];
      } else {
        ops := ops[o := ops[o].(stage := Ended)];
      }
    }

    method CommandDone(o: nat)
      requires Inv(Now()) && o < |ops| && ops[o].stage.Commanded?
      modifies this`ops
      ensures Now() == Staged(old(Now()), o, Ended)
      ensures Inv(Now())
    {
      assert Held(loads, ops[o]);
      StagedKeeps(Now(), o, Ended);
      ops := ops[o := ops[o].(stage := Ended)];
    }
  }

  lemma StaysKeyed(flights: map<Text, nat>, loads: seq<Load>, gone: set<nat>, f: nat)
    requires Keyed(flights, loads) && f < |loads|
    ensures |Barred(loads, gone)| == |loads|
    ensures Keyed(Detach(flights, gone), Barred(loads, gone)[f := Barred(loads, gone)[f].(writable := false)])
  {
  }

  /** What the loops below need holds in every reachable state. */
  lemma ReachableIsIndexed(c: Cache)
    requires Inv(c.Now())
    ensures c.Indexed()
  {
    var s := c.Now();
    forall f | 0 <= f < |c.loads| ensures Listed(c.waiters, c.loads[f].waiters, f) {
      assert Belong(s.loads[f].waiters, s.waiters, f);
      forall w | w in s.loads[f].waiters ensures s.waiters[w].results == [] { assert Served(s.loads, s.waiters, w); }
    }
  }

}
