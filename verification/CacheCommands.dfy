/** Which adapter commands the cache service owes and sends: loads that made a value store it, operations send theirs,
    no command is sent twice, and neither loads nor operations can get stuck. */
module CacheCommands {
  import opened Basics
  import opened JsonText
  import opened CacheService
  import opened CacheRuns
  import opened CacheHistory

  // ---- The commands of loads ----

  /** What a load has found and made calls for a command: a set of a made value, or a delete for a zero time to live. */
  ghost predicate Due(past: seq<Action>, l: Load, f: nat) {
    FoundGeneration(past, f) && (l.lasting ==> HasMade(past, f))
  }

  /** An unbarred load of an open service has sent what is due, and no load sends anything else. */
  ghost predicate Sends(past: seq<Action>, closed: bool, log: seq<Event>, l: Load, f: nat) {
    && (Due(past, l, f) && l.writable && !closed ==> Sent(f) in log)
    && (Sent(f) in log ==> Due(past, l, f))
  }

  ghost predicate AllSend(past: seq<Action>, s: State) {
    forall f {:trigger Sends(past, s.closed, s.log, s.loads[f], f)} | 0 <= f < |s.loads| ::
      Sends(past, s.closed, s.log, s.loads[f], f)
  }

  /** A step that is no read and no loader of this load. */
  ghost predicate PassesBy(s: State, a: Action, t: State, f: nat) {
    && f < |s.loads| && f < |t.loads| && t.loads[f].lasting == s.loads[f].lasting
    && (t.loads[f].writable ==> s.loads[f].writable) && (s.closed ==> t.closed)
    && (Sent(f) in t.log <==> Sent(f) in s.log)
  }

  lemma PassingSends(past: seq<Action>, s: State, a: Action, t: State, f: nat)
    requires PassesBy(s, a, t, f) && !Concerns(a, f) && Sends(past, s.closed, s.log, s.loads[f], f)
    ensures Sends(past + [a], t.closed, t.log, t.loads[f], f)
  {
    PastGrows(past, a, f);
  }

  lemma PassivePassesBy(s: State, a: Action, f: nat)
    requires Enabled(s, a) && f < |s.loads| && !a.ReadDone? && !a.LoaderDone? && !a.Continue?
    ensures PassesBy(s, a, Step(s, a), f)
  {
  }

  lemma ContinuePassesBy(s: State, g: nat, f: nat)
    requires Enabled(s, Continue(g)) && f < |s.loads|
    ensures PassesBy(s, Continue(g), Step(s, Continue(g)), f)
  {
  }

  lemma OtherPassesBy(s: State, a: Action, f: nat)
    requires Enabled(s, a) && f < |s.loads| && (a.ReadDone? || a.LoaderDone?) && a.load != f
    ensures PassesBy(s, a, Step(s, a), f)
  {
  }

  lemma ReadSends(past: seq<Action>, s: State, f: nat, r: Lookup)
    requires Logged(s) && Enabled(s, ReadDone(f, r)) && Shaped(s.loads[f])
    requires Accounted(past, s.strict, s.loads[f], f)
    ensures var a := ReadDone(f, r); Sends(past + [a], s.closed, Step(s, a).log, Step(s, a).loads[f], f)
  {
    FirstRead(past, f, r);
    assert forall b :: b in past + [ReadDone(f, r)] <==> b in past || b == ReadDone(f, r);
    assert Sent(f) !in s.log;
  }

  lemma LoadSends(past: seq<Action>, s: State, f: nat, r: Loaded)
    requires Logged(s) && Enabled(s, LoaderDone(f, r)) && Shaped(s.loads[f])
    requires Accounted(past, s.strict, s.loads[f], f) && Sends(past, s.closed, s.log, s.loads[f], f)
    ensures var a := LoaderDone(f, r); Sends(past + [a], s.closed, Step(s, a).log, Step(s, a).loads[f], f)
  {
    FirstLoad(past, f, r);
    assert LoaderDone(f, r) in past + [LoaderDone(f, r)];
    assert forall b :: b in past + [LoaderDone(f, r)] <==> b in past || b == LoaderDone(f, r);
    assert HasMade(past + [LoaderDone(f, r)], f) <==> r.Made?;
  }

  lemma StepSends(past: seq<Action>, s: State, a: Action)
    requires Inv(s) && AllAccounted(past, s) && AllSend(past, s) && Enabled(s, a)
    ensures AllSend(past + [a], Step(s, a))
  {
    hide Accounted, Sends, Mapped, AllServed, AllHeld, Fenced;
    var t := Step(s, a);
    forall f | 0 <= f < |t.loads| ensures Sends(past + [a], t.closed, t.log, t.loads[f], f) {
      if f >= |s.loads| {
        NewSends(past, s, a);
      } else {
        assert Shaped(s.loads[f]) && Accounted(past, s.strict, s.loads[f], f);
        OldSends(past, s, a, f);
      }
    }
  }

  lemma OldSends(past: seq<Action>, s: State, a: Action, f: nat)
    requires Logged(s) && Enabled(s, a) && f < |s.loads| && Shaped(s.loads[f])
    requires Accounted(past, s.strict, s.loads[f], f) && Sends(past, s.closed, s.log, s.loads[f], f)
    ensures f < |Step(s, a).loads| && Sends(past + [a], Step(s, a).closed, Step(s, a).log, Step(s, a).loads[f], f)
  {
    hide Accounted, Sends;
    if a.ReadDone? && a.load == f {
      ReadSends(past, s, f, a.lookup);
    } else if a.LoaderDone? && a.load == f {
      LoadSends(past, s, f, a.loaded);
    } else {
      if a.ReadDone? || a.LoaderDone? { OtherPassesBy(s, a, f); }
      else if a.Continue? { ContinuePassesBy(s, a.load, f); }
      else { PassivePassesBy(s, a, f); }
      PassingSends(past, s, a, Step(s, a), f);
    }
  }

  lemma NewSends(past: seq<Action>, s: State, a: Action)
    requires Logged(s) && Enabled(s, a) && |Step(s, a).loads| > |s.loads|
    requires forall b | b in past && (b.ReadDone? || b.LoaderDone?) :: b.load < |s.loads|
    ensures |Step(s, a).loads| == |s.loads| + 1
    ensures var t := Step(s, a); Sends(past + [a], t.closed, t.log, t.loads[|s.loads|], |s.loads|)
  {
    OnlyCallsOpen(s, a);
    PastGrows(past, a, |s.loads|);
  }

  lemma OnlyCallsOpen(s: State, a: Action)
    requires Enabled(s, a) && |Step(s, a).loads| > |s.loads|
    ensures a.GetOrSet? && |Step(s, a).loads| == |s.loads| + 1 && Step(s, a).log == s.log
  {
  }

  /** Only a fence or an abort takes a load's right to write. */
  ghost predicate BarredRightly(s: State) {
    forall f {:trigger s.loads[f].writable} | 0 <= f < |s.loads| ::
      s.loads[f].writable || s.loads[f].aborted || IsFenced(s.ops, f)
  }

  ghost predicate IsFenced(ops: seq<Op>, f: nat) {
    exists o :: 0 <= o < |ops| && f in ops[o].fenced
  }

  lemma StepBarsRightly(s: State, a: Action, f: nat)
    requires Enabled(s, a) && BarredRightly(s) && f < |s.loads|
    ensures f < |Step(s, a).loads|
    ensures var t := Step(s, a); t.loads[f].writable || t.loads[f].aborted || IsFenced(t.ops, f)
  {
    var t := Step(s, a);
    FencesGrow(s, a, f);
    if a.Start? && !t.loads[f].writable && s.loads[f].writable {
      assert f in t.ops[|s.ops|].fenced;
    }
    if a.Drained? && !t.loads[f].writable && s.loads[f].writable {
      assert f in t.ops[a.op].fenced;
    }
  }

  lemma FencesGrow(s: State, a: Action, f: nat)
    requires Enabled(s, a)
    ensures IsFenced(s.ops, f) ==> IsFenced(Step(s, a).ops, f)
  {
    if IsFenced(s.ops, f) {
      var o :| 0 <= o < |s.ops| && f in s.ops[o].fenced;
      FencesStay(s, a, o, {f});
    }
  }

  lemma StepKeepsBarred(s: State, a: Action)
    requires Enabled(s, a) && BarredRightly(s)
    ensures BarredRightly(Step(s, a))
  {
    var t := Step(s, a);
    forall f | 0 <= f < |t.loads| ensures t.loads[f].writable || t.loads[f].aborted || IsFenced(t.ops, f) {
      if f < |s.loads| { StepBarsRightly(s, a, f); } else { OnlyCallsOpen(s, a); }
    }
  }

  lemma {:induction false} RunSends(past: seq<Action>, s: State, actions: seq<Action>, t: State)
    requires Inv(s) && AllAccounted(past, s) && AllSend(past, s) && BarredRightly(s) && Run(s, actions, t)
    ensures AllSend(past + actions, t) && BarredRightly(t)
    decreases |actions|
  {
    hide Inv, AllAccounted, AllSend, BarredRightly, Step, Enabled;
    if actions == [] {
      assert past + actions == past;
    } else {
      assert past + actions == past + [actions[0]] + actions[1..];
      StepKeepsShapes(s, actions[0]);
      StepAccounted(past, s, actions[0]);
      StepSends(past, s, actions[0]);
      StepKeepsBarred(s, actions[0]);
      StepKeeps(s, actions[0]);
      RunSends(past + [actions[0]], Step(s, actions[0]), actions[1..], t);
    }
  }

  lemma StepKeepsShapes(s: State, a: Action)
    requires Inv(s)
    ensures AllShaped(s.loads)
  {
  }

  /** In every reachable state of an open service, a load that no fence has met and no abort has ended has sent what its
      read and its loader call for, and it answers nobody before the adapter has answered. */
  lemma {:induction false} DueCommandsAreSent(s: State, actions: seq<Action>, t: State, f: nat)
    requires Initial(s) && Run(s, actions, t) && f < |t.loads|
    requires !t.closed && !t.loads[f].aborted && !IsFenced(t.ops, f) && Due(actions, t.loads[f], f)
    ensures Sent(f) in t.log && (Done(t.loads[f]) ==> Reply(f) in t.log)
  {
    RunSends([], s, actions, t);
    RunKeeps(s, actions, t);
    assert [] + actions == actions;
    assert Sends(actions, t.closed, t.log, t.loads[f], f) && Shaped(t.loads[f]);
  }

  /** No load writes without a generation, and no lasting load before its loader has made a value. */
  lemma {:induction false} OnlyDueCommandsAreSent(s: State, actions: seq<Action>, t: State, f: nat)
    requires Initial(s) && Run(s, actions, t) && f < |t.loads| && Sent(f) in t.log
    ensures Due(actions, t.loads[f], f)
  {
    RunSends([], s, actions, t);
    assert [] + actions == actions;
    assert Sends(actions, t.closed, t.log, t.loads[f], f);
  }

  // ---- The commands of operations ----

  /** The operations begun, in order. */
  function Starts(past: seq<Action>): seq<Action> {
    if past == [] then []
    else if past[|past| - 1].Start? then Starts(past[..|past| - 1]) + [past[|past| - 1]]
    else Starts(past[..|past| - 1])
  }

  lemma {:induction false} StartsGrow(past: seq<Action>, a: Action)
    ensures Starts(past + [a]) == if a.Start? then Starts(past) + [a] else Starts(past)
  {
    assert (past + [a])[..|past|] == past;
  }

  /** An operation acts on the key and in the way it was begun with, but for a set that stores nothing, which goes on
      as a delete. Past its drain and its generation it has sent its command, unless the adapter had no generation for
      it or the service was closed before such a set went on. */
  ghost predicate OpOk(past: seq<Action>, closed: bool, log: seq<Event>, op: Op, begun: Action, o: nat) {
    && begun.Start? && op.path == begun.path && op.key == begun.key
    && (op.kind == begun.kind || (begun.kind == Put(false) && op.kind == Delete))
    && (op.stage.Generating? ==> op.kind == Delete || op.kind == Put(true))
    && (op.stage.Commanded? ==> Ordered(o) in log)
    && (op.stage.Ended? ==>
          Ordered(o) in log || GenerationDone(o, false) in past || (op.kind == Put(false) && closed))
    && (Ordered(o) in log ==> op.kind.Invalidate? || GenerationDone(o, true) in past)
    && (Ordered(o) in log ==> op.kind != Put(false) && (op.stage.Commanded? || op.stage.Ended?))
    && (GenerationDone(o, false) in past ==> !op.kind.Invalidate?)
    && (CommandDone(o) in past ==> op.stage.Ended?)
  }

  ghost predicate OpsOk(past: seq<Action>, s: State) {
    && |Starts(past)| == |s.ops| && (forall a | a in past && (a.GenerationDone? || a.CommandDone?) :: a.op < |s.ops|)
    && forall o {:trigger s.ops[o]} | 0 <= o < |s.ops| :: OpOk(past, s.closed, s.log, s.ops[o], Starts(past)[o], o)
  }

  lemma {:induction false} OpStays(past: seq<Action>, s: State, a: Action, o: nat)
    requires Enabled(s, a) && o < |s.ops| && o < |Starts(past)|
    requires OpOk(past, s.closed, s.log, s.ops[o], Starts(past)[o], o)
    ensures var t := Step(s, a);
            o < |t.ops| && OpOk(past + [a], t.closed, t.log, t.ops[o], Starts(past)[o], o)
  {
    assert forall b :: b in past + [a] <==> b in past || b == a;
    if IsOpStep(a) && a.op == o {
      OpMoves(past, s, a);
    } else {
      OthersLeaveOps(s, a, o);
    }
  }

  predicate IsOpStep(a: Action) {
    a.Drained? || a.GenerationDone? || a.CommandDone?
  }

  lemma {:induction false} OpMoves(past: seq<Action>, s: State, a: Action)
    requires Enabled(s, a) && IsOpStep(a) && a.op < |Starts(past)|
    requires OpOk(past, s.closed, s.log, s.ops[a.op], Starts(past)[a.op], a.op)
    ensures var t := Step(s, a);
            a.op < |t.ops| && OpOk(past + [a], t.closed, t.log, t.ops[a.op], Starts(past)[a.op], a.op)
  {
    assert forall b :: b in past + [a] <==> b in past || b == a;
  }

  lemma OthersLeaveOps(s: State, a: Action, o: nat)
    requires Enabled(s, a) && o < |s.ops| && !(IsOpStep(a) && a.op == o)
    ensures var t := Step(s, a);
            o < |t.ops| && t.ops[o] == s.ops[o] && (s.closed ==> t.closed)
                && (Ordered(o) in t.log <==> Ordered(o) in s.log)
  {
    hide ReadMove, LoadMove, ContinueMove, Told, Detach;
  }

  lemma NewOpOk(past: seq<Action>, s: State, a: Action)
    requires Logged(s) && OpsOk(past, s) && Enabled(s, a) && a.Start?
    ensures |Step(s, a).ops| == |s.ops| + 1
    ensures var t := Step(s, a); OpOk(past + [a], t.closed, t.log, t.ops[|s.ops|], a, |s.ops|)
  {
    assert forall b :: b in past + [a] <==> b in past || b == a;
  }

  lemma OpsCounted(s: State, a: Action)
    requires Enabled(s, a)
    ensures |Step(s, a).ops| == |s.ops| + if a.Start? then 1 else 0
  {
  }

  lemma StepKeepsOps(past: seq<Action>, s: State, a: Action)
    requires Logged(s) && OpsOk(past, s) && Enabled(s, a)
    ensures OpsOk(past + [a], Step(s, a))
  {
    hide OpOk, Step;
    var t := Step(s, a);
    StartsGrow(past, a);
    OpsCounted(s, a);
    assert forall b :: b in past + [a] <==> b in past || b == a;
    forall o | 0 <= o < |t.ops| ensures OpOk(past + [a], t.closed, t.log, t.ops[o], Starts(past + [a])[o], o) {
      if o < |s.ops| { OpStays(past, s, a, o); } else { NewOpOk(past, s, a); }
    }
  }

  lemma {:induction false} RunKeepsOps(past: seq<Action>, s: State, actions: seq<Action>, t: State)
    requires Inv(s) && OpsOk(past, s) && Run(s, actions, t)
    ensures OpsOk(past + actions, t)
    decreases |actions|
  {
    hide AllShaped, Mapped, AllServed, AllHeld, Logged, Fenced, OpsOk, Step, Enabled;
    if actions == [] {
      assert past + actions == past;
    } else {
      assert past + actions == past + [actions[0]] + actions[1..];
      StepKeepsOps(past, s, actions[0]);
      StepKeeps(s, actions[0]);
      RunKeepsOps(past + [actions[0]], Step(s, actions[0]), actions[1..], t);
    }
  }

  /** Every operation that has gone past its drain and its generation has sent its command, for the key it was begun
      with: an invalidate always, a set or delete unless the adapter gave no generation, and a set that stores
      nothing, which deletes, unless the service was closed before. No command is sent without a generation but an
      invalidate. */
  lemma {:induction false} OperationsSendTheirCommand(s: State, actions: seq<Action>, t: State, o: nat)
    requires Initial(s) && Run(s, actions, t) && o < |t.ops|
    ensures o < |Starts(actions)| && Starts(actions)[o].Start?
    ensures t.ops[o].path == Starts(actions)[o].path && t.ops[o].key == Starts(actions)[o].key
    ensures t.ops[o].stage.Commanded? || t.ops[o].stage.Ended? ==>
              || Ordered(o) in t.log
              || (GenerationDone(o, false) in actions && !Starts(actions)[o].kind.Invalidate?)
              || (Starts(actions)[o].kind == Put(false) && t.closed)
    ensures Ordered(o) in t.log ==> Starts(actions)[o].kind.Invalidate? || GenerationDone(o, true) in actions
  {
    RunKeepsOps([], s, actions, t);
    assert [] + actions == actions;
    assert OpOk(actions, t.closed, t.log, t.ops[o], Starts(actions)[o], o);
  }

  /** What an operation fenced are loads of its own key, or for an invalidate of its own namespace. */
  ghost predicate InScope(loads: seq<Load>, op: Op) {
    forall f | f in op.fenced ::
      f < |loads| && if op.kind.Invalidate? then QuoteList(op.path) + [NEWLINE] <= loads[f].id
                     else loads[f].id == FlightId(op.path, op.key)
  }

  ghost predicate FencesInScope(s: State) {
    forall o {:trigger s.ops[o].fenced} | 0 <= o < |s.ops| :: InScope(s.loads, s.ops[o])
  }

  lemma IdsStay(s: State, a: Action, f: nat)
    requires Enabled(s, a) && f < |s.loads|
    ensures f < |Step(s, a).loads| && Step(s, a).loads[f].id == s.loads[f].id
  {
    if Passive(a) { PassivePasses(s, a, f); }
  }

  /** A load newly fenced is in scope, and one fenced before was fenced by the same operation. */
  ghost predicate FencedRightly(s: State, ops: seq<Op>, o: nat, f: nat)
    requires o < |ops|
  {
    var op := ops[o];
    || (o < |s.ops| && op.kind.Invalidate? == s.ops[o].kind.Invalidate? && op.path == s.ops[o].path
        && op.key == s.ops[o].key && f in s.ops[o].fenced)
    || (f < |s.loads| && Meets(s.loads[f].id, op.path, Scope(op.kind, op.key)))
  }

  lemma DrainFences(s: State, d: nat, o: nat, f: nat)
    requires Enabled(s, Drained(d)) && o < |DrainedState(s, d).ops| && f in DrainedState(s, d).ops[o].fenced
    ensures FencedRightly(s, DrainedState(s, d).ops, o, f)
  {
  }

  lemma FencesBegin(s: State, a: Action, o: nat, f: nat)
    requires Enabled(s, a) && o < |Step(s, a).ops| && f in Step(s, a).ops[o].fenced
    ensures FencedRightly(s, Step(s, a).ops, o, f)
  {
    hide DrainedState;
    if a.Drained? { DrainFences(s, a.op, o, f); }
  }

  lemma StepFencesInScope(s: State, a: Action)
    requires FencesInScope(s) && Enabled(s, a)
    ensures FencesInScope(Step(s, a))
  {
    hide Step, Enabled;
    var t := Step(s, a);
    forall o | 0 <= o < |t.ops| ensures InScope(t.loads, t.ops[o]) {
      forall f | f in t.ops[o].fenced
        ensures f < |t.loads| && if t.ops[o].kind.Invalidate? then QuoteList(t.ops[o].path) + [NEWLINE] <= t.loads[f].id
                                 else t.loads[f].id == FlightId(t.ops[o].path, t.ops[o].key)
      {
        FencesBegin(s, a, o, f);
        if o < |s.ops| && f in s.ops[o].fenced { assert InScope(s.loads, s.ops[o]); }
        IdsStay(s, a, f);
      }
    }
  }

  lemma {:induction false} RunFencesInScope(s: State, actions: seq<Action>, t: State)
    requires FencesInScope(s) && Run(s, actions, t)
    ensures FencesInScope(t)
    decreases |actions|
  {
    hide FencesInScope, Step, Enabled;
    if actions != [] {
      StepFencesInScope(s, actions[0]);
      RunFencesInScope(Step(s, actions[0]), actions[1..], t);
    }
  }

  /** In no run does a set or delete take the right to write from a load of another key, or an invalidate from one of
      another namespace. */
  lemma {:induction false} FencesOnlyMeetTheirScope(s: State, actions: seq<Action>, t: State, o: nat, f: nat)
    requires Initial(s) && Run(s, actions, t) && o < |t.ops| && f in t.ops[o].fenced
    ensures f < |t.loads|
    ensures if t.ops[o].kind.Invalidate? then QuoteList(t.ops[o].path) + [NEWLINE] <= t.loads[f].id
            else t.loads[f].id == FlightId(t.ops[o].path, t.ops[o].key)
  {
    RunFencesInScope(s, actions, t);
    assert InScope(t.loads, t.ops[o]);
  }

  // ---- No command twice, and no standstill ----

  ghost predicate SentOnce(log: seq<Event>) {
    forall i, j | 0 <= i < j < |log| :: log[i] != log[j]
  }

  /** A reply is logged for a load whose command is answered. */
  ghost predicate RepliesAnswered(s: State) {
    forall f: nat | Reply(f) in s.log :: f < |s.loads| && s.loads[f].write.Answered?
  }

  /** What a step adds to the log, if anything. */
  ghost predicate Logs(s: State, a: Action, e: Event) {
    match e
    case Sent(f) => (a.ReadDone? || a.LoaderDone?) && a.load == f && f < |s.loads| && s.loads[f].write.Unsent?
    case Reply(f) => a.Answer? && a.load == f && f < |s.loads| && s.loads[f].write.Pending?
    case Ordered(o) => o < |s.ops| && (s.ops[o].stage.Draining? || s.ops[o].stage.Generating?)
  }

  lemma StepLogs(s: State, a: Action)
    requires AllShaped(s.loads) && Enabled(s, a)
    ensures var log := Step(s, a).log;
            log == s.log || (|log| == |s.log| + 1 && log[..|s.log|] == s.log && Logs(s, a, log[|s.log|]))
  {
    if a.ReadDone? || a.LoaderDone? { assert Shaped(s.loads[a.load]); }
  }

  lemma AnsweredStays(s: State, a: Action, f: nat)
    requires Enabled(s, a) && f < |s.loads| && Shaped(s.loads[f]) && s.loads[f].write.Answered?
    ensures f < |Step(s, a).loads| && Step(s, a).loads[f].write.Answered?
  {
    if Passive(a) { PassivePasses(s, a, f); }
  }

  lemma StepSendsOnce(s: State, a: Action)
    requires Logged(s) && RepliesAnswered(s) && SentOnce(s.log) && Enabled(s, a) && AllShaped(s.loads)
    ensures RepliesAnswered(Step(s, a)) && SentOnce(Step(s, a).log)
  {
    hide Step, Enabled;
    var t := Step(s, a);
    StepLogs(s, a);
    if t.log != s.log { assert t.log == s.log + [t.log[|s.log|]]; }
    forall f: nat | Reply(f) in t.log ensures f < |t.loads| && t.loads[f].write.Answered? {
      if Reply(f) in s.log {
        assert Shaped(s.loads[f]);
        AnsweredStays(s, a, f);
      } else {
        ReplyAnswers(s, a, f);
      }
    }
  }

  lemma ReplyAnswers(s: State, a: Action, f: nat)
    requires Enabled(s, a) && Reply(f) in Step(s, a).log && Reply(f) !in s.log
    ensures f < |Step(s, a).loads| && Step(s, a).loads[f].write.Answered?
  {
  }

  lemma {:induction false} RunSendsOnce(s: State, actions: seq<Action>, t: State)
    requires Inv(s) && RepliesAnswered(s) && SentOnce(s.log) && Run(s, actions, t)
    ensures RepliesAnswered(t) && SentOnce(t.log)
    decreases |actions|
  {
    hide AllShaped, Mapped, AllServed, AllHeld, Logged, Fenced, RepliesAnswered, SentOnce, Step, Enabled;
    if actions != [] {
      StepSendsOnce(s, actions[0]);
      StepKeeps(s, actions[0]);
      RunSendsOnce(Step(s, actions[0]), actions[1..], t);
    }
  }

  /** In no run is a load's command or an operation's sent twice. */
  lemma {:induction false} NoCommandTwice(s: State, actions: seq<Action>, t: State)
    requires Initial(s) && Run(s, actions, t)
    ensures SentOnce(t.log)
  {
    RunSendsOnce(s, actions, t);
  }

  /** The step that comes next for a load, given what the outside answers. */
  function Awaited(l: Load, f: nat): Action {
    if l.write.Pending? then Answer(f, true)
    else match l.phase
         case Reading => ReadDone(f, Miss(false))
         case Loading => LoaderDone(f, Made([]))
         case Finished(_) => Settle(f)
         case _ => Continue(f)
  }

  /** A load that has not settled always has a next step, whatever else goes on. */
  lemma LoadsNeverStick(s: State, f: nat)
    requires Inv(s) && f in s.active
    ensures f < |s.loads| && Enabled(s, Awaited(s.loads[f], f))
    ensures s.loads[f].phase.Reading? ==> forall r :: Enabled(s, ReadDone(f, r))
    ensures s.loads[f].phase.Loading? ==> forall r :: Enabled(s, LoaderDone(f, r))
    ensures s.loads[f].write.Pending? ==> forall ok :: Enabled(s, Answer(f, ok))
  {
    assert Shaped(s.loads[f]);
  }

  /** What a drain waits for has been sent. */
  ghost predicate DrainSent(loads: seq<Load>, stage: Stage) {
    stage.Draining? ==> forall f | f in stage.writes :: f < |loads| && !loads[f].write.Unsent?
  }

  ghost predicate DrainsSent(s: State) {
    forall o {:trigger s.ops[o].stage} | 0 <= o < |s.ops| :: DrainSent(s.loads, s.ops[o].stage)
  }

  lemma SentStays(s: State, a: Action, f: nat)
    requires Enabled(s, a) && f < |s.loads| && !s.loads[f].write.Unsent?
    ensures f < |Step(s, a).loads| && !Step(s, a).loads[f].write.Unsent?
  {
    if Passive(a) { PassivePasses(s, a, f); }
  }

  lemma DrainsBegin(s: State, a: Action, o: nat, f: nat)
    requires Enabled(s, a) && o < |Step(s, a).ops| && (o < |s.ops| ==> Step(s, a).ops[o] != s.ops[o])
    requires Step(s, a).ops[o].stage.Draining? && f in Step(s, a).ops[o].stage.writes
    ensures f < |s.loads| && !s.loads[f].write.Unsent?
  {
  }

  lemma StepKeepsDrains(s: State, a: Action)
    requires DrainsSent(s) && Enabled(s, a)
    ensures DrainsSent(Step(s, a))
  {
    hide Step, Enabled;
    var t := Step(s, a);
    forall o | 0 <= o < |t.ops| ensures DrainSent(t.loads, t.ops[o].stage) {
      if t.ops[o].stage.Draining? {
        forall f | f in t.ops[o].stage.writes ensures f < |t.loads| && !t.loads[f].write.Unsent? {
          if o < |s.ops| && t.ops[o] == s.ops[o] {
            assert DrainSent(s.loads, s.ops[o].stage);
          } else {
            DrainsBegin(s, a, o, f);
          }
          SentStays(s, a, f);
        }
      }
    }
  }

  lemma {:induction false} RunKeepsDrains(s: State, actions: seq<Action>, t: State)
    requires DrainsSent(s) && Run(s, actions, t)
    ensures DrainsSent(t)
    decreases |actions|
  {
    hide DrainsSent, Step, Enabled;
    if actions != [] {
      StepKeepsDrains(s, actions[0]);
      RunKeepsDrains(Step(s, actions[0]), actions[1..], t);
    }
  }

  /** An operation waits for nothing but answers to commands that were sent: it goes on at once, or one of them is
      due. */
  lemma {:induction false} OperationsNeverStick(s: State, actions: seq<Action>, t: State, o: nat)
    requires Initial(s) && Run(s, actions, t) && o < |t.ops| && !t.ops[o].stage.Ended?
    ensures || Enabled(t, Drained(o)) || Enabled(t, CommandDone(o))
            || (Enabled(t, GenerationDone(o, true)) && Enabled(t, GenerationDone(o, false)))
            || (t.ops[o].stage.Draining? && exists f :: f in t.ops[o].stage.writes && Enabled(t, Answer(f, true)))
  {
    RunKeepsDrains(s, actions, t);
    if t.ops[o].stage.Draining? && !AllAnswered(t.loads, t.ops[o].stage.writes) {
      var f :| f in t.ops[o].stage.writes && !(f < |t.loads| && t.loads[f].write.Answered?);
      assert DrainSent(t.loads, t.ops[o].stage);
      assert Enabled(t, Answer(f, true));
    }
  }

  // ---- The second fence of a set that stores nothing ----

  /** Loads in flight when such a set goes on as a delete do not overtake that delete either. */
  lemma {:induction false} SecondFenceHolds(s: State, o: nat, actions: seq<Action>, t: State, f: nat, p: seq<Text>,
      i: nat)
    requires Inv(s) && !s.closed && Enabled(s, Drained(o)) && s.ops[o].kind == Put(false)
    requires Run(Step(s, Drained(o)), actions, t)
    requires f in s.active && f < |s.loads| && s.loads[f].id == FlightId(p, s.ops[o].key)
    requires QuoteList(p) == QuoteList(s.ops[o].path) && i < |t.log| && t.log[i] == Ordered(o)
    ensures forall j | i < j < |t.log| :: t.log[j] != Sent(f)
    ensures Sent(f) in t.log[..i] ==> Reply(f) in t.log[..i]
  {
    var m := Step(s, Drained(o));
    FenceMeetsExactly(s, s.ops[o].path, Some(s.ops[o].key), f, p, s.ops[o].key);
    StepKeeps(s, Drained(o));
    RunKeeps(m, actions, t);
    FencesStayForRuns(m, actions, t, o, {f});
    assert Before(t.log, i, t.ops[o].fenced);
  }
}
