/** Where every answer of the cache service comes from, and which commands it owes, told from all steps of a run. */
module CacheHistory {
  import opened Basics
  import opened JsonText
  import opened CacheService
  import opened CacheRuns

  // ---- What a run so far says of one load ----

  predicate HasRead(past: seq<Action>, f: nat) {
    exists a :: a in past && a.ReadDone? && a.load == f
  }

  predicate HasLoaded(past: seq<Action>, f: nat) {
    exists a :: a in past && a.LoaderDone? && a.load == f
  }

  predicate HasMade(past: seq<Action>, f: nat) {
    exists a :: a in past && a.LoaderDone? && a.load == f && a.loaded.Made?
  }

  predicate HasHit(past: seq<Action>, f: nat) {
    exists a :: a in past && a.ReadDone? && a.load == f && a.lookup.Hit?
  }

  /** The read of a load found a generation. */
  predicate FoundGeneration(past: seq<Action>, f: nat) {
    HasHit(past, f) || ReadDone(f, Miss(true)) in past
  }

  /** Somebody asked for this key with this kind of time to live. */
  ghost predicate AskedFor(past: seq<Action>, id: Text, lasting: bool) {
    exists path, key :: GetOrSet(path, key, lasting) in past && id == FlightId(path, key)
  }

  /** A value was made by the load's loader, or found by its read when it may use one. An error was thrown by the
      loader, met while encoding or brought by the adapter. */
  predicate Brought(past: seq<Action>, strict: bool, f: nat, lasting: bool, o: Outcome) {
    match o
    case Value(x) =>
      || (LoaderDone(f, Made(x)) in past && !(strict && Answer(f, false) in past))
      || (lasting && ReadDone(f, Hit(Value(x))) in past)
    case Failed(e) =>
      || LoaderDone(f, Threw(e)) in past || LoaderDone(f, Unencodable(e)) in past
      || (lasting && ReadDone(f, Hit(Failed(e))) in past)
      || (e == Backend && (ReadDone(f, Broken) in past || (strict && Answer(f, false) in past)))
  }

  ghost predicate Done(l: Load) {
    l.phase.Finished? || l.phase.Settled?
  }

  ghost predicate Accounted(past: seq<Action>, strict: bool, l: Load, f: nat) {
    && AskedFor(past, l.id, l.lasting)
    && (l.phase.Reading? <==> !HasRead(past, f))
    && (!Done(l) ==> (l.known <==> FoundGeneration(past, f)))
    && (l.phase.Loading? || l.phase.Reading? || l.phase.Deleting? ==> !HasLoaded(past, f))
    && (l.lasting && HasHit(past, f) ==> Done(l) && !HasLoaded(past, f))
    && (l.phase.Storing? ==> LoaderDone(f, Made(l.phase.text)) in past)
    && (Done(l) ==> Brought(past, strict, f, l.lasting, l.phase.outcome)
                    || (l.aborted && l.phase.outcome == Failed(Aborted)))
    && (forall ok :: Answer(f, ok) in past ==> l.write == Answered(ok))
    && (l.write == Answered(false) ==> Answer(f, false) in past)
    && (strict && l.write == Answered(false) ==>
          l.phase.Deleting? || l.phase.Storing? || (Done(l) && l.phase.outcome == Failed(Backend)))
  }

  ghost predicate AllAccounted(past: seq<Action>, s: State) {
    && (forall f {:trigger Accounted(past, s.strict, s.loads[f], f)} | 0 <= f < |s.loads| ::
          Accounted(past, s.strict, s.loads[f], f))
    && (forall a | a in past && (a.ReadDone? || a.LoaderDone? || a.Answer?) :: a.load < |s.loads|)
  }

  // ---- Every step accounts for what it does ----

  /** A step that is no read, loader or continuation of this load leaves what it has found and made. */
  ghost predicate Passes(a: Action, f: nat, l: Load, m: Load) {
    && m.id == l.id && m.lasting == l.lasting && m.known == l.known
    && (m.phase == l.phase || (l.phase.Finished? && m.phase == Settled(l.phase.outcome)))
    && (l.aborted ==> m.aborted)
    && (if a.Answer? && a.load == f then l.write.Pending? && m.write == Answered(a.ok) else m.write == l.write)
  }

  ghost predicate Concerns(a: Action, f: nat) {
    (a.ReadDone? || a.LoaderDone?) && a.load == f
  }

  lemma PastGrows(past: seq<Action>, a: Action, f: nat)
    requires !Concerns(a, f)
    ensures HasRead(past + [a], f) == HasRead(past, f) && HasLoaded(past + [a], f) == HasLoaded(past, f)
    ensures HasHit(past + [a], f) == HasHit(past, f) && FoundGeneration(past + [a], f) == FoundGeneration(past, f)
    ensures HasMade(past + [a], f) == HasMade(past, f)
  {
    assert forall b | Concerns(b, f) :: b in past + [a] <==> b in past;
  }

  lemma AskedStays(past: seq<Action>, a: Action, id: Text, lasting: bool)
    requires AskedFor(past, id, lasting)
    ensures AskedFor(past + [a], id, lasting)
  {
    var path, key :| GetOrSet(path, key, lasting) in past && id == FlightId(path, key);
    assert GetOrSet(path, key, lasting) in past + [a];
  }

  lemma PassingStaysAccounted(past: seq<Action>, a: Action, strict: bool, l: Load, m: Load, f: nat)
    requires Accounted(past, strict, l, f) && Shaped(l) && Passes(a, f, l, m) && !Concerns(a, f)
    ensures Accounted(past + [a], strict, m, f)
  {
    PastGrows(past, a, f);
    AskedStays(past, a, l.id, l.lasting);
    assert forall b :: b in past + [a] <==> b in past || b == a;
  }

  /** The steps that do no work of a load's own. */
  predicate Passive(a: Action) {
    !a.GetOrSet? && !a.ReadDone? && !a.LoaderDone? && !a.Continue?
  }

  lemma PassivePasses(s: State, a: Action, f: nat)
    requires Enabled(s, a) && Passive(a) && f < |s.loads|
    ensures |Step(s, a).loads| == |s.loads| && Step(s, a).strict == s.strict
    ensures Passes(a, f, s.loads[f], Step(s, a).loads[f])
  {
    match a
    case Start(_, _, _) =>
    case Drained(_) =>
    case _ =>
  }

  lemma PassiveAccounted(past: seq<Action>, s: State, a: Action)
    requires AllShaped(s.loads) && AllAccounted(past, s) && Enabled(s, a) && Passive(a)
    ensures AllAccounted(past + [a], Step(s, a))
  {
    hide Step, Accounted;
    var t := Step(s, a);
    assert |t.loads| == |s.loads| && t.strict == s.strict by { PassiveKeepsCount(s, a); }
    forall f | 0 <= f < |t.loads| ensures Accounted(past + [a], t.strict, t.loads[f], f) {
      PassivePasses(s, a, f);
      assert Shaped(s.loads[f]);
      PassingStaysAccounted(past, a, s.strict, s.loads[f], t.loads[f], f);
    }
  }

  lemma PassiveKeepsCount(s: State, a: Action)
    requires Enabled(s, a) && Passive(a)
    ensures |Step(s, a).loads| == |s.loads| && Step(s, a).strict == s.strict
  {
  }

  /** A step of load `f` leaves every other load accounted for. */
  lemma OthersStayAccounted(past: seq<Action>, s: State, a: Action, t: State, f: nat)
    requires AllShaped(s.loads) && AllAccounted(past, s) && f < |s.loads| == |t.loads|
    requires (a.ReadDone? || a.LoaderDone? || a.Continue?) && a.load == f
    requires t.strict == s.strict && t.loads == s.loads[f := t.loads[f]]
    requires Accounted(past + [a], t.strict, t.loads[f], f)
    ensures AllAccounted(past + [a], t)
  {
    forall g | 0 <= g < |t.loads| ensures Accounted(past + [a], t.strict, t.loads[g], g) {
      if g != f {
        assert Shaped(s.loads[g]) && Accounted(past, s.strict, s.loads[g], g);
        PassingStaysAccounted(past, a, s.strict, s.loads[g], t.loads[g], g);
      }
    }
  }

  lemma FirstRead(past: seq<Action>, f: nat, r: Lookup)
    requires !HasRead(past, f) && !HasLoaded(past, f)
    ensures var now := past + [ReadDone(f, r)];
            && HasRead(now, f) && !HasLoaded(now, f) && (HasHit(now, f) <==> r.Hit?)
            && (FoundGeneration(now, f) <==> r.Hit? || r == Miss(true))
  {
    var now := past + [ReadDone(f, r)];
    assert ReadDone(f, r) in now;
    assert forall b :: b in now <==> b in past || b == ReadDone(f, r);
  }

  lemma ReadAccounted(past: seq<Action>, strict: bool, l: Load, f: nat, r: Lookup, closed: bool)
    requires Accounted(past, strict, l, f) && Shaped(l) && l.phase.Reading?
    ensures Accounted(past + [ReadDone(f, r)], strict, ReadMove(l, r, closed).load, f)
  {
    var a := ReadDone(f, r);
    FirstRead(past, f, r);
    AskedStays(past, a, l.id, l.lasting);
    assert forall b :: b in past + [a] <==> b in past || b == a;
  }

  lemma FirstLoad(past: seq<Action>, f: nat, r: Loaded)
    ensures var now := past + [LoaderDone(f, r)];
            && HasRead(now, f) == HasRead(past, f) && HasLoaded(now, f)
            && HasHit(now, f) == HasHit(past, f) && FoundGeneration(now, f) == FoundGeneration(past, f)
  {
    var now := past + [LoaderDone(f, r)];
    assert LoaderDone(f, r) in now;
    assert forall b :: b in now <==> b in past || b == LoaderDone(f, r);
  }

  lemma LoadAccounted(past: seq<Action>, strict: bool, l: Load, f: nat, r: Loaded, closed: bool)
    requires Accounted(past, strict, l, f) && Shaped(l) && l.phase.Loading?
    ensures Accounted(past + [LoaderDone(f, r)], strict, LoadMove(l, r, closed).load, f)
  {
    var a := LoaderDone(f, r);
    FirstLoad(past, f, r);
    AskedStays(past, a, l.id, l.lasting);
    assert forall b :: b in past + [a] <==> b in past || b == a;
  }

  lemma ContinueAccounted(past: seq<Action>, strict: bool, l: Load, f: nat)
    requires Accounted(past, strict, l, f) && Shaped(l)
    requires l.write.Answered? && (l.phase.Deleting? || l.phase.Storing?)
    ensures Accounted(past + [Continue(f)], strict, ContinueMove(l, strict).load, f)
  {
    var a := Continue(f);
    PastGrows(past, a, f);
    AskedStays(past, a, l.id, l.lasting);
    assert forall b :: b in past + [a] <==> b in past || b == a;
  }

  lemma WorkAccounted(past: seq<Action>, s: State, a: Action)
    requires AllShaped(s.loads) && AllAccounted(past, s) && Enabled(s, a)
    requires a.ReadDone? || a.LoaderDone? || a.Continue?
    ensures AllAccounted(past + [a], Step(s, a))
  {
    hide Accounted;
    var f := a.load;
    assert Shaped(s.loads[f]) && Accounted(past, s.strict, s.loads[f], f);
    if a.ReadDone? {
      ReadAccounted(past, s.strict, s.loads[f], f, a.lookup, s.closed);
    } else if a.LoaderDone? {
      LoadAccounted(past, s.strict, s.loads[f], f, a.loaded, s.closed);
    } else {
      ContinueAccounted(past, s.strict, s.loads[f], f);
    }
    OthersStayAccounted(past, s, a, Step(s, a), f);
  }

  lemma CallAccounted(past: seq<Action>, s: State, path: seq<Text>, key: Text, lasting: bool)
    requires AllShaped(s.loads) && AllAccounted(past, s) && Enabled(s, GetOrSet(path, key, lasting))
    ensures AllAccounted(past + [GetOrSet(path, key, lasting)], Step(s, GetOrSet(path, key, lasting)))
  {
    var a := GetOrSet(path, key, lasting);
    var t := Step(s, a);
    assert a in past + [a];
    forall f | 0 <= f < |t.loads| ensures Accounted(past + [a], t.strict, t.loads[f], f) {
      PastGrows(past, a, f);
      if f < |s.loads| {
        assert Accounted(past, s.strict, s.loads[f], f) && Shaped(s.loads[f]);
        PassingStaysAccounted(past, a, s.strict, s.loads[f], t.loads[f], f);
      } else {
        assert !HasRead(past, f) && !HasLoaded(past, f);
        assert t.loads[f].id == FlightId(path, key);
      }
    }
  }

  lemma StepAccounted(past: seq<Action>, s: State, a: Action)
    requires AllShaped(s.loads) && AllAccounted(past, s) && Enabled(s, a)
    ensures AllAccounted(past + [a], Step(s, a))
  {
    hide AllAccounted, Step;
    if Passive(a) { PassiveAccounted(past, s, a); }
    else if a.GetOrSet? { CallAccounted(past, s, a.path, a.key, a.lasting); }
    else { WorkAccounted(past, s, a); }
  }

  lemma {:induction false} RunAccounted(past: seq<Action>, s: State, actions: seq<Action>, t: State)
    requires Inv(s) && AllAccounted(past, s) && Run(s, actions, t)
    ensures Inv(t) && AllAccounted(past + actions, t)
    decreases |actions|
  {
    hide AllAccounted, Step, Enabled, AllShaped, Mapped, AllServed, AllHeld, Logged, Fenced;
    if actions == [] {
      assert past + actions == past;
    } else {
      assert past + actions == past + [actions[0]] + actions[1..];
      StepAccounted(past, s, actions[0]);
      StepKeeps(s, actions[0]);
      RunAccounted(past + [actions[0]], Step(s, actions[0]), actions[1..], t);
    }
  }

  // ---- Callers ----

  /** The calls of getOrSet that were let in, in order: the caller of each has its place. */
  function Calls(past: seq<Action>): seq<Action> {
    if past == [] then []
    else if past[|past| - 1].GetOrSet? then Calls(past[..|past| - 1]) + [past[|past| - 1]]
    else Calls(past[..|past| - 1])
  }

  /** A caller waits for a load of its own key. What it was told is the outcome of a load nobody cut short, unless it
      gave up itself or the service was closed. */
  ghost predicate CallerOk(past: seq<Action>, s: State, w: nat)
    requires w < |s.waiters|
  {
    var f := s.waiters[w].load;
    && f < |s.loads|
    && w < |Calls(past)| && Calls(past)[w].GetOrSet?
    && s.loads[f].id == FlightId(Calls(past)[w].path, Calls(past)[w].key)
    && (s.waiters[w].results != [] ==>
          || (s.waiters[w].results == [Failed(Aborted)] && (Abort(w) in past || Close in past))
          || (s.loads[f].phase.Settled? && s.waiters[w].results == [s.loads[f].phase.outcome] && !s.loads[f].aborted))
  }

  ghost predicate CallersOk(past: seq<Action>, s: State) {
    |Calls(past)| == |s.waiters| && forall w {:trigger CallerOk(past, s, w)} | 0 <= w < |s.waiters| ::
        CallerOk(past, s, w)
  }

  lemma {:induction false} CallsGrow(past: seq<Action>, a: Action)
    ensures Calls(past + [a]) == if a.GetOrSet? then Calls(past) + [a] else Calls(past)
  {
    assert (past + [a])[..|past|] == past;
  }

  /** What a caller has heard, and whom it waits for, after a step. */
  ghost predicate HearsRightly(s: State, a: Action, t: State, w: nat)
    requires w < |s.waiters| && s.waiters[w].load < |s.loads|
  {
    var f := s.waiters[w].load;
    && w < |t.waiters| && t.waiters[w].load == f && f < |t.loads| && t.loads[f].id == s.loads[f].id
    && (s.loads[f].phase.Settled? ==> t.loads[f].phase == s.loads[f].phase && t.loads[f].aborted == s.loads[f].aborted)
    && (t.waiters[w].results == s.waiters[w].results
        || (t.waiters[w].results == [Failed(Aborted)] && (a == Abort(w) || a == Close))
        || (a == Settle(f) && !s.loads[f].aborted && t.loads[f].phase.Settled? && !t.loads[f].aborted
            && t.waiters[w].results == [t.loads[f].phase.outcome]))
  }

  /** A load's own work and a fence tell nobody anything. */
  lemma WorkHears(s: State, a: Action, w: nat)
    requires Enabled(s, a) && (a.ReadDone? || a.Answer? || a.Continue? || a.LoaderDone?)
    requires w < |s.waiters| && s.waiters[w].load < |s.loads|
    ensures HearsRightly(s, a, Step(s, a), w)
  {
  }

  lemma CallHears(s: State, a: Action, w: nat)
    requires Enabled(s, a) && a.GetOrSet? && w < |s.waiters| && s.waiters[w].load < |s.loads|
    ensures HearsRightly(s, a, Step(s, a), w)
  {
  }

  lemma FenceHears(s: State, a: Action, w: nat)
    requires Enabled(s, a) && (a.Start? || a.Drained? || a.GenerationDone? || a.CommandDone?)
    requires w < |s.waiters| && s.waiters[w].load < |s.loads|
    ensures HearsRightly(s, a, Step(s, a), w)
  {
  }

  lemma AbortHears(s: State, v: nat, w: nat)
    requires Enabled(s, Abort(v)) && AllShaped(s.loads) && w < |s.waiters| && Served(s.loads, s.waiters, w)
    ensures HearsRightly(s, Abort(v), AbortedState(s, v), w)
  {
    assert Shaped(s.loads[s.waiters[v].load]);
  }

  lemma CloseHears(s: State, w: nat)
    requires Mapped(s) && w < |s.waiters| && Served(s.loads, s.waiters, w)
    ensures HearsRightly(s, Close, ClosedState(s), w)
  {
    assert s.waiters[w].load in s.active <==> !s.loads[s.waiters[w].load].phase.Settled?;
  }

  lemma SettleHears(s: State, f: nat, w: nat)
    requires Enabled(s, Settle(f)) && AllShaped(s.loads) && w < |s.waiters| && Served(s.loads, s.waiters, w)
    requires Belong(s.loads[f].waiters, s.waiters, f)
    ensures HearsRightly(s, Settle(f), SettledState(s, f), w)
  {
    assert Shaped(s.loads[f]);
  }

  lemma StepHearsRightly(s: State, a: Action, w: nat)
    requires Inv(s) && Enabled(s, a) && w < |s.waiters|
    ensures s.waiters[w].load < |s.loads| && HearsRightly(s, a, Step(s, a), w)
  {
    hide AllHeld, Logged, Fenced, HearsRightly;
    assert Served(s.loads, s.waiters, w) && Shaped(s.loads[s.waiters[w].load]);
    match a
    case Abort(v) => AbortHears(s, v, w);
    case Close => CloseHears(s, w);
    case Settle(f) => SettleHears(s, f, w);
    case GetOrSet(_, _, _) => CallHears(s, a, w);
    case ReadDone(_, _) => WorkHears(s, a, w);
    case Answer(_, _) => WorkHears(s, a, w);
    case Continue(_) => WorkHears(s, a, w);
    case LoaderDone(_, _) => WorkHears(s, a, w);
    case _ => FenceHears(s, a, w);
  }

  lemma StepKeepsCallers(past: seq<Action>, s: State, a: Action)
    requires Inv(s) && CallersOk(past, s) && Enabled(s, a)
    ensures CallersOk(past + [a], Step(s, a))
  {
    var t := Step(s, a);
    CallsGrow(past, a);
    assert forall b :: b in past + [a] <==> b in past || b == a;
    forall w | 0 <= w < |s.waiters| ensures w < |t.waiters| && CallerOk(past + [a], t, w) {
      assert CallerOk(past, s, w);
      StepHearsRightly(s, a, w);
    }
    if a.GetOrSet? { NewCallerOk(past, s, a); }
    CallersCounted(s, a);
  }

  lemma CallersCounted(s: State, a: Action)
    requires Enabled(s, a)
    ensures |Step(s, a).waiters| == |s.waiters| + if a.GetOrSet? then 1 else 0
  {
  }

  lemma NewCallerOk(past: seq<Action>, s: State, a: Action)
    requires Mapped(s) && CallersOk(past, s) && Enabled(s, a) && a.GetOrSet?
    ensures |Step(s, a).waiters| == |s.waiters| + 1 && CallerOk(past + [a], Step(s, a), |s.waiters|)
  {
    CallsGrow(past, a);
  }

  lemma {:induction false} RunKeepsCallers(past: seq<Action>, s: State, actions: seq<Action>, t: State)
    requires Inv(s) && CallersOk(past, s) && Run(s, actions, t)
    ensures CallersOk(past + actions, t)
    decreases |actions|
  {
    hide Inv, CallersOk, Step, Enabled;
    if actions == [] {
      assert past + actions == past;
    } else {
      assert past + actions == past + [actions[0]] + actions[1..];
      StepKeepsCallers(past, s, actions[0]);
      StepKeeps(s, actions[0]);
      RunKeepsCallers(past + [actions[0]], Step(s, actions[0]), actions[1..], t);
    }
  }

  // ---- Where answers come from ----

  lemma {:induction false} ReachableAccounted(s: State, actions: seq<Action>, t: State)
    requires Initial(s) && Run(s, actions, t)
    ensures Inv(t) && AllAccounted(actions, t) && CallersOk(actions, t)
  {
    RunAccounted([], s, actions, t);
    RunKeepsCallers([], s, actions, t);
    assert [] + actions == actions;
  }

  /** Every caller is answered at most once, with a load of its own key, and every answer has its source in the run: the
      load's loader, its read, the encoding or the adapter, or an abort of this very caller or of the whole service. */
  lemma {:induction false} EveryAnswerHasASource(s: State, actions: seq<Action>, t: State, w: nat)
    requires Initial(s) && Run(s, actions, t) && w < |t.waiters| && t.waiters[w].results != []
    ensures t.waiters[w].load < |t.loads| && |t.waiters[w].results| == 1
    ensures |Calls(actions)| == |t.waiters| && Calls(actions)[w].GetOrSet?
    ensures t.loads[t.waiters[w].load].id == FlightId(Calls(actions)[w].path, Calls(actions)[w].key)
    ensures var f, o := t.waiters[w].load, t.waiters[w].results[0];
            || (o == Failed(Aborted) && (Abort(w) in actions || Close in actions))
            || Brought(actions, t.strict, f, t.loads[f].lasting, o)
  {
    hide AllShaped, Mapped, AllHeld, Logged, Fenced;
    ReachableAccounted(s, actions, t);
    assert CallerOk(actions, t, w) && Served(t.loads, t.waiters, w);
    assert Accounted(actions, t.strict, t.loads[t.waiters[w].load], t.waiters[w].load);
  }

  /** A load that may use what its read found does so, and never calls its loader. */
  lemma {:induction false} HitNeverCallsLoader(s: State, actions: seq<Action>, t: State, f: nat)
    requires Initial(s) && Run(s, actions, t) && f < |t.loads| && t.loads[f].lasting && HasHit(actions, f)
    ensures !HasLoaded(actions, f) && Done(t.loads[f])
    ensures Brought(actions, t.strict, f, true, t.loads[f].phase.outcome) || t.loads[f].aborted
  {
    hide AllShaped, Mapped, AllHeld, Logged, Fenced;
    ReachableAccounted(s, actions, t);
    assert Accounted(actions, t.strict, t.loads[f], f);
  }

  /** A load has the time to live that a caller of its key asked for. */
  lemma {:induction false} LoadsWereAskedFor(s: State, actions: seq<Action>, t: State, f: nat)
    requires Initial(s) && Run(s, actions, t) && f < |t.loads|
    ensures AskedFor(actions, t.loads[f].id, t.loads[f].lasting)
  {
    hide AllShaped, Mapped, AllHeld, Logged, Fenced;
    ReachableAccounted(s, actions, t);
    assert Accounted(actions, t.strict, t.loads[f], f);
  }

  // ---- Aborted loads ----

  /** No step takes an aborted load to its loader, and what a loader brings to an aborted load is thrown away. */
  lemma AbortedStepsAside(s: State, a: Action, f: nat)
    requires Enabled(s, a) && f < |s.loads| && s.loads[f].aborted
    ensures f < |Step(s, a).loads| && Step(s, a).loads[f].aborted
    ensures !s.loads[f].phase.Loading? ==> !Step(s, a).loads[f].phase.Loading?
    ensures a.LoaderDone? && a.load == f ==>
              Step(s, a).loads[f].phase.Finished? && Step(s, a).loads[f].phase.outcome.Failed?
  {
    if Passive(a) { PassivePasses(s, a, f); }
  }

  /** A load aborted before its loader was called never calls it. */
  lemma {:induction false} AbortedNeverLoads(s: State, actions: seq<Action>, t: State, f: nat)
    requires Run(s, actions, t) && f < |s.loads| && s.loads[f].aborted && !s.loads[f].phase.Loading?
    ensures !HasLoaded(actions, f)
    decreases |actions|
  {
    hide Step;
    if actions != [] {
      AbortedStepsAside(s, actions[0], f);
      AbortedNeverLoads(Step(s, actions[0]), actions[1..], t, f);
      assert actions == [actions[0]] + actions[1..];
    }
  }
}
