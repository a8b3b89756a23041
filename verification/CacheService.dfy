/** The cache service: loads shared by many callers, write fences, and one step for every stretch between two awaits.

    A load is the source's flight together with the promise that runs it; it is named by its place in the list of loads.
    Rejected calls change nothing and are no steps. */
module CacheService {
  import opened Basics
  import opened JsonText

  datatype Error = Aborted | Backend | Closed | Busy | Other(code: nat)
  datatype Outcome = Value(text: Text) | Failed(error: Error)

  /** A load's own adapter command. One skipped for want of a generation counts as answered. */
  datatype Write = Unsent | Pending | Answered(ok: bool)

  datatype Phase =
    | Reading
    | Deleting
    | Loading
    | Storing(text: Text)
    | Finished(outcome: Outcome)
    | Settled(outcome: Outcome)

  /** `lasting` is a time to live above zero; `known` says that a generation was read. */
  datatype Load = Load(id: Text, lasting: bool, writable: bool, aborted: bool, known: bool, write: Write, phase: Phase,
                       waiters: set<nat>)

  /** A caller of getOrSet and every settlement of its promise. */
  datatype Waiter = Waiter(load: nat, results: seq<Outcome>)

  datatype Kind = Put(lasting: bool) | Delete | Invalidate
  datatype Stage = Draining(writes: set<nat>) | Generating | Commanded | Ended

  /** A set, delete or invalidate, with the loads its fence met. */
  datatype Op = Op(kind: Kind, path: seq<Text>, key: Text, stage: Stage, fenced: set<nat>)

  /** Adapter commands in the order they are sent and answered. */
  datatype Event = Sent(load: nat) | Reply(load: nat) | Ordered(op: nat)

  datatype State = State(limit: nat, strict: bool, closed: bool, flights: map<Text, nat>, active: set<nat>,
      loads: seq<Load>, waiters: seq<Waiter>, ops: seq<Op>, log: seq<Event>)

  datatype Lookup = Hit(encoded: Outcome) | Miss(known: bool) | Broken
  datatype Loaded = Threw(error: Error) | Unencodable(error: Error) | Made(text: Text)

  function FlightId(path: seq<Text>, key: Text): Text {
    LoadId(QuoteList(path), key)
  }

  // ---- The steps of one load ----

  /** A load after its read, loader or own command, and the command it sends, if any. */
  datatype Move = Move(load: Load, sends: bool)

  function Finish(l: Load, outcome: Outcome): Move {
    Move(l.(phase := Finished(outcome)), false)
  }

  function ToLoader(l: Load): Move {
    if l.aborted then Finish(l, Failed(Aborted)) else Move(l.(phase := Loading), false)
  }

  function ReadMove(l: Load, r: Lookup, closed: bool): Move {
    if r.Broken? then Finish(l, Failed(Backend))
    else if l.lasting && r.Hit? then Finish(l, r.encoded)
    else
      var next := l.(known := r.Hit? || r.known);
      if !l.lasting && next.known && l.writable && !closed && !l.aborted
      then Move(next.(write := Pending, phase := Deleting), true)
      else ToLoader(next)
  }

  function ContinueMove(l: Load, strict: bool): Move
    requires l.write.Answered? && (l.phase.Deleting? || l.phase.Storing?)
  {
    if !l.write.ok && strict then Finish(l, Failed(Backend))
    else if l.phase.Deleting? then ToLoader(l)
    else Finish(l, Value(l.phase.text))
  }

  function LoadMove(l: Load, r: Loaded, closed: bool): Move {
    if r.Threw? then Finish(l, Failed(r.error))
    else if l.aborted then Finish(l, Failed(Aborted))
    else if r.Unencodable? then Finish(l, Failed(r.error))
    else if l.lasting && l.writable && !closed then
      if l.known then Move(l.(write := Pending, phase := Storing(r.text)), true)
      else Move(l.(write := Answered(true), phase := Storing(r.text)), false)
    else Finish(l, Value(r.text))
  }

  function Moved(s: State, f: nat, m: Move): State
    requires f < |s.loads|
  {
    s.(loads := s.loads[f := m.load], log := if m.sends then s.log + [Sent(f)] else s.log)
  }

  /** The adapter answers the load's own command. */
  function Replied(s: State, f: nat, ok: bool): State
    requires f < |s.loads|
  {
    s.(loads := s.loads[f := s.loads[f].(write := Answered(ok))], log := s.log + [Reply(f)])
  }

  // ---- Loads and waiters ----

  function Detach(flights: map<Text, nat>, gone: set<nat>): map<Text, nat> {
    map id | id in flights && flights[id] !in gone :: flights[id]
  }

  function Told(waiters: seq<Waiter>, who: set<nat>, outcome: Outcome): seq<Waiter> {
    seq(|waiters|, w requires 0 <= w < |waiters| =>
      if w in who then waiters[w].(results := waiters[w].results + [outcome]) else waiters[w])
  }

  function SettledState(s: State, f: nat): State
    requires f < |s.loads| && s.loads[f].phase.Finished?
  {
    var l := s.loads[f];
    s.(active := s.active - {f}, flights := Detach(s.flights, {f}),
       loads := s.loads[f := l.(phase := Settled(l.phase.outcome), waiters := {})],
       waiters := Told(s.waiters, l.waiters, l.phase.outcome))
  }

  function JoinedState(s: State, f: nat): State
    requires f < |s.loads|
  {
    var w := |s.waiters|;
    s.(waiters := s.waiters + [Waiter(f, [])], loads := s.loads[f := s.loads[f].(waiters := s.loads[f].waiters + {w})])
  }

  function OpenedState(s: State, id: Text, lasting: bool): State {
    var f := |s.loads|;
    s.(active := s.active + {f}, flights := s.flights[id := f], waiters := s.waiters + [Waiter(f, [])],
       loads := s.loads + [Load(id, lasting, true, false, false, Unsent, Reading, {|s.waiters|})])
  }

  predicate Waiting(s: State, w: nat) {
    w < |s.waiters| && s.waiters[w].load < |s.loads| && w in s.loads[s.waiters[w].load].waiters
  }

  /** One caller gives up; the last one takes the load with it. */
  function AbortedState(s: State, w: nat): State
    requires Waiting(s, w)
  {
    var f := s.waiters[w].load;
    var l := s.loads[f].(waiters := s.loads[f].waiters - {w});
    var told := s.(waiters := Told(s.waiters, {w}, Failed(Aborted)));
    if l.waiters != {} then told.(loads := s.loads[f := l])
    else told.(loads := s.loads[f := l.(writable := false, aborted := true)], flights := Detach(s.flights, {f}))
  }

  /** The callers still listed for some of the loads. */
  function CallersOf(loads: seq<Load>, waiters: seq<Waiter>, among: set<nat>): set<nat> {
    set w | 0 <= w < |waiters| && waiters[w].load in among && waiters[w].load < |loads|
        && w in loads[waiters[w].load].waiters
  }

  /** Some loads cut off from their callers and the adapter. */
  function Cut(loads: seq<Load>, gone: set<nat>): seq<Load> {
    seq(|loads|, f requires 0 <= f < |loads| =>
      if f in gone then loads[f].(writable := false, aborted := true, waiters := {}) else loads[f])
  }

  function ClosedState(s: State): State {
    s.(closed := true, flights := map[], loads := Cut(s.loads, s.active),
       waiters := Told(s.waiters, CallersOf(s.loads, s.waiters, s.active), Failed(Aborted)))
  }

  // ---- Fences ----

  /** Whether a fence of the namespace, or of one key in it, meets a load's id. */
  predicate Meets(id: Text, path: seq<Text>, key: Option<Text>) {
    if key.None? then QuoteList(path) + [NEWLINE] <= id else id == QuoteList(path) + [NEWLINE] + key.value
  }

  function Met(s: State, path: seq<Text>, key: Option<Text>): set<nat> {
    set f | f in s.active && f < |s.loads| && Meets(s.loads[f].id, path, key)
  }

  function Barred(loads: seq<Load>, gone: set<nat>): seq<Load> {
    seq(|loads|, f requires 0 <= f < |loads| => if f in gone then loads[f].(writable := false) else loads[f])
  }

  /** The dispatched commands among some loads, answered or not. */
  function Dispatched(loads: seq<Load>, among: set<nat>): set<nat> {
    set f | f in among && f < |loads| && loads[f].write != Unsent
  }

  function Scope(kind: Kind, key: Text): Option<Text> {
    if kind.Invalidate? then None else Some(key)
  }

  function StartedState(s: State, kind: Kind, path: seq<Text>, key: Text): State {
    var gone := Met(s, path, Scope(kind, key));
    s.(loads := Barred(s.loads, gone), flights := Detach(s.flights, gone),
       ops := s.ops + [Op(kind, path, key, Draining(Dispatched(s.loads, gone)), gone)])
  }

  /** The second fence of a set that stores nothing: it goes on as a delete. */
  function FencedAgain(s: State, o: nat): State
    requires o < |s.ops|
  {
    var op := s.ops[o];
    var gone := Met(s, op.path, Some(op.key));
    s.(loads := Barred(s.loads, gone), flights := Detach(s.flights, gone),
       ops := s.ops[o := op.(kind := Delete, stage := Draining(Dispatched(s.loads, gone)), fenced := op.fenced + gone)])
  }

  predicate AllAnswered(loads: seq<Load>, writes: set<nat>) {
    forall f | f in writes :: f < |loads| && loads[f].write.Answered?
  }

  function Staged(s: State, o: nat, stage: Stage): State
    requires o < |s.ops|
  {
    s.(ops := s.ops[o := s.ops[o].(stage := stage)], log := if stage.Commanded? then s.log + [Ordered(o)] else s.log)
  }

  function DrainedState(s: State, o: nat): State
    requires o < |s.ops|
  {
    var op := s.ops[o];
    if op.kind.Invalidate? then Staged(s, o, Commanded)
    else if op.kind.Delete? || op.kind.lasting then Staged(s, o, Generating)
    else if s.closed then Staged(s, o, Ended)
    else FencedAgain(s, o)
  }
}
