/** Concurrent role mutations: any number of managers read the store, compute a change and swap it in. Whatever their
    order, nobody ends up with more than what they had and what the supplied authorities cover. */
module RoleRuns {
  import opened Basics
  import Digraphs
  import opened RoleGraph
  import opened RoleManagement
  import opened RoleStore

  datatype Change =
    | Create(role: Role)
    | Edit(actor: Principal, role: Role)
    | Bind(binding: Binding)
    | Delegate(actor: Principal, sourceId: string, binding: Binding)
    | Revoke(scope: Scope, id: string)

  /** An authority and when it was supplied. */
  datatype Grant = Grant(authority: Authority, at: int)

  /** The store, the snapshots managers have read, every graph committed so far and the authority supplied with each. */
  datatype State = State(actions: seq<string>, current: Snapshot, views: seq<Snapshot>, used: set<Revision>,
                         committed: seq<RoleGraph.Graph>, granted: seq<Grant>)

  datatype Action =
    | Read
    | Mutate(read: nat, change: Change, authority: Authority, now: int, revision: Revision)

  function Changed(graph: RoleGraph.Graph, c: Change): RoleGraph.Graph {
    match c
    case Create(role) => Created(graph, role)
    case Edit(_, role) => Edited(graph, role)
    case Bind(binding) => Bound(graph, binding)
    case Delegate(_, _, binding) => Bound(graph, binding)
    case Revoke(_, id) => Revoked(graph, id)
  }

  ghost predicate Permitted(graph: RoleGraph.Graph, c: Change, authority: Authority, actions: seq<string>, now: int) {
    match c
    case Create(role) => CreateAllowed(graph, role, authority, actions)
    case Edit(actor, role) => EditAllowed(graph, actor, role, authority, actions, now)
    case Bind(binding) => BindAllowed(graph, binding, authority, actions, now)
    case Delegate(actor, sourceId, binding) => DelegateAllowed(graph, actor, sourceId, binding, authority, actions, now)
    case Revoke(scope, id) => RevokeAllowed(graph, scope, id)
  }

  /** A revocation brings no authority. */
  function Granted(c: Change, authority: Authority): Authority {
    if c.Revoke? then NONE else authority
  }

  /** Revisions are drawn afresh; a change is checked against the snapshot its manager read, however old. */
  ghost predicate Enabled(s: State, a: Action) {
    a.Mutate? ==>
      && a.read < |s.views| && a.revision !in s.used
      && Permitted(s.views[a.read].graph, a.change, a.authority, s.actions, a.now)
  }

  /** The swap wins only over the revision that was read. */
  function Step(s: State, a: Action): State
    requires a.Mutate? ==> a.read < |s.views|
  {
    match a
    case Read => s.(views := s.views + [s.current])
    case Mutate(i, c, authority, now, revision) =>
      var next := Snapshot(revision, Changed(s.views[i].graph, c));
      if s.views[i].revision != s.current.revision then s.(used := s.used + {revision})
      else s.(current := next, used := s.used + {revision}, committed := s.committed + [next.graph],
              granted := s.granted + [Grant(Granted(c, authority), now)])
  }

  ghost predicate ReadOk(s: State, read: Snapshot) {
    && ValidGraph(read.graph, s.actions) && read.revision in s.used
    && (read.revision == s.current.revision ==> read == s.current)
  }

  ghost predicate Inv(s: State) {
    && ReadOk(s, s.current)
    && (forall i {:trigger ReadOk(s, s.views[i])} | 0 <= i < |s.views| :: ReadOk(s, s.views[i]))
    && CommittedOk(s)
  }

  /** A permitted change keeps the graph valid and gives nobody anything beyond the authority supplied, or for
      longer. */
  lemma ChangeGains(graph: RoleGraph.Graph, c: Change, authority: Authority, actions: seq<string>, now: int)
    requires ValidGraph(graph, actions) && Permitted(graph, c, authority, actions, now)
    ensures ValidGraph(Changed(graph, c), actions)
    ensures GainsWithin(graph, Changed(graph, c), Granted(c, authority), now)
  {
    match c
    case Create(role) => CreateGains(graph, role, authority, actions, now);
    case Edit(actor, role) => EditStaysWithin(graph, actor, role, authority, actions, now);
    case Bind(binding) => BindGains(graph, binding, authority, actions, now);
    case Delegate(_, _, binding) => BindGains(graph, binding, authority, actions, now);
    case Revoke(_, id) =>
      RevokeKeepsValid(graph, id, actions);
      RevokeGains(graph, id, now);
  }

  ghost predicate CommittedOk(s: State) {
    && |s.committed| == |s.granted| + 1 && s.committed[|s.granted|] == s.current.graph
    && ValidGraph(s.current.graph, s.actions)
  }

  lemma StepCommits(s: State, a: Action)
    requires CommittedOk(s) && Enabled(s, a)
    requires a.Mutate? && s.views[a.read].revision == s.current.revision ==> s.views[a.read] == s.current
    ensures CommittedOk(Step(s, a))
  {
    if a.Mutate? && s.views[a.read].revision == s.current.revision {
      ChangeGains(s.current.graph, a.change, a.authority, s.actions, a.now);
    }
  }

  lemma StepKeeps(s: State, a: Action)
    requires Inv(s) && Enabled(s, a)
    ensures Inv(Step(s, a)) && Step(s, a).actions == s.actions
  {
    var t := Step(s, a);
    if a.Mutate? { assert ReadOk(s, s.views[a.read]); }
    StepCommits(s, a);
    forall i | 0 <= i < |t.views| ensures ReadOk(t, t.views[i]) {
      if i < |s.views| { assert ReadOk(s, s.views[i]); }
    }
  }

  ghost predicate Run(s: State, actions: seq<Action>, t: State)
    decreases |actions|
  {
    if actions == [] then s == t else Enabled(s, actions[0]) && Run(Step(s, actions[0]), actions[1..], t)
  }

  ghost predicate Initial(s: State) {
    && ValidGraph(s.current.graph, s.actions) && s.used == {s.current.revision} && s.views == []
    && s.committed == [s.current.graph] && s.granted == []
  }

  lemma {:induction false} RunKeeps(s: State, actions: seq<Action>, t: State)
    requires Inv(s) && Run(s, actions, t)
    ensures Inv(t) && s.committed <= t.committed && s.granted <= t.granted
    decreases |actions|
  {
    if actions != [] {
      StepKeeps(s, actions[0]);
      RunKeeps(Step(s, actions[0]), actions[1..], t);
    }
  }

  /** Covered by what the principal held in the first graph, or lent by an authority supplied on the way. */
  ghost predicate CoveredSince(first: RoleGraph.Graph, granted: seq<Grant>, q: Principal, scope: Scope, now: int,
                               p: Permission)
  {
    HoldsCover(first, q, scope, now, p) || exists g :: g in granted && Lends(g.authority, g.at, p, now)
  }

  lemma LendsLess(authority: Authority, at: int, c: Permission, p: Permission, now: int)
    requires Covers(c, p) && Lends(authority, at, c, now)
    ensures Lends(authority, at, p, now)
  {
    var d :| d in authority.permissions && Covers(d, c);
    CoversIsOrder(d, c, p);
  }

  lemma CoverageCarries(first: RoleGraph.Graph, granted: seq<Grant>, q: Principal, scope: Scope, now: int,
                        c: Permission, p: Permission)
    requires Covers(c, p) && CoveredSince(first, granted, q, scope, now, c)
    ensures CoveredSince(first, granted, q, scope, now, p)
  {
    if HoldsCover(first, q, scope, now, c) {
      var d :| Holds(first, q, scope, now, d) && Covers(d, c);
      CoversIsOrder(d, c, p);
    } else {
      var g :| g in granted && Lends(g.authority, g.at, c, now);
      LendsLess(g.authority, g.at, c, p, now);
    }
  }

  lemma GainAt(before: RoleGraph.Graph, after: RoleGraph.Graph, authority: Authority, at: int, q: Principal,
      scope: Scope, now: int, p: Permission)
    requires GainsWithin(before, after, authority, at) && Holds(after, q, scope, now, p)
    ensures HoldsCover(before, q, scope, now, p) || Lends(authority, at, p, now)
  {
    hide Holds, HoldsCover, Lends;
  }

  /** What somebody holds after a step was covered before it or is lent by the authority it was committed with. */
  lemma StepGains(s: State, a: Action, q: Principal, scope: Scope, now: int, p: Permission)
    requires Inv(s) && Enabled(s, a) && Holds(Step(s, a).current.graph, q, scope, now, p)
    ensures CoveredSince(s.current.graph, Step(s, a).granted, q, scope, now, p)
  {
    var t := Step(s, a);
    if t.current == s.current {
      CoverItself(s.current.graph, q, scope, now, p);
    } else {
      assert ReadOk(s, s.views[a.read]);
      hide Holds, HoldsCover, Lends, GainsWithin, ValidGraph, Permitted, Changed, Granted;
      ChangeGains(s.current.graph, a.change, a.authority, s.actions, a.now);
      GainAt(s.current.graph, t.current.graph, Granted(a.change, a.authority), a.now, q, scope, now, p);
      assert t.granted[|s.granted|] == Grant(Granted(a.change, a.authority), a.now);
    }
  }

  lemma {:induction false} RunGains(s: State, actions: seq<Action>, t: State, q: Principal, scope: Scope, now: int,
                                    p: Permission)
    requires Inv(s) && Run(s, actions, t) && Holds(t.current.graph, q, scope, now, p)
    ensures CoveredSince(s.current.graph, t.granted, q, scope, now, p)
    decreases |actions|
  {
    hide Inv, Step;
    if actions == [] {
      CoverItself(s.current.graph, q, scope, now, p);
    } else {
      var m := Step(s, actions[0]);
      StepKeeps(s, actions[0]);
      RunKeeps(m, actions[1..], t);
      RunGains(m, actions[1..], t, q, scope, now, p);
      if HoldsCover(m.current.graph, q, scope, now, p) {
        var c :| Holds(m.current.graph, q, scope, now, c) && Covers(c, p);
        StepGains(s, actions[0], q, scope, now, c);
        assert forall g :: g in m.granted ==> g in t.granted;
        CoverageCarries(s.current.graph, t.granted, q, scope, now, c, p);
      }
    }
  }

  /** After any run of concurrent reads and swaps, everything anybody holds is covered by what the same principal held
      at the start, or by an authority supplied with one of the commits that has not yet ended. */
  lemma {:induction false} RunStaysWithin(s: State, actions: seq<Action>, t: State, q: Principal, scope: Scope,
      now: int, p: Permission)
    requires Initial(s) && Run(s, actions, t) && Holds(t.current.graph, q, scope, now, p)
    ensures || (exists c :: Holds(s.current.graph, q, scope, now, c) && Covers(c, p))
            || (exists g, c {:trigger g in t.granted, c in g.authority.permissions} ::
                  && g in t.granted && c in g.authority.permissions && Covers(c, p) && p.scope in g.authority.scopes
                  && (g.at <= now ==> now < g.authority.maxExpiresAt))
  {
    hide Run, Lends, Holds, Covers;
    RunGains(s, actions, t, q, scope, now, p);
    if exists g :: g in t.granted && Lends(g.authority, g.at, p, now) { LenderMeans(t.granted, p, now); }
  }

  lemma LenderMeans(granted: seq<Grant>, p: Permission, now: int)
    requires exists g :: g in granted && Lends(g.authority, g.at, p, now)
    ensures exists g, c {:trigger g in granted, c in g.authority.permissions} ::
              && g in granted && c in g.authority.permissions && Covers(c, p) && p.scope in g.authority.scopes
              && (g.at <= now ==> now < g.authority.maxExpiresAt)
  {
    hide Covers;
    var g :| g in granted && Lends(g.authority, g.at, p, now);
    var c :| c in g.authority.permissions && Covers(c, p);
  }

  /** A swap commits the change exactly when nobody has committed since its manager read, and then it replaces the very
      snapshot that was read and checked; otherwise nothing changes. */
  lemma CommitsReplaceWhatWasRead(s: State, a: Action)
    requires Inv(s) && Enabled(s, a) && a.Mutate?
    ensures var t := Step(s, a);
            if s.views[a.read].revision == s.current.revision
            then s.views[a.read] == s.current && Permitted(s.current.graph, a.change, a.authority, s.actions, a.now)
                 && t.current.revision == a.revision && t.current.graph == Changed(s.current.graph, a.change)
            else t.current == s.current
  {
    assert ReadOk(s, s.views[a.read]);
  }

  /** Undisturbed, a permitted change is committed. */
  lemma UndisturbedChangesCommit(s: State, c: Change, authority: Authority, now: int, revision: Revision)
    returns (t: State)
    requires Permitted(s.current.graph, c, authority, s.actions, now) && revision !in s.used
    ensures Run(s, [Read, Mutate(|s.views|, c, authority, now, revision)], t)
    ensures t.current == Snapshot(revision, Changed(s.current.graph, c))
  {
    hide Changed, Permitted;
    var swap := Mutate(|s.views|, c, authority, now, revision);
    var m := Step(s, Read);
    t := Step(m, swap);
    assert Run(t, [], t);
    assert [swap][1..] == [];
    assert Run(m, [swap], t);
    assert [Read, swap][1..] == [swap];
  }

  // ---- Where bindings and roles come from ----

  /** The binding was in a graph that was committed and let its holder delegate at that time, until then at most. */
  ghost predicate LetsDelegate(source: Binding, sourceId: string, actor: Principal, b: Binding, now: int) {
    && source.id == sourceId && source.principal == actor && source.scope == b.scope
    && (source.expiresAt.Some? ==>
          now < source.expiresAt.value && b.expiresAt.Some? && b.expiresAt.value <= source.expiresAt.value)
  }

  /** The step commits this binding, which ends after the step and no later than the authority supplied allows;
      delegated, it ends no later than the binding it was delegated from. */
  ghost predicate GrantsBinding(graphs: seq<RoleGraph.Graph>, a: Action, b: Binding) {
    && a.Mutate? && b.expiresAt.Some? && a.now < b.expiresAt.value <= a.authority.maxExpiresAt
    && (a.change == Bind(b)
        || (a.change.Delegate? && a.change.binding == b
            && exists g, source :: g in graphs && source in g.bindings
                                   && LetsDelegate(source, a.change.sourceId, a.change.actor, b, a.now)))
  }

  lemma BindingIsGranted(s: State, a: Action, b: Binding)
    requires Inv(s) && Enabled(s, a)
    requires b in Step(s, a).current.graph.bindings && b !in s.current.graph.bindings
    ensures GrantsBinding(s.committed, a, b)
  {
    assert ReadOk(s, s.views[a.read]);
    if a.change.Delegate? {
      var source :| source in s.current.graph.bindings
          && IsSource(source, a.change.sourceId, a.change.actor, b.scope, a.now)
                    && DelegatesFrom(s.current.graph, source, b);
      assert s.current.graph in s.committed && LetsDelegate(source, a.change.sourceId, a.change.actor, b, a.now);
    }
  }

  /** In every run, each binding was there at the start or was committed by a step that was entitled to grant it. */
  lemma {:induction false} BindingsWereGranted(s: State, actions: seq<Action>, t: State, b: Binding)
    requires Inv(s) && Run(s, actions, t) && b in t.current.graph.bindings
    ensures b in s.current.graph.bindings || exists a :: a in actions && GrantsBinding(t.committed, a, b)
    decreases |actions|
  {
    if actions != [] {
      var m := Step(s, actions[0]);
      StepKeeps(s, actions[0]);
      BindingsWereGranted(m, actions[1..], t, b);
      RunKeeps(m, actions[1..], t);
      if b in m.current.graph.bindings && b !in s.current.graph.bindings {
        BindingIsGranted(s, actions[0], b);
        GrantStays(s.committed, t.committed, actions[0], b);
      }
    }
  }

  lemma GrantStays(graphs: seq<RoleGraph.Graph>, more: seq<RoleGraph.Graph>, a: Action, b: Binding)
    requires graphs <= more && GrantsBinding(graphs, a, b)
    ensures GrantsBinding(more, a, b)
  {
    if a.change.Delegate? {
      var g, source :| g in graphs && source in g.bindings
                       && LetsDelegate(source, a.change.sourceId, a.change.actor, b, a.now);
      assert g in more;
    }
  }

  /** The step commits this role, all of whose own permissions lie in the scopes and under the permissions supplied. */
  ghost predicate GrantsRole(a: Action, role: Role) {
    && a.Mutate? && (a.change == Create(role) || (a.change.Edit? && a.change.role == role))
    && forall p | p in role.permissions ::
         p.scope in a.authority.scopes
         && exists c :: c in a.authority.permissions && c.action == p.action && c.resourceType == p.resourceType
                        && c.scope == p.scope && (c.resourceId == None || c.resourceId == p.resourceId)
  }

  lemma OwnPermissionsAreGiven(graph: RoleGraph.Graph, role: Role, p: Permission, actions: seq<string>)
    requires ValidGraph(graph, actions) && role in graph.roles && p in role.permissions
    ensures RoleGives(graph, role.id, role.scope, p)
  {
    hide RoleValid, RoleShape, Digraphs.Acyclic, Digraphs.Closed, BindingsValid, AllValid;
    RoleStands(graph, role, actions);
    Digraphs.ReachesItself(ParentIds(ScopedRoles(graph.roles, role.scope)), role.id);
  }

  lemma RoleStands(graph: RoleGraph.Graph, role: Role, actions: seq<string>)
    requires ValidGraph(graph, actions) && role in graph.roles
    ensures role.id in ScopedRoles(graph.roles, role.scope) && ScopedRoles(graph.roles, role.scope)[role.id] == role
  {
    hide Digraphs.Acyclic, Digraphs.Closed, BindingsValid, AllValid, Digraphs.NoDuplicates;
    var roles := ScopedRoles(graph.roles, role.scope);
    assert roles[role.id] in graph.roles && Key(roles[role.id]) == Key(role);
    KeyNamesOne(graph.roles, role, roles[role.id]);
  }

  lemma KeyNamesOne(roles: seq<Role>, a: Role, b: Role)
    requires Digraphs.NoDuplicates(Keys(roles)) && a in roles && b in roles && Key(a) == Key(b)
    ensures a == b
  {
    var i :| 0 <= i < |roles| && roles[i] == a;
    var j :| 0 <= j < |roles| && roles[j] == b;
    assert Keys(roles)[i] == Keys(roles)[j];
  }

  lemma OnlyThisRoleIsNew(graph: RoleGraph.Graph, c: Change, role: Role)
    requires role in Changed(graph, c).roles && role !in graph.roles
    ensures c == Create(role) || (c.Edit? && c.role == role)
  {
  }

  lemma NewRoleIsWithin(graph: RoleGraph.Graph, c: Change, role: Role, authority: Authority, actions: seq<string>,
                        now: int, p: Permission)
    requires ValidGraph(graph, actions) && Permitted(graph, c, authority, actions, now)
    requires c == Create(role) || (c.Edit? && c.role == role)
    requires role in Changed(graph, c).roles && p in role.permissions
    ensures Within(p, authority)
  {
    ChangeGains(graph, c, authority, actions, now);
    OwnPermissionsAreGiven(Changed(graph, c), role, p, actions);
    if c.Edit? { assert EditReaches(graph, role, role.id); }
  }

  lemma RoleIsGranted(s: State, a: Action, role: Role)
    requires Inv(s) && Enabled(s, a)
    requires role in Step(s, a).current.graph.roles && role !in s.current.graph.roles
    ensures GrantsRole(a, role)
  {
    hide ValidGraph, Permitted, Changed;
    assert ReadOk(s, s.views[a.read]);
    OnlyThisRoleIsNew(s.current.graph, a.change, role);
    forall p | p in role.permissions ensures Within(p, a.authority) {
      NewRoleIsWithin(s.current.graph, a.change, role, a.authority, s.actions, a.now, p);
    }
  }

  /** In every run, each role was there at the start or was committed by a step whose authority covers its
      permissions. */
  lemma {:induction false} RolesWereGranted(s: State, actions: seq<Action>, t: State, role: Role)
    requires Inv(s) && Run(s, actions, t) && role in t.current.graph.roles
    ensures role in s.current.graph.roles || exists a :: a in actions && GrantsRole(a, role)
    decreases |actions|
  {
    if actions != [] {
      var m := Step(s, actions[0]);
      StepKeeps(s, actions[0]);
      RolesWereGranted(m, actions[1..], t, role);
      if role in m.current.graph.roles && role !in s.current.graph.roles { RoleIsGranted(s, actions[0], role); }
    }
  }
}
