/** Changes to the role graph under a granted authority, committed by compare-and-swap. */
module RoleManagement {
  import opened Basics
  import opened Digraphs
  import opened RoleGraph

  datatype Authority = Authority(permissions: seq<Permission>, scopes: seq<Scope>, maxExpiresAt: int)

  type Revision = nat
  datatype Snapshot = Snapshot(revision: Revision, graph: RoleGraph.Graph)

  datatype Outcome = Committed(revision: Revision) | Denied | Conflict

  /** The authority of a revocation, which gives nothing. */
  const NONE := Authority([], [], 0)

  // ---- Coverage ----

  predicate CoveredBy(p: Permission, ceilings: seq<Permission>) {
    exists c :: c in ceilings && Covers(c, p)
  }

  /** `within`: every permission lies in an authorized scope and under an authorized permission. */
  predicate Within(p: Permission, authority: Authority) {
    p.scope in authority.scopes && CoveredBy(p, authority.permissions)
  }

  /** `expiry`: the binding ends, after now and no later than the authority allows. */
  predicate ExpiryAllowed(b: Binding, authority: Authority, now: int) {
    b.expiresAt.Some? && now < b.expiresAt.value <= authority.maxExpiresAt
  }

  /** What the principal holds includes a permission that covers `p`. */
  ghost predicate HoldsCover(graph: RoleGraph.Graph, q: Principal, scope: Scope, now: int, p: Permission) {
    exists c :: Holds(graph, q, scope, now, c) && Covers(c, p)
  }

  ghost predicate RoleCovers(graph: RoleGraph.Graph, roleId: string, scope: Scope, p: Permission) {
    exists c :: RoleGives(graph, roleId, scope, c) && Covers(c, p)
  }

  /** The authority, supplied at some time, allows the permission to be held at another: until the authority ends. */
  predicate Lends(authority: Authority, at: int, p: Permission, now: int) {
    Within(p, authority) && (at <= now ==> now < authority.maxExpiresAt)
  }

  /** No principal, in any scope at any time, gains anything beyond the authority's scopes and permissions, or for
      longer than the authority lasts. */
  ghost predicate GainsWithin(before: RoleGraph.Graph, after: RoleGraph.Graph, authority: Authority, at: int) {
    forall q, scope, now, p {:trigger HoldsCover(before, q, scope, now, p)} | Holds(after, q, scope, now, p) ::
      HoldsCover(before, q, scope, now, p) || Lends(authority, at, p, now)
  }

  // ---- The five proposed changes, as the graphs they produce ----

  function Created(graph: RoleGraph.Graph, role: Role): RoleGraph.Graph {
    graph.(roles := graph.roles + [role])
  }

  function Replaced(roles: seq<Role>, role: Role): (r: seq<Role>)
    ensures |r| == |roles|
    ensures forall i :: 0 <= i < |r| ==> r[i] == if Key(roles[i]) == Key(role) then role else roles[i]
  {
    seq(|roles|, i requires 0 <= i < |roles| => if Key(roles[i]) == Key(role) then role else roles[i])
  }

  function Edited(graph: RoleGraph.Graph, role: Role): RoleGraph.Graph {
    graph.(roles := Replaced(graph.roles, role))
  }

  function Bound(graph: RoleGraph.Graph, b: Binding): RoleGraph.Graph {
    graph.(bindings := graph.bindings + [b])
  }

  function Without(bindings: seq<Binding>, id: string): (r: seq<Binding>)
    ensures forall b :: b in r <==> b in bindings && b.id != id
  {
    if bindings == [] then []
    else (if bindings[0].id != id then [bindings[0]] else []) + Without(bindings[1..], id)
  }

  function Revoked(graph: RoleGraph.Graph, id: string): RoleGraph.Graph {
    graph.(bindings := Without(graph.bindings, id))
  }

  // ---- When each change is allowed ----

  ghost predicate CreateAllowed(graph: RoleGraph.Graph, role: Role, authority: Authority, actions: seq<string>) {
    && ValidGraph(Created(graph, role), actions)
    && forall p | RoleGives(Created(graph, role), role.id, role.scope, p) :: Within(p, authority)
  }

  /** The role gives the same before and after, up to coverage. */
  ghost predicate SameCoverage(graph: RoleGraph.Graph, next: RoleGraph.Graph, roleId: string, scope: Scope) {
    && (forall p {:trigger RoleCovers(graph, roleId, scope, p)} | RoleGives(next, roleId, scope, p) ::
          RoleCovers(graph, roleId, scope, p))
    && (forall p {:trigger RoleCovers(next, roleId, scope, p)} | RoleGives(graph, roleId, scope, p) ::
          RoleCovers(next, roleId, scope, p))
  }

  ghost predicate EditReaches(graph: RoleGraph.Graph, role: Role, roleId: string) {
    roleId == role.id || !SameCoverage(graph, Edited(graph, role), roleId, role.scope)
  }

  /** An affected role stays within the authority, and so do the live bindings to it. */
  ghost predicate AffectedAllowed(graph: RoleGraph.Graph, role: Role, roleId: string, authority: Authority, now: int) {
    && (forall p {:trigger Within(p, authority)} | RoleGives(Edited(graph, role), roleId, role.scope, p) ::
          Within(p, authority))
    && BindingsAllowed(graph, roleId, role.scope, authority, now)
  }

  predicate Live(b: Binding, now: int) {
    b.expiresAt == None || b.expiresAt.value > now
  }

  predicate BindingsAllowed(graph: RoleGraph.Graph, roleId: string, scope: Scope, authority: Authority, now: int) {
    forall b | b in graph.bindings ::
      (b.roleId == roleId && b.scope == scope && Live(b, now) ==> ExpiryAllowed(b, authority, now))
  }

  ghost predicate EditAllowed(
    graph: RoleGraph.Graph, actor: Principal, role: Role, authority: Authority, actions: seq<string>, now: int)
  {
    && Key(role) in Keys(graph.roles)
    && ValidGraph(Edited(graph, role), actions)
    && (forall r | r in Edited(graph, role).roles && r.scope == role.scope && EditReaches(graph, role, r.id) ::
          AffectedAllowed(graph, role, r.id, authority, now))
    && (forall p {:trigger HoldsCover(graph, actor, role.scope, now, p)} | Holds(Edited(graph, role), actor,
          role.scope, now, p) ::
          HoldsCover(graph, actor, role.scope, now, p))
  }

  ghost predicate BindAllowed(graph: RoleGraph.Graph, b: Binding, authority: Authority, actions: seq<string>, now: int)
  {
    && ExpiryAllowed(b, authority, now)
    && (forall p {:trigger Within(p, authority)} | RoleGives(graph, b.roleId, b.scope, p) :: Within(p, authority))
    && ValidGraph(Bound(graph, b), actions)
  }

  ghost predicate RevokeAllowed(graph: RoleGraph.Graph, scope: Scope, id: string) {
    exists b :: b in graph.bindings && b.id == id && b.scope == scope
  }

  predicate IsSource(b: Binding, sourceId: string, actor: Principal, scope: Scope, now: int) {
    b.id == sourceId && Applies(b, actor, scope, now)
  }

  /** The delegated binding's role is covered by the source's role and ends no later than the source. */
  ghost predicate DelegatesFrom(graph: RoleGraph.Graph, source: Binding, b: Binding) {
    && (source.expiresAt.Some? ==> b.expiresAt.Some? && b.expiresAt.value <= source.expiresAt.value)
    && (forall p {:trigger RoleCovers(graph, source.roleId, source.scope, p)} | RoleGives(graph, b.roleId, b.scope,
          p) ::
          RoleCovers(graph, source.roleId, source.scope, p))
  }

  ghost predicate DelegateAllowed(graph: RoleGraph.Graph, actor: Principal, sourceId: string, b: Binding,
                                  authority: Authority, actions: seq<string>, now: int)
  {
    && BindAllowed(graph, b, authority, actions, now)
    && exists source :: source in graph.bindings && IsSource(source, sourceId, actor, b.scope, now)
                        && DelegatesFrom(graph, source, b)
  }

  // ---- What each allowed change does to what principals hold ----

  /** Roles of a closed part of a scope give the same in any graph that keeps them. */
  lemma GivesAgrees(before: map<string, Role>, after: map<string, Role>, roleId: string, p: Permission)
    requires ClosedUnder(ParentIds(before), before.Keys) && roleId in before
    requires forall id | id in before :: id in after && after[id] == before[id]
    ensures Gives(before, roleId, p) <==> Gives(after, roleId, p)
  {
    var g, h := ParentIds(before), ParentIds(after);
    forall id ensures Reaches(g, roleId, id) <==> Reaches(h, roleId, id) {
      ReachAgrees(g, h, before.Keys, roleId, id);
    }
    if Gives(after, roleId, p) {
      var id :| Reaches(h, roleId, id) && id in after && p in after[id].permissions;
      ReachStaysInside(g, before.Keys, roleId, id);
      assert Reaches(g, roleId, id) && p in before[id].permissions;
    }
    if Gives(before, roleId, p) {
      var id :| Reaches(g, roleId, id) && id in before && p in before[id].permissions;
      assert Reaches(h, roleId, id) && p in after[id].permissions;
    }
  }

  lemma {:induction false} CreateExtendsScope(roles: seq<Role>, role: Role, scope: Scope)
    ensures forall id | id in ScopedRoles(roles, scope) ::
              id in ScopedRoles(roles + [role], scope)
                  && ScopedRoles(roles + [role], scope)[id] == ScopedRoles(roles, scope)[id]
  {
    assert (roles + [role])[..|roles|] == roles;
  }

  lemma BindingResolves(graph: RoleGraph.Graph, actions: seq<string>, b: Binding)
    requires ValidGraph(graph, actions) && b in graph.bindings
    ensures b.roleId in ScopedRoles(graph.roles, b.scope)
  {
    var i :| 0 <= i < |graph.roles| && Keys(graph.roles)[i] == RoleKey(b.scope, b.roleId);
    assert graph.roles[i] in graph.roles;
  }

  lemma CoverItself(graph: RoleGraph.Graph, q: Principal, scope: Scope, now: int, p: Permission)
    requires Holds(graph, q, scope, now, p)
    ensures HoldsCover(graph, q, scope, now, p)
  {
    CoversIsOrder(p, p, p);
  }

  /** A new role changes what nobody holds. */
  lemma CreateChangesNobody(graph: RoleGraph.Graph, role: Role, actions: seq<string>, q: Principal, scope: Scope,
                            now: int, p: Permission)
    requires ValidGraph(graph, actions)
    ensures Holds(Created(graph, role), q, scope, now, p) <==> Holds(graph, q, scope, now, p)
  {
    forall b | b in graph.bindings && b.scope == scope
      ensures RoleGives(Created(graph, role), b.roleId, scope, p) <==> RoleGives(graph, b.roleId, scope, p)
    {
      BindingResolves(graph, actions, b);
      ScopedInheritanceCloses(graph, actions, scope);
      CreateExtendsScope(graph.roles, role, scope);
      GivesAgrees(ScopedRoles(graph.roles, scope), ScopedRoles(Created(graph, role).roles, scope), b.roleId, p);
    }
  }

  lemma {:induction false} EditKeepsOtherScopes(roles: seq<Role>, role: Role, scope: Scope)
    requires scope != role.scope
    ensures ScopedRoles(Replaced(roles, role), scope) == ScopedRoles(roles, scope)
    decreases |roles|
  {
    if roles != [] {
      var n := |roles| - 1;
      EditKeepsOtherScopes(roles[..n], role, scope);
      assert Replaced(roles, role)[..n] == Replaced(roles[..n], role);
    }
  }

  lemma EditGains(graph: RoleGraph.Graph, actor: Principal, role: Role, authority: Authority, actions: seq<string>,
      at: int, q: Principal, scope: Scope, now: int, p: Permission)
    requires EditAllowed(graph, actor, role, authority, actions, at)
    requires Holds(Edited(graph, role), q, scope, now, p)
    ensures HoldsCover(graph, q, scope, now, p) || Lends(authority, at, p, now)
  {
    var b :| b in graph.bindings && Applies(b, q, scope, now) && RoleGives(Edited(graph, role), b.roleId, scope, p);
    if scope != role.scope {
      EditKeepsOtherScopes(graph.roles, role, scope);
      assert RoleGives(graph, b.roleId, scope, p);
      CoverItself(graph, q, scope, now, p);
    } else {
      EditedRoleGains(graph, actor, role, authority, actions, at, b, p, now);
      if c :| RoleGives(graph, b.roleId, scope, c) && Covers(c, p) {
        assert Holds(graph, q, scope, now, c);
      }
    }
  }

  /** The role a binding of a valid graph names. */
  lemma BoundRole(graph: RoleGraph.Graph, actions: seq<string>, b: Binding) returns (r: Role)
    requires ValidGraph(graph, actions) && b in graph.bindings
    ensures r in graph.roles && r.scope == b.scope && r.id == b.roleId
  {
    var i :| 0 <= i < |graph.roles| && Keys(graph.roles)[i] == RoleKey(b.scope, b.roleId);
    r := graph.roles[i];
  }

  lemma EditedRoleGains(graph: RoleGraph.Graph, actor: Principal, role: Role, authority: Authority,
      actions: seq<string>, at: int, b: Binding, p: Permission, now: int)
    requires EditAllowed(graph, actor, role, authority, actions, at)
    requires b in graph.bindings && b.scope == role.scope && RoleGives(Edited(graph, role), b.roleId, role.scope, p)
    requires b.expiresAt.Some? ==> now < b.expiresAt.value
    ensures RoleCovers(graph, b.roleId, role.scope, p) || Lends(authority, at, p, now)
  {
    hide ValidGraph, RoleGives, AffectedAllowed;
    var r := BoundRole(Edited(graph, role), actions, b);
    if EditReaches(graph, role, r.id) { AffectedRoleLends(graph, role, authority, at, b, p, now); }
  }

  lemma AffectedRoleLends(graph: RoleGraph.Graph, role: Role, authority: Authority, at: int, b: Binding, p: Permission,
                          now: int)
    requires AffectedAllowed(graph, role, b.roleId, authority, at)
    requires b in graph.bindings && b.scope == role.scope && (b.expiresAt.Some? ==> now < b.expiresAt.value)
    requires RoleGives(Edited(graph, role), b.roleId, role.scope, p)
    ensures Lends(authority, at, p, now)
  {
    hide RoleGives;
    assert Within(p, authority);
  }

  lemma CreateGains(graph: RoleGraph.Graph, role: Role, authority: Authority, actions: seq<string>, at: int)
    requires ValidGraph(graph, actions) && CreateAllowed(graph, role, authority, actions)
    ensures GainsWithin(graph, Created(graph, role), authority, at)
  {
    forall q, scope, now, p | Holds(Created(graph, role), q, scope, now, p)
      ensures HoldsCover(graph, q, scope, now, p)
    {
      CreateChangesNobody(graph, role, actions, q, scope, now, p);
      CoverItself(graph, q, scope, now, p);
    }
  }

  lemma EditStaysWithin(graph: RoleGraph.Graph, actor: Principal, role: Role, authority: Authority,
      actions: seq<string>, at: int)
    requires EditAllowed(graph, actor, role, authority, actions, at)
    ensures GainsWithin(graph, Edited(graph, role), authority, at)
  {
    forall q, scope, now, p | Holds(Edited(graph, role), q, scope, now, p)
      ensures HoldsCover(graph, q, scope, now, p) || Lends(authority, at, p, now)
    {
      EditGains(graph, actor, role, authority, actions, at, q, scope, now, p);
    }
  }

  /** At the time of the edit, in every scope, an editor holds nothing it did not already hold. */
  lemma EditorGainsNothing(graph: RoleGraph.Graph, actor: Principal, role: Role, authority: Authority,
      actions: seq<string>, now: int, scope: Scope, p: Permission)
    requires EditAllowed(graph, actor, role, authority, actions, now)
    requires Holds(Edited(graph, role), actor, scope, now, p)
    ensures HoldsCover(graph, actor, scope, now, p)
  {
    if scope != role.scope { OtherScopesStay(graph, actor, role, scope, now, p); }
  }

  /** A new binding gives its principal exactly its role while it lasts, and nobody else anything. */
  lemma BindGivesExactly(graph: RoleGraph.Graph, b: Binding, q: Principal, scope: Scope, now: int, p: Permission)
    ensures Holds(Bound(graph, b), q, scope, now, p) <==>
            Holds(graph, q, scope, now, p) || (Applies(b, q, scope, now) && RoleGives(graph, b.roleId, scope, p))
  {
    var next := Bound(graph, b);
    assert forall c :: c in next.bindings <==> c in graph.bindings || c == b;
    assert forall id :: RoleGives(next, id, scope, p) <==> RoleGives(graph, id, scope, p);
  }

  lemma BindGains(graph: RoleGraph.Graph, b: Binding, authority: Authority, actions: seq<string>, at: int)
    requires BindAllowed(graph, b, authority, actions, at)
    ensures GainsWithin(graph, Bound(graph, b), authority, at)
  {
    forall q, scope, now, p | Holds(Bound(graph, b), q, scope, now, p)
      ensures HoldsCover(graph, q, scope, now, p) || Lends(authority, at, p, now)
    {
      BindGivesExactly(graph, b, q, scope, now, p);
      hide ValidGraph, RoleGives;
      if Holds(graph, q, scope, now, p) { CoverItself(graph, q, scope, now, p); } else { assert Within(p, authority); }
    }
  }

  /** Revoking takes away exactly what the binding alone gave. */
  lemma RevokeTakesExactly(graph: RoleGraph.Graph, id: string, q: Principal, scope: Scope, now: int, p: Permission)
    ensures Holds(Revoked(graph, id), q, scope, now, p) <==>
            exists b :: b in graph.bindings && b.id != id && Applies(b, q, scope, now)
                && RoleGives(graph, b.roleId, scope, p)
  {
    assert forall r :: RoleGives(Revoked(graph, id), r, scope, p) <==> RoleGives(graph, r, scope, p);
    if b :| b in graph.bindings && b.id != id && Applies(b, q, scope, now) && RoleGives(graph, b.roleId, scope, p) {
      assert b in Revoked(graph, id).bindings;
    }
    if b :|
      && b in Revoked(graph, id).bindings && Applies(b, q, scope, now)
      && RoleGives(Revoked(graph, id), b.roleId, scope, p)
    {
      assert b in graph.bindings && b.id != id && RoleGives(graph, b.roleId, scope, p);
    }
  }

  lemma RevokeGains(graph: RoleGraph.Graph, id: string, at: int)
    ensures GainsWithin(graph, Revoked(graph, id), NONE, at)
  {
    forall q, scope, now, p | Holds(Revoked(graph, id), q, scope, now, p)
      ensures HoldsCover(graph, q, scope, now, p)
    {
      RevokeTakesExactly(graph, id, q, scope, now, p);
      CoverItself(graph, q, scope, now, p);
    }
  }

  /** While a delegated binding lasts, the delegator's own holding covers everything it gives. */
  lemma DelegationIsCovered(graph: RoleGraph.Graph, actor: Principal, sourceId: string, b: Binding,
      authority: Authority, actions: seq<string>, at: int, now: int, p: Permission)
    requires DelegateAllowed(graph, actor, sourceId, b, authority, actions, at)
    requires now >= at && (b.expiresAt == None || b.expiresAt.value > now)
    requires RoleGives(graph, b.roleId, b.scope, p)
    ensures HoldsCover(graph, actor, b.scope, now, p)
  {
    var source :| source in graph.bindings && IsSource(source, sourceId, actor, b.scope, at)
        && DelegatesFrom(graph, source, b);
    assert Applies(source, actor, b.scope, now);
    assert RoleCovers(graph, source.roleId, source.scope, p);
    var c :| RoleGives(graph, source.roleId, source.scope, c) && Covers(c, p);
    assert Holds(graph, actor, b.scope, now, c);
  }

  // ---- Later than the edit ----

  /** The editor's gain stays nil for as long as every binding it held at the edit is still live. */
  lemma EditorGainsNothingWhileBound(graph: RoleGraph.Graph, actor: Principal, role: Role, authority: Authority,
                                     actions: seq<string>, at: int, now: int, p: Permission)
    requires EditAllowed(graph, actor, role, authority, actions, at) && now >= at
    requires forall b | b in graph.bindings && Applies(b, actor, role.scope, at) :: Applies(b, actor, role.scope, now)
    requires Holds(Edited(graph, role), actor, role.scope, now, p)
    ensures HoldsCover(graph, actor, role.scope, now, p)
  {
    var next := Edited(graph, role);
    var b :| b in next.bindings && Applies(b, actor, role.scope, now) && RoleGives(next, b.roleId, role.scope, p);
    assert Applies(b, actor, role.scope, at);
    assert Holds(next, actor, role.scope, at, p);
    assert HoldsCover(graph, actor, role.scope, at, p);
    var c :| Holds(graph, actor, role.scope, at, c) && Covers(c, p);
    var held :| held in graph.bindings && Applies(held, actor, role.scope, at)
        && RoleGives(graph, held.roleId, role.scope, c);
    assert Holds(graph, actor, role.scope, now, c);
  }

  /** From the edit on, at no time and in no scope, does the editor hold anything it would not have held without it. */
  ghost predicate NeverGains(graph: RoleGraph.Graph, actor: Principal, role: Role, at: int) {
    forall now, scope, p {:trigger HoldsCover(graph, actor, scope, now, p)}
      | now >= at && Holds(Edited(graph, role), actor, scope, now, p) :: HoldsCover(graph, actor, scope, now, p)
  }

  predicate Outlasts(c: Binding, b: Binding) {
    c.expiresAt == None || (b.expiresAt.Some? && c.expiresAt.value >= b.expiresAt.value)
  }

  /** What a binding will give through the edited role, one that lasts as long already covers. */
  ghost predicate Backed(graph: RoleGraph.Graph, actor: Principal, scope: Scope, at: int, b: Binding, p: Permission) {
    exists c {:trigger Outlasts(c, b)} ::
      c in graph.bindings && Applies(c, actor, scope, at) && Outlasts(c, b) && RoleCovers(graph, c.roleId, scope, p)
  }

  /** Decidable before the edit, from the graph alone: everything the actor's bindings will give is backed. */
  ghost predicate EveryGainBacked(graph: RoleGraph.Graph, actor: Principal, role: Role, at: int) {
    forall b, p {:trigger Backed(graph, actor, role.scope, at, b, p)}
      | b in graph.bindings && Applies(b, actor, role.scope, at)
          && RoleGives(Edited(graph, role), b.roleId, role.scope, p) ::
      Backed(graph, actor, role.scope, at, b, p)
  }

  /** No earlier than `at` and than any expiry. */
  function LastExpiry(bindings: seq<Binding>, at: int): (last: int)
    ensures last >= at && forall b | b in bindings && b.expiresAt.Some? :: b.expiresAt.value <= last
  {
    if bindings == [] then at
    else
      var rest := LastExpiry(bindings[1..], at);
      if bindings[0].expiresAt.Some? && bindings[0].expiresAt.value > rest then bindings[0].expiresAt.value else rest
  }

  /** The last time at which what the binding gives tells it from one that ends sooner. */
  function LastMoment(bindings: seq<Binding>, b: Binding, at: int): int {
    if b.expiresAt.Some? then b.expiresAt.value - 1 else LastExpiry(bindings, at)
  }

  lemma LastMomentTells(graph: RoleGraph.Graph, actor: Principal, scope: Scope, at: int, b: Binding)
    requires b in graph.bindings && Applies(b, actor, scope, at)
    ensures var now := LastMoment(graph.bindings, b, at);
            && now >= at && Applies(b, actor, scope, now)
            && forall c | c in graph.bindings && Applies(c, actor, scope, now) :: Applies(c, actor, scope, at)
                  && Outlasts(c, b)
  {
  }

  lemma GainIsBacked(graph: RoleGraph.Graph, actor: Principal, role: Role, at: int, b: Binding, p: Permission)
    requires NeverGains(graph, actor, role, at) && b in graph.bindings && Applies(b, actor, role.scope, at)
    requires RoleGives(Edited(graph, role), b.roleId, role.scope, p)
    ensures Backed(graph, actor, role.scope, at, b, p)
  {
    var now := LastMoment(graph.bindings, b, at);
    LastMomentTells(graph, actor, role.scope, at, b);
    assert Holds(Edited(graph, role), actor, role.scope, now, p);
    assert HoldsCover(graph, actor, role.scope, now, p);
    var q :| Holds(graph, actor, role.scope, now, q) && Covers(q, p);
    var c :| c in graph.bindings && Applies(c, actor, role.scope, now) && RoleGives(graph, c.roleId, role.scope, q);
    assert Outlasts(c, b);
  }

  lemma BackedIsHeld(graph: RoleGraph.Graph, actor: Principal, role: Role, at: int, now: int, p: Permission)
    requires EveryGainBacked(graph, actor, role, at) && now >= at
    requires Holds(Edited(graph, role), actor, role.scope, now, p)
    ensures HoldsCover(graph, actor, role.scope, now, p)
  {
    var b :| b in graph.bindings && Applies(b, actor, role.scope, now)
        && RoleGives(Edited(graph, role), b.roleId, role.scope, p);
    assert Backed(graph, actor, role.scope, at, b, p);
    var c :| c in graph.bindings && Applies(c, actor, role.scope, at) && Outlasts(c, b)
             && RoleCovers(graph, c.roleId, role.scope, p);
    var q :| RoleGives(graph, c.roleId, role.scope, q) && Covers(q, p);
    assert Holds(graph, actor, role.scope, now, q);
  }

  /** Exactly when an editor gains nothing, then or later: each of its bindings that will give something is outlasted by
      one that covers it already. */
  lemma EditorNeverGainsExactly(graph: RoleGraph.Graph, actor: Principal, role: Role, at: int)
    ensures NeverGains(graph, actor, role, at) <==> EveryGainBacked(graph, actor, role, at)
  {
    if NeverGains(graph, actor, role, at) {
      forall b, p | b in graph.bindings && Applies(b, actor, role.scope, at)
        && RoleGives(Edited(graph, role), b.roleId, role.scope, p)
        ensures Backed(graph, actor, role.scope, at, b, p)
      {
        GainIsBacked(graph, actor, role, at, b, p);
      }
    }
    if EveryGainBacked(graph, actor, role, at) {
      forall now, scope, p | now >= at && Holds(Edited(graph, role), actor, scope, now, p)
        ensures HoldsCover(graph, actor, scope, now, p)
      {
        if scope == role.scope {
          BackedIsHeld(graph, actor, role, at, now, p);
        } else {
          OtherScopesStay(graph, actor, role, scope, now, p);
        }
      }
    }
  }

  /** What an edit leaves alone: every other scope. */
  lemma OtherScopesStay(graph: RoleGraph.Graph, actor: Principal, role: Role, scope: Scope, now: int, p: Permission)
    requires scope != role.scope && Holds(Edited(graph, role), actor, scope, now, p)
    ensures HoldsCover(graph, actor, scope, now, p)
  {
    EditKeepsOtherScopes(graph.roles, role, scope);
    var b :| b in graph.bindings && Applies(b, actor, scope, now) && RoleGives(Edited(graph, role), b.roleId, scope, p);
    assert RoleGives(graph, b.roleId, scope, p);
    CoverItself(graph, actor, scope, now, p);
  }

  /** Without inheritance a role gives its own permissions. */
  lemma {:induction false} FlatRoleGives(graph: RoleGraph.Graph, roleId: string, scope: Scope, p: Permission)
    requires forall r | r in graph.roles :: r.inherits == []
    ensures RoleGives(graph, roleId, scope, p) <==>
            roleId in ScopedRoles(graph.roles, scope) && p in ScopedRoles(graph.roles, scope)[roleId].permissions
  {
    var roles := ScopedRoles(graph.roles, scope);
    var g := ParentIds(roles);
    ReachesItself(g, roleId);
    assert ClosedUnder(g, {roleId});
    forall id | Reaches(g, roleId, id) ensures id == roleId {
      ReachStaysInside(g, {roleId}, roleId, id);
    }
  }

  lemma FlatGraphIsSound(roles: seq<Role>)
    requires NoDuplicates(Keys(roles)) && forall r | r in roles :: r.inherits == []
    ensures Closed(Inheritance(roles)) && Acyclic(Inheritance(roles))
  {
    InheritanceAt(roles);
    var g := Inheritance(roles);
    forall i | 0 <= i < |roles| ensures g[Keys(roles)[i]] == {} {
      assert roles[i] in roles;
      forall d ensures d !in g[Keys(roles)[i]] {}
    }
    TopologicalImpliesAcyclic(g, Keys(roles));
  }

  const DESK := Scope("team", "desk")
  const READ := Permission("read", "note", DESK, None)
  const EDITOR := Principal("realm", "editor", "user")

  function BriefReader(permissions: seq<Permission>): RoleGraph.Graph {
    Graph(
      [Role("reader", DESK, [READ], []), Role("other", DESK, permissions, [])],
      [Binding("short", EDITOR, DESK, "reader", Some(10)), Binding("long", EDITOR, DESK, "other", Some(20))])
  }

  lemma BriefRolesGive(permissions: seq<Permission>, p: Permission)
    ensures RoleGives(BriefReader(permissions), "reader", DESK, p) <==> p == READ
    ensures RoleGives(BriefReader(permissions), "other", DESK, p) <==> p in permissions
  {
    var graph := BriefReader(permissions);
    var roles := graph.roles;
    assert roles[..1] == [roles[0]] && roles[..1][..0] == [];
    assert ScopedRoles(roles[..1], DESK) == map["reader" := roles[0]];
    assert ScopedRoles(roles, DESK) == map["reader" := roles[0], "other" := roles[1]];
    FlatRoleGives(graph, "reader", DESK, p);
    FlatRoleGives(graph, "other", DESK, p);
  }

  lemma BriefReaderHolds(permissions: seq<Permission>, now: int, p: Permission)
    ensures Holds(BriefReader(permissions), EDITOR, DESK, now, p) <==>
            (now < 10 && p == READ) || (now < 20 && p in permissions)
  {
    var graph := BriefReader(permissions);
    BriefRolesGive(permissions, p);
    assert graph.bindings[0] in graph.bindings && graph.bindings[1] in graph.bindings;
  }

  lemma BriefReaderIsValid(permissions: seq<Permission>)
    requires permissions == [] || permissions == [READ]
    ensures ValidGraph(BriefReader(permissions), ["read"])
  {
    var graph := BriefReader(permissions);
    FlatGraphIsSound(graph.roles);
    forall r | r in graph.roles ensures RoleValid(r, Nodes(["read"])) {
      assert "read" in ["read"];
    }
    assert Keys(graph.roles)[0] == RoleKey(DESK, "reader") && Keys(graph.roles)[1] == RoleKey(DESK, "other");
  }

  /** The check is made at the time of the edit only: an editor whose covering binding ends first later holds, through
      its own edit, a permission it would not have held without it. */
  lemma EditorMayGainLater() returns (graph: RoleGraph.Graph, role: Role, authority: Authority, at: int, now: int)
    ensures ValidGraph(graph, ["read"]) && EditAllowed(graph, EDITOR, role, authority, ["read"], at)
    ensures now > at && Holds(Edited(graph, role), EDITOR, DESK, now, READ)
            && !HoldsCover(graph, EDITOR, DESK, now, READ)
    ensures !EveryGainBacked(graph, EDITOR, role, at)
  {
    graph, role, at, now := BriefReader([]), Role("other", DESK, [READ], []), 0, 15;
    authority := Authority([READ], [DESK], 100);
    var next := Edited(graph, role);
    assert next == BriefReader([READ]);
    BriefReaderIsValid([]);
    BriefReaderIsValid([READ]);
    BriefReaderHolds([READ], now, READ);
    forall c ensures !Holds(graph, EDITOR, DESK, now, c) { BriefReaderHolds([], now, c); }
    BriefEditIsAllowed(graph, role, authority);
    EditorNeverGainsExactly(graph, EDITOR, role, at);
  }

  lemma BriefEditIsAllowed(graph: RoleGraph.Graph, role: Role, authority: Authority)
    requires graph == BriefReader([]) && role == Role("other", DESK, [READ], [])
             && authority == Authority([READ], [DESK], 100)
    ensures EditAllowed(graph, EDITOR, role, authority, ["read"], 0)
  {
    var next := Edited(graph, role);
    assert next == BriefReader([READ]);
    BriefReaderIsValid([READ]);
    assert Keys(graph.roles)[1] == Key(role);
    forall p | Holds(next, EDITOR, DESK, 0, p) ensures HoldsCover(graph, EDITOR, DESK, 0, p) {
      BriefReaderHolds([READ], 0, p);
      BriefReaderHolds([], 0, p);
      CoverItself(graph, EDITOR, DESK, 0, p);
    }
    forall r | r in next.roles ensures AffectedAllowed(graph, role, r.id, authority, 0) {
      BriefRoleIsAllowed(graph, role, authority, r.id);
    }
  }

  lemma BriefRoleIsAllowed(graph: RoleGraph.Graph, role: Role, authority: Authority, roleId: string)
    requires graph == BriefReader([]) && role == Role("other", DESK, [READ], [])
             && authority == Authority([READ], [DESK], 100)
    ensures AffectedAllowed(graph, role, roleId, authority, 0)
  {
    var next := Edited(graph, role);
    assert next == BriefReader([READ]);
    forall p | RoleGives(next, roleId, DESK, p) ensures Within(p, authority) {
      FlatRoleGives(next, roleId, DESK, p);
      assert p == READ && READ in authority.permissions && DESK in authority.scopes;
    }
  }
}
