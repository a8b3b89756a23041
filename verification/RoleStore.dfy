/** The in-memory role store and the five mutations that commit to it by compare-and-swap. */
module RoleStore {
  import opened Basics
  import opened Digraphs
  import opened RoleGraph
  import opened RoleManagement

  class MemoryRoleStore {
    const actions: seq<string>
    var current: Snapshot
    /** Every graph ever committed, by revision, as long as its writers draw revisions afresh. */
    ghost var history: map<Revision, RoleGraph.Graph>

    ghost predicate Sound()
      reads this
    {
      ValidGraph(current.graph, actions)
    }

    ghost predicate Valid()
      reads this
    {
      && Was(current)
      && forall r | r in history :: ValidGraph(history[r], actions)
    }

    /** The snapshot was the store's current one at some time. */
    ghost predicate Was(s: Snapshot)
      reads this
    {
      s.revision in history && history[s.revision] == s.graph
    }

    constructor (graph: RoleGraph.Graph, actions: seq<string>, revision: Revision)
      requires ValidGraph(graph, actions)
      ensures Valid() && current == Snapshot(revision, graph) && this.actions == actions
    {
      this.actions := actions;
      current := Snapshot(revision, graph);
      history := map[revision := graph];
    }

    method Read() returns (s: Snapshot)
      requires Valid()
      ensures s == current && Was(s)
    {
      s := current;
    }

    /** Swaps only at the expected revision, only to a valid graph and only to another revision. */
    method CompareAndSwap(expected: Revision, next: Snapshot) returns (swapped: bool)
      requires Sound()
      modifies this
      ensures Sound()
      ensures old(Valid()) && (swapped ==> next.revision !in old(history)) ==> Valid()
      ensures swapped <==> expected == old(current.revision) && ValidGraph(next.graph, actions)
                           && next.revision != expected
      ensures current == if swapped then next else old(current)
      ensures history == if swapped then old(history)[next.revision := next.graph] else old(history)
    {
      if expected != current.revision { return false; }
      var valid := ValidateRoleGraph(next.graph, actions);
      if !valid || next.revision == current.revision { return false; }
      current := next;
      history := history[next.revision := next.graph];
      swapped := true;
    }
  }

  /** `memoryRoleStore` validates the graph it is given: an invalid one opens no store. */
  method OpenStore(graph: RoleGraph.Graph, actions: seq<string>, revision: Revision) returns (store: MemoryRoleStore?)
    ensures store != null <==> ValidGraph(graph, actions)
    ensures store != null ==> fresh(store) && store.Valid() && store.current == Snapshot(revision, graph)
  {
    var valid := ValidateRoleGraph(graph, actions);
    store := null;
    if valid { store := new MemoryRoleStore(graph, actions, revision); }
  }

  /** The checks every mutation but a revocation makes before it builds the new graph. */
  predicate Admitted(actor: Principal, authorized: bool, authority: Option<Authority>, scope: Scope, now: int) {
    && ActorNamed(actor) && authorized
    && authority.Some? && authority.value.maxExpiresAt > now && scope in authority.value.scopes
  }

  predicate ActorNamed(actor: Principal) {
    actor.realmId != "" && actor.subjectId != "" && actor.kind != ""
  }

  /** The tail of `mutate`: validate the new graph, then swap it in for the snapshot that was read. */
  method Commit(store: MemoryRoleStore, read: Snapshot, graph: RoleGraph.Graph, revision: Revision) returns (r: Outcome)
    requires store.Valid() && store.Was(read) && revision !in store.history
    modifies store
    ensures store.Valid()
    ensures r == Denied <==> !ValidGraph(graph, store.actions)
    ensures r.Committed? ==> old(store.current) == read && store.current == Snapshot(revision, graph)
                             && r.revision == revision
    ensures r == Conflict ==> old(store.current.revision) != read.revision
    ensures !r.Committed? ==> store.current == old(store.current) && store.history == old(store.history)
  {
    var valid := ValidateRoleGraph(graph, store.actions);
    if !valid { return Denied; }
    var swapped := store.CompareAndSwap(read.revision, Snapshot(revision, graph));
    r := if swapped then Committed(revision) else Conflict;
  }

  /** The permissions of a role, all of them within the authority. */
  method RoleWithin(graph: RoleGraph.Graph, roleId: string, scope: Scope, authority: Authority)
    returns (ok: bool, permissions: seq<Permission>)
    ensures ok <==> Expandable(ScopedRoles(graph.roles, scope), roleId)
                    && forall p | RoleGives(graph, roleId, scope, p) :: Within(p, authority)
    ensures ok ==> forall p :: p in permissions <==> RoleGives(graph, roleId, scope, p)
  {
    var r := EffectiveRolePermissions(graph, roleId, scope);
    if r == None { return false, []; }
    permissions := r.value;
    ok := forall p | p in permissions :: Within(p, authority);
  }

  method CheckCreate(graph: RoleGraph.Graph, role: Role, authority: Authority, actions: seq<string>) returns (ok: bool)
    ensures ok <==> CreateAllowed(graph, role, authority, actions)
  {
    var next := Created(graph, role);
    ok := ValidateRoleGraph(next, actions);
    if !ok { return; }
    assert Keys(next.roles)[|graph.roles|] == Key(role);
    ValidGraphExpands(next, actions, role.id, role.scope);
    var permissions;
    ok, permissions := RoleWithin(next, role.id, role.scope, authority);
  }

  method CheckBind(graph: RoleGraph.Graph, b: Binding, authority: Authority, actions: seq<string>, now: int)
    returns (ok: bool)
    requires ValidGraph(graph, actions)
    ensures ok <==> BindAllowed(graph, b, authority, actions, now)
    ensures ok ==> Expandable(ScopedRoles(graph.roles, b.scope), b.roleId)
  {
    if !ExpiryAllowed(b, authority, now) { return false; }
    var permissions;
    ok, permissions := RoleWithin(graph, b.roleId, b.scope, authority);
    BoundRoleExists(graph, b, actions);
    if !ok { return; }
    ok := ValidateRoleGraph(Bound(graph, b), actions);
  }

  /** A binding that validates names a role that expands. */
  lemma BoundRoleExists(graph: RoleGraph.Graph, b: Binding, actions: seq<string>)
    requires ValidGraph(graph, actions)
    ensures ValidGraph(Bound(graph, b), actions) ==> Expandable(ScopedRoles(graph.roles, b.scope), b.roleId)
  {
    assert b in Bound(graph, b).bindings;
    ValidGraphExpands(graph, actions, b.roleId, b.scope);
  }

  ghost predicate ExpandsIn(graph: RoleGraph.Graph, scope: Scope, roleId: string) {
    Expandable(ScopedRoles(graph.roles, scope), roleId)
  }

  /** The permissions of a role known to expand. */
  method RolePermissions(graph: RoleGraph.Graph, roleId: string, scope: Scope) returns (permissions: seq<Permission>)
    requires ExpandsIn(graph, scope, roleId)
    ensures forall p :: p in permissions <==> RoleGives(graph, roleId, scope, p)
  {
    var r := EffectiveRolePermissions(graph, roleId, scope);
    permissions := r.value;
  }

  method Held(graph: RoleGraph.Graph, q: Principal, scope: Scope, now: int, actions: seq<string>)
    returns (permissions: seq<Permission>)
    requires ValidGraph(graph, actions)
    ensures forall p :: p in permissions <==> Holds(graph, q, scope, now, p)
  {
    ValidGraphNeverThrows(graph, actions, q, scope, now);
    var r := EffectivePermissions(graph, q, scope, now);
    permissions := r.value;
  }

  lemma EditKeepsKeys(graph: RoleGraph.Graph, role: Role)
    ensures Keys(Edited(graph, role).roles) == Keys(graph.roles)
  {
  }

  /** One round of the loop over the scope's roles: an affected role must stay within the authority. */
  method CheckAffected(graph: RoleGraph.Graph, role: Role, roleId: string, authority: Authority,
                       now: int) returns (ok: bool)
    requires ExpandsIn(graph, role.scope, roleId) && ExpandsIn(Edited(graph, role), role.scope, roleId)
    ensures ok <==> Spared(graph, role, authority, now, roleId)
  {
    var after := RolePermissions(Edited(graph, role), roleId, role.scope);
    var reached := CheckReached(graph, role, roleId, after);
    if !reached { return true; }
    ok := (forall p | p in after :: Within(p, authority))
          && BindingsAllowed(graph, roleId, role.scope, authority, now);
  }

  /** Not reached by the edit, or within the authority after it. */
  ghost predicate Spared(graph: RoleGraph.Graph, role: Role, authority: Authority, now: int, roleId: string) {
    EditReaches(graph, role, roleId) ==> AffectedAllowed(graph, role, roleId, authority, now)
  }

  /** Whether the edit changes what the role gives, or is the role's own. */
  method CheckReached(graph: RoleGraph.Graph, role: Role, roleId: string, after: seq<Permission>)
      returns (reached: bool)
    requires ExpandsIn(graph, role.scope, roleId)
    requires forall p :: p in after <==> RoleGives(Edited(graph, role), roleId, role.scope, p)
    ensures reached <==> EditReaches(graph, role, roleId)
  {
    var before := RolePermissions(graph, roleId, role.scope);
    ChangedMeans(graph, role, roleId, before, after);
    reached := roleId == role.id || !AllCovered(after, before) || !AllCovered(before, after);
  }

  predicate AllCovered(permissions: seq<Permission>, cover: seq<Permission>) {
    forall p | p in permissions :: CoveredBy(p, cover)
  }

  lemma ChangedMeans(graph: RoleGraph.Graph, role: Role, roleId: string, before: seq<Permission>,
      after: seq<Permission>)
    requires forall p :: p in before <==> RoleGives(graph, roleId, role.scope, p)
    requires forall p :: p in after <==> RoleGives(Edited(graph, role), roleId, role.scope, p)
    ensures AllCovered(after, before) && AllCovered(before, after)
            <==> SameCoverage(graph, Edited(graph, role), roleId, role.scope)
  {
    ListsCover(graph, roleId, role.scope, before);
    ListsCover(Edited(graph, role), roleId, role.scope, after);
  }

  lemma ListsCover(graph: RoleGraph.Graph, roleId: string, scope: Scope, permissions: seq<Permission>)
    requires forall p :: p in permissions <==> RoleGives(graph, roleId, scope, p)
    ensures forall p :: CoveredBy(p, permissions) <==> RoleCovers(graph, roleId, scope, p)
  {
    forall p ensures CoveredBy(p, permissions) <==> RoleCovers(graph, roleId, scope, p) {
      if c :| c in permissions && Covers(c, p) { assert RoleGives(graph, roleId, scope, c); }
      if c :| RoleGives(graph, roleId, scope, c) && Covers(c, p) { assert c in permissions; }
    }
  }

  method CheckEditor(graph: RoleGraph.Graph, actor: Principal, role: Role, actions: seq<string>, now: int)
    returns (ok: bool)
    requires ValidGraph(graph, actions) && ValidGraph(Edited(graph, role), actions)
    ensures ok <==> forall p | Holds(Edited(graph, role), actor, role.scope, now, p) ::
              HoldsCover(graph, actor, role.scope, now, p)
  {
    var before := Held(graph, actor, role.scope, now, actions);
    var after := Held(Edited(graph, role), actor, role.scope, now, actions);
    forall p ensures CoveredBy(p, before) <==> HoldsCover(graph, actor, role.scope, now, p) {
      if c :| c in before && Covers(c, p) { assert Holds(graph, actor, role.scope, now, c); }
      if c :| Holds(graph, actor, role.scope, now, c) && Covers(c, p) { assert c in before; }
    }
    ok := forall p | p in after :: CoveredBy(p, before);
  }

  method CheckEdit(graph: RoleGraph.Graph, actor: Principal, role: Role, authority: Authority,
                   actions: seq<string>, now: int) returns (ok: bool)
    requires ValidGraph(graph, actions)
    ensures ok <==> EditAllowed(graph, actor, role, authority, actions, now)
  {
    if Key(role) !in Keys(graph.roles) { return false; }
    var next := Edited(graph, role);
    ok := ValidateRoleGraph(next, actions);
    if !ok { return; }
    ok := CheckDescendants(graph, role, authority, actions, now);
    if !ok { return; }
    ok := CheckEditor(graph, actor, role, actions, now);
  }

  /** Editing a base role changes what its descendants give, so every role of the scope is looked at. */
  method CheckDescendants(graph: RoleGraph.Graph, role: Role, authority: Authority, actions: seq<string>, now: int)
    returns (ok: bool)
    requires ValidGraph(graph, actions) && ValidGraph(Edited(graph, role), actions)
    ensures ok <==> forall r | r in Edited(graph, role).roles && r.scope == role.scope
            && EditReaches(graph, role, r.id) ::
              AffectedAllowed(graph, role, r.id, authority, now)
  {
    ghost var expands := id => BothExpand(graph, role, id);
    ghost var spared := id => Spared(graph, role, authority, now, id);
    EditExpands(graph, role, actions);
    ok := CheckScope(graph, role, Edited(graph, role).roles, authority, now, expands, spared);
    SparedMeans(graph, role, authority, now);
  }

  lemma SparedMeans(graph: RoleGraph.Graph, role: Role, authority: Authority, now: int)
    ensures AllOk(Edited(graph, role).roles, role.scope, id => Spared(graph, role, authority, now, id)) <==>
            forall r | r in Edited(graph, role).roles && r.scope == role.scope && EditReaches(graph, role, r.id) ::
              AffectedAllowed(graph, role, r.id, authority, now)
  {
    var roles := Edited(graph, role).roles;
    var spared := id => Spared(graph, role, authority, now, id);
    forall r | AllOk(roles, role.scope, spared) && r in roles && r.scope == role.scope ensures spared(r.id) {
      var i :| 0 <= i < |roles| && roles[i] == r;
    }
  }

  lemma EditExpands(graph: RoleGraph.Graph, role: Role, actions: seq<string>)
    requires ValidGraph(graph, actions) && ValidGraph(Edited(graph, role), actions)
    ensures AllOk(Edited(graph, role).roles, role.scope, id => BothExpand(graph, role, id))
  {
    var roles := Edited(graph, role).roles;
    EditKeepsKeys(graph, role);
    forall i | 0 <= i < |roles| && roles[i].scope == role.scope
      ensures ExpandsIn(graph, role.scope, roles[i].id) && ExpandsIn(Edited(graph, role), role.scope, roles[i].id)
    {
      assert Keys(roles)[i] == RoleKey(role.scope, roles[i].id);
      ValidGraphExpands(graph, actions, roles[i].id, role.scope);
      ValidGraphExpands(Edited(graph, role), actions, roles[i].id, role.scope);
    }
  }

  /** `expands` and `spared` stand for what they say, so that the loop need not look inside. */
  ghost predicate Stand(graph: RoleGraph.Graph, role: Role, authority: Authority, now: int, expands: string -> bool,
                        spared: string -> bool)
  {
    && (forall id {:trigger BothExpand(graph, role, id)} :: expands(id) == BothExpand(graph, role, id))
    && (forall id {:trigger Spared(graph, role, authority, now, id)} ::
          spared(id) == Spared(graph, role, authority, now, id))
  }

  method CheckScope(graph: RoleGraph.Graph, role: Role, roles: seq<Role>, authority: Authority, now: int,
                    ghost expands: string -> bool, ghost spared: string -> bool) returns (ok: bool)
    requires Stand(graph, role, authority, now, expands, spared) && AllOk(roles, role.scope, expands)
    ensures ok <==> AllOk(roles, role.scope, spared)
  {
    var i := 0;
    while i < |roles|
      invariant 0 <= i <= |roles| && forall j :: 0 <= j < i && roles[j].scope == role.scope ==> spared(roles[j].id)
    {
      if roles[i].scope == role.scope {
        ok := CheckOne(graph, role, roles[i].id, authority, now, expands, spared);
        if !ok { return; }
      }
      i := i + 1;
    }
    ok := true;
  }

  method CheckOne(graph: RoleGraph.Graph, role: Role, roleId: string, authority: Authority, now: int,
                  ghost expands: string -> bool, ghost spared: string -> bool) returns (ok: bool)
    requires Stand(graph, role, authority, now, expands, spared) && expands(roleId)
    ensures ok <==> spared(roleId)
  {
    assert BothExpand(graph, role, roleId);
    ok := CheckAffected(graph, role, roleId, authority, now);
  }

  ghost predicate BothExpand(graph: RoleGraph.Graph, role: Role, roleId: string) {
    ExpandsIn(graph, role.scope, roleId) && ExpandsIn(Edited(graph, role), role.scope, roleId)
  }

  ghost predicate AllOk(roles: seq<Role>, scope: Scope, fine: string -> bool) {
    forall i :: 0 <= i < |roles| && roles[i].scope == scope ==> fine(roles[i].id)
  }

  method CheckDelegate(graph: RoleGraph.Graph, actor: Principal, sourceId: string, b: Binding, authority: Authority,
                       actions: seq<string>, now: int) returns (ok: bool)
    requires ValidGraph(graph, actions)
    ensures ok <==> DelegateAllowed(graph, actor, sourceId, b, authority, actions, now)
  {
    var i := FindSource(graph, actor, sourceId, b.scope, now);
    if i == |graph.bindings| { return false; }
    var source := graph.bindings[i];
    OnlySource(graph, actions, i, sourceId, actor, b.scope, now);
    ok := CheckBind(graph, b, authority, actions, now);
    if !ok { return; }
    SourceExpands(graph, actions, i);
    ok := CheckDelegation(graph, source, b);
  }

  lemma SourceExpands(graph: RoleGraph.Graph, actions: seq<string>, i: nat)
    requires ValidGraph(graph, actions) && i < |graph.bindings|
    ensures ExpandsIn(graph, graph.bindings[i].scope, graph.bindings[i].roleId)
  {
    assert graph.bindings[i] in graph.bindings;
    ValidGraphExpands(graph, actions, graph.bindings[i].roleId, graph.bindings[i].scope);
  }

  /** What is passed on is covered by what the source gives, and ends with it. */
  method CheckDelegation(graph: RoleGraph.Graph, source: Binding, b: Binding) returns (ok: bool)
    requires ExpandsIn(graph, b.scope, b.roleId) && ExpandsIn(graph, source.scope, source.roleId)
    requires source.expiresAt.Some? ==> b.expiresAt.Some?
    ensures ok <==> DelegatesFrom(graph, source, b)
  {
    if source.expiresAt.Some? && b.expiresAt.value > source.expiresAt.value { return false; }
    var permissions := RolePermissions(graph, b.roleId, b.scope);
    var given := RolePermissions(graph, source.roleId, source.scope);
    ListsCover(graph, source.roleId, source.scope, given);
    ok := forall p | p in permissions :: CoveredBy(p, given);
  }

  method FindSource(graph: RoleGraph.Graph, actor: Principal, sourceId: string, scope: Scope, now: int) returns (i: nat)
    ensures i <= |graph.bindings|
    ensures i < |graph.bindings| ==> IsSource(graph.bindings[i], sourceId, actor, scope, now)
    ensures forall j :: 0 <= j < i ==> !IsSource(graph.bindings[j], sourceId, actor, scope, now)
  {
    i := 0;
    while i < |graph.bindings|
      invariant i <= |graph.bindings|
      invariant forall j :: 0 <= j < i ==> !IsSource(graph.bindings[j], sourceId, actor, scope, now)
    {
      if IsSource(graph.bindings[i], sourceId, actor, scope, now) { return; }
      i := i + 1;
    }
  }

  /** Binding ids are unique, so the first source found is the only one. */
  lemma OnlySource(graph: RoleGraph.Graph, actions: seq<string>, i: nat, sourceId: string, actor: Principal,
      scope: Scope, now: int)
    requires ValidGraph(graph, actions)
    requires i < |graph.bindings| && IsSource(graph.bindings[i], sourceId, actor, scope, now)
    ensures forall b | b in graph.bindings && IsSource(b, sourceId, actor, scope, now) :: b == graph.bindings[i]
  {
    forall b | b in graph.bindings && IsSource(b, sourceId, actor, scope, now) ensures b == graph.bindings[i] {
      var j :| 0 <= j < |graph.bindings| && graph.bindings[j] == b;
      assert BindingIds(graph.bindings)[i] == BindingIds(graph.bindings)[j];
    }
  }

  method CreateRole(store: MemoryRoleStore, read: Snapshot, actor: Principal, authorized: bool,
                    authority: Option<Authority>, role: Role, now: int, revision: Revision) returns (r: Outcome)
    requires store.Valid() && store.Was(read) && revision !in store.history
    modifies store
    ensures store.Valid()
    ensures r == Denied <==> !(Admitted(actor, authorized, authority, role.scope, now)
                               && CreateAllowed(read.graph, role, authority.value, store.actions))
    ensures r.Committed? ==>
              old(store.current) == read && store.current == Snapshot(revision, Created(read.graph, role))
    ensures r.Committed? ==> GainsWithin(read.graph, store.current.graph, authority.value, now)
    ensures !r.Committed? ==> store.current == old(store.current)
  {
    if !Admitted(actor, authorized, authority, role.scope, now) { return Denied; }
    var ok := CheckCreate(read.graph, role, authority.value, store.actions);
    if !ok { return Denied; }
    CreateGains(read.graph, role, authority.value, store.actions, now);
    r := Commit(store, read, Created(read.graph, role), revision);
  }

  method EditRole(store: MemoryRoleStore, read: Snapshot, actor: Principal, authorized: bool,
                  authority: Option<Authority>, role: Role, now: int, revision: Revision) returns (r: Outcome)
    requires store.Valid() && store.Was(read) && revision !in store.history
    modifies store
    ensures store.Valid()
    ensures r == Denied <==> !(Admitted(actor, authorized, authority, role.scope, now)
                               && EditAllowed(read.graph, actor, role, authority.value, store.actions, now))
    ensures r.Committed? ==> old(store.current) == read && store.current == Snapshot(revision, Edited(read.graph, role))
    ensures r.Committed? ==> GainsWithin(read.graph, store.current.graph, authority.value, now)
    ensures !r.Committed? ==> store.current == old(store.current)
  {
    if !Admitted(actor, authorized, authority, role.scope, now) { return Denied; }
    var ok := CheckEdit(read.graph, actor, role, authority.value, store.actions, now);
    if !ok { return Denied; }
    EditStaysWithin(read.graph, actor, role, authority.value, store.actions, now);
    r := Commit(store, read, Edited(read.graph, role), revision);
  }

  method BindRole(store: MemoryRoleStore, read: Snapshot, actor: Principal, authorized: bool,
                  authority: Option<Authority>, binding: Binding, now: int, revision: Revision) returns (r: Outcome)
    requires store.Valid() && store.Was(read) && revision !in store.history
    modifies store
    ensures store.Valid()
    ensures r == Denied <==> !(Admitted(actor, authorized, authority, binding.scope, now)
                               && BindAllowed(read.graph, binding, authority.value, store.actions, now))
    ensures r.Committed? ==>
              old(store.current) == read && store.current == Snapshot(revision, Bound(read.graph, binding))
    ensures r.Committed? ==> GainsWithin(read.graph, store.current.graph, authority.value, now)
    ensures !r.Committed? ==> store.current == old(store.current)
  {
    if !Admitted(actor, authorized, authority, binding.scope, now) { return Denied; }
    var ok := CheckBind(read.graph, binding, authority.value, store.actions, now);
    if !ok { return Denied; }
    BindGains(read.graph, binding, authority.value, store.actions, now);
    r := Commit(store, read, Bound(read.graph, binding), revision);
  }

  method DelegateRole(store: MemoryRoleStore, read: Snapshot, actor: Principal, authorized: bool,
                      authority: Option<Authority>, sourceId: string, binding: Binding, now: int, revision: Revision)
    returns (r: Outcome)
    requires store.Valid() && store.Was(read) && revision !in store.history
    modifies store
    ensures store.Valid()
    ensures r == Denied <==> !(Admitted(actor, authorized, authority, binding.scope, now)
                               && DelegateAllowed(read.graph, actor, sourceId, binding, authority.value,
                                                  store.actions, now))
    ensures r.Committed? ==>
              old(store.current) == read && store.current == Snapshot(revision, Bound(read.graph, binding))
    ensures r.Committed? ==> GainsWithin(read.graph, store.current.graph, authority.value, now)
    ensures !r.Committed? ==> store.current == old(store.current)
  {
    if !Admitted(actor, authorized, authority, binding.scope, now) { return Denied; }
    var ok := CheckDelegate(read.graph, actor, sourceId, binding, authority.value, store.actions, now);
    if !ok { return Denied; }
    BindGains(read.graph, binding, authority.value, store.actions, now);
    r := Commit(store, read, Bound(read.graph, binding), revision);
  }

  /** Revocation asks for no authority, only for the application's consent. */
  method RevokeBinding(store: MemoryRoleStore, read: Snapshot, actor: Principal, authorized: bool,
                       scope: Scope, bindingId: string, revision: Revision) returns (r: Outcome)
    requires store.Valid() && store.Was(read) && revision !in store.history
    modifies store
    ensures store.Valid()
    ensures r == Denied <==> !(ActorNamed(actor) && authorized && RevokeAllowed(read.graph, scope, bindingId))
    ensures r.Committed? ==>
              old(store.current) == read && store.current == Snapshot(revision, Revoked(read.graph, bindingId))
    ensures r.Committed? ==> forall at :: GainsWithin(read.graph, store.current.graph, NONE, at)
    ensures !r.Committed? ==> store.current == old(store.current)
  {
    if !ActorNamed(actor) || !authorized { return Denied; }
    if !exists b | b in read.graph.bindings :: b.id == bindingId && b.scope == scope { return Denied; }
    forall at { RevokeGains(read.graph, bindingId, at); }
    RevokeKeepsValid(read.graph, bindingId, store.actions);
    r := Commit(store, read, Revoked(read.graph, bindingId), revision);
  }

  lemma RevokeKeepsValid(graph: RoleGraph.Graph, id: string, actions: seq<string>)
    requires ValidGraph(graph, actions)
    ensures ValidGraph(Revoked(graph, id), actions)
  {
    WithoutKeepsDistinct(graph.bindings, id);
  }

  lemma IdsStay(bindings: seq<Binding>, b: Binding)
    requires bindings != [] && NoDuplicates(BindingIds(bindings)) && b in bindings[1..]
    ensures b.id != bindings[0].id
  {
    var j :| 0 <= j < |bindings| - 1 && bindings[1..][j] == b;
    assert BindingIds(bindings)[j + 1] == b.id && BindingIds(bindings)[0] == bindings[0].id;
  }

  lemma HeadKeepsDistinct(head: Binding, tail: seq<Binding>)
    requires NoDuplicates(BindingIds(tail)) && forall b | b in tail :: b.id != head.id
    ensures NoDuplicates(BindingIds([head] + tail))
  {
    assert BindingIds([head] + tail) == [head.id] + BindingIds(tail);
    forall i | 0 <= i < |tail| ensures BindingIds(tail)[i] != head.id { assert tail[i] in tail; }
  }

  lemma {:induction false} WithoutKeepsDistinct(bindings: seq<Binding>, id: string)
    requires NoDuplicates(BindingIds(bindings))
    ensures NoDuplicates(BindingIds(Without(bindings, id))) && |Without(bindings, id)| <= |bindings|
    decreases |bindings|
  {
    if bindings != [] {
      var tail := bindings[1..];
      assert BindingIds(tail) == BindingIds(bindings)[1..];
      WithoutKeepsDistinct(tail, id);
      forall b | b in Without(tail, id) ensures b.id != bindings[0].id { IdsStay(bindings, b); }
      HeadKeepsDistinct(bindings[0], Without(tail, id));
      assert [] + Without(tail, id) == Without(tail, id);
    }
  }
}
