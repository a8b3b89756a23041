/** Roles, their inheritance and the permissions they give: the RBAC module. */
module RoleGraph {
  import opened Basics
  import opened Digraphs

  const MAX_ROLES := 512
  const MAX_BINDINGS := 4096
  const MAX_ITEMS := 512

  datatype Scope = Scope(kind: string, id: string)
  datatype Permission = Permission(action: string, resourceType: string, scope: Scope, resourceId: Option<string>)
  /** A role without an `inherits` list is one with an empty list. */
  datatype Role = Role(id: string, scope: Scope, permissions: seq<Permission>, inherits: seq<string>)
  datatype Principal = Principal(realmId: string, subjectId: string, kind: string)
  datatype Binding = Binding(id: string, principal: Principal, scope: Scope, roleId: string, expiresAt: Option<int>)
  datatype Graph = Graph(roles: seq<Role>, bindings: seq<Binding>)

  /** The JSON text of scope and id that keys roles in the validator's maps, as the tuple it encodes. */
  datatype RoleKey = RoleKey(scope: Scope, id: string)

  predicate Text(s: string) {
    0 < |s| <= 256
  }

  predicate ScopeValid(s: Scope) {
    Text(s.kind) && Text(s.id)
  }

  predicate PrincipalValid(p: Principal) {
    Text(p.realmId) && Text(p.subjectId) && Text(p.kind)
  }

  /** `permissionCovers`: the ceiling is the same permission, or the same without a resource id. */
  predicate Covers(ceiling: Permission, p: Permission) {
    && ceiling.action == p.action && ceiling.resourceType == p.resourceType && ceiling.scope == p.scope
    && (ceiling.resourceId == None || ceiling.resourceId == p.resourceId)
  }

  lemma CoversIsOrder(a: Permission, b: Permission, c: Permission)
    ensures Covers(a, a)
    ensures Covers(a, b) && Covers(b, c) ==> Covers(a, c)
    ensures Covers(a, b) && Covers(b, a) ==> a == b
  {
  }

  ghost predicate SizesValid(graph: Graph, actions: seq<string>) {
    && 0 < |actions| <= MAX_ITEMS && (forall a | a in actions :: Text(a)) && NoDuplicates(actions)
    && |graph.roles| <= MAX_ROLES && |graph.bindings| <= MAX_BINDINGS
  }

  predicate PermissionValid(role: Role, p: Permission, known: set<string>) {
    && p.action in known && Text(p.resourceType) && ScopeValid(p.scope) && role.scope == p.scope
    && (p.resourceId == None || Text(p.resourceId.value))
  }

  predicate RoleShape(role: Role) {
    && Text(role.id) && ScopeValid(role.scope)
    && |role.permissions| <= MAX_ITEMS && |role.inherits| <= MAX_ROLES
  }

  ghost predicate RoleValid(role: Role, known: set<string>) {
    && RoleShape(role)
    && (forall p | p in role.permissions :: PermissionValid(role, p, known))
    && NoDuplicates(role.permissions) && NoDuplicates(role.inherits)
  }

  function Key(role: Role): RoleKey {
    RoleKey(role.scope, role.id)
  }

  function Keys(roles: seq<Role>): (keys: seq<RoleKey>)
    ensures |keys| == |roles| && forall i :: 0 <= i < |roles| ==> keys[i] == Key(roles[i])
  {
    seq(|roles|, i requires 0 <= i < |roles| => Key(roles[i]))
  }

  function BindingIds(bindings: seq<Binding>): (ids: seq<string>)
    ensures |ids| == |bindings| && forall i :: 0 <= i < |bindings| ==> ids[i] == bindings[i].id
  {
    seq(|bindings|, i requires 0 <= i < |bindings| => bindings[i].id)
  }

  ghost predicate RolesValid(roles: seq<Role>, known: set<string>) {
    AllValid(roles, known) && NoDuplicates(Keys(roles))
  }

  ghost predicate AllValid(roles: seq<Role>, known: set<string>) {
    forall r {:trigger RoleValid(r, known)} | r in roles :: RoleValid(r, known)
  }

  /** The map of a list's roles by their keys. */
  ghost predicate Indexes(roles: map<RoleKey, Role>, list: seq<Role>) {
    && (forall k :: k in roles <==> k in Keys(list))
    && (forall i :: 0 <= i < |list| ==> Key(list[i]) in roles && roles[Key(list[i])] == list[i])
  }

  /** Each role's key with the keys its `inherits` names stand for in the role's own scope. */
  ghost function Inheritance(roles: seq<Role>): (g: Digraphs.Graph<RoleKey>)
    requires NoDuplicates(Keys(roles))
  {
    map i | 0 <= i < |roles| :: Keys(roles)[i] := set id | id in roles[i].inherits :: RoleKey(roles[i].scope, id)
  }

  predicate BindingShape(b: Binding) {
    && Text(b.id) && PrincipalValid(b.principal) && ScopeValid(b.scope) && Text(b.roleId)
    && (b.expiresAt == None || b.expiresAt.value >= 0)
  }

  ghost predicate BindingsValid(graph: Graph) {
    && (forall b | b in graph.bindings :: BindingShape(b) && RoleKey(b.scope, b.roleId) in Keys(graph.roles))
    && NoDuplicates(BindingIds(graph.bindings))
  }

  /** What `validateRoleGraph` accepts; inheritance resolves and has no cycle. */
  ghost predicate ValidGraph(graph: Graph, actions: seq<string>) {
    && SizesValid(graph, actions)
    && RolesValid(graph.roles, Nodes(actions))
    && Closed(Inheritance(graph.roles)) && Acyclic(Inheritance(graph.roles))
    && BindingsValid(graph)
  }

  method CheckPermissions(role: Role, known: set<string>) returns (ok: bool)
    ensures ok <==>
              (forall p | p in role.permissions :: PermissionValid(role, p, known)) && NoDuplicates(role.permissions)
  {
    var permissions: set<Permission> := {};
    var i := 0;
    while i < |role.permissions|
      invariant 0 <= i <= |role.permissions|
      invariant forall p :: p in permissions <==> p in role.permissions[..i]
      invariant forall p | p in role.permissions[..i] :: PermissionValid(role, p, known)
      invariant NoDuplicates(role.permissions[..i])
    {
      var p := role.permissions[i];
      if !PermissionValid(role, p, known) { return false; }
      if p in permissions {
        var j :| 0 <= j < i && role.permissions[..i][j] == p;
        assert role.permissions[j] == role.permissions[i];
        return false;
      }
      assert role.permissions[..i + 1] == role.permissions[..i] + [p];
      permissions := permissions + {p};
      i := i + 1;
    }
    assert role.permissions[..i] == role.permissions;
    ok := true;
  }

  method CheckRole(role: Role, known: set<string>) returns (ok: bool)
    ensures ok <==> RoleValid(role, known)
  {
    if !RoleShape(role) { return false; }
    ok := CheckPermissions(role, known);
    CountDistinct(role.inherits);
    assert (set id | id in role.inherits) == Nodes(role.inherits);
    ok := ok && |set id | id in role.inherits| == |role.inherits|;
  }

  lemma IndexGrows(roles: map<RoleKey, Role>, list: seq<Role>, i: nat)
    requires i < |list| && Indexes(roles, list[..i]) && NoDuplicates(Keys(list[..i])) && Key(list[i]) !in roles
    ensures Indexes(roles[Key(list[i]) := list[i]], list[..i + 1]) && NoDuplicates(Keys(list[..i + 1]))
  {
    var longer := list[..i + 1];
    assert Keys(longer) == Keys(list[..i]) + [Key(list[i])];
    assert forall j :: 0 <= j < i ==> longer[j] == list[..i][j];
  }

  lemma IndexMeets(roles: map<RoleKey, Role>, list: seq<Role>, i: nat)
    requires i < |list| && Indexes(roles, list[..i]) && Key(list[i]) in roles
    ensures !NoDuplicates(Keys(list))
  {
    var j :| 0 <= j < i && Keys(list[..i])[j] == Key(list[i]);
    assert Keys(list)[j] == Keys(list)[i];
  }

  /** The loop that indexes the roles by key and checks their fields. */
  method IndexRoles(list: seq<Role>, known: set<string>) returns (roles: map<RoleKey, Role>, ok: bool)
    ensures ok <==> RolesValid(list, known)
    ensures ok ==> Indexes(roles, list)
  {
    roles := map[];
    var i := 0;
    while i < |list|
      invariant 0 <= i <= |list|
      invariant Indexes(roles, list[..i]) && NoDuplicates(Keys(list[..i])) && AllValid(list[..i], known)
    {
      var role := list[i];
      ok := CheckRole(role, known);
      assert role in list;
      if !ok { return; }
      if Key(role) in roles {
        IndexMeets(roles, list, i);
        return roles, false;
      }
      IndexGrows(roles, list, i);
      ValidGrows(list, i, known);
      roles := roles[Key(role) := role];
      i := i + 1;
    }
    assert list[..i] == list;
    ok := true;
  }

  lemma ValidGrows(list: seq<Role>, i: nat, known: set<string>)
    requires i < |list| && AllValid(list[..i], known) && RoleValid(list[i], known)
    ensures AllValid(list[..i + 1], known)
  {
    assert forall r | r in list[..i + 1] :: r in list[..i] || r == list[i];
  }

  /** The entry the walk meets for one `inherits` name. */
  function Parent(role: Role, id: string): Edge<RoleKey> {
    if Text(id) then To(RoleKey(role.scope, id)) else Refused
  }

  function Parents(role: Role): (edges: seq<Edge<RoleKey>>)
    ensures |edges| == |role.inherits|
    ensures forall i :: 0 <= i < |edges| ==> edges[i] == Parent(role, role.inherits[i])
  {
    seq(|role.inherits|, i requires 0 <= i < |role.inherits| => Parent(role, role.inherits[i]))
  }

  lemma InheritanceAt(list: seq<Role>)
    requires NoDuplicates(Keys(list))
    ensures forall k :: k in Inheritance(list) <==> k in Keys(list)
    ensures forall i, k :: 0 <= i < |list| ==>
              (k in Inheritance(list)[Keys(list)[i]] <==> k.scope == list[i].scope && k.id in list[i].inherits)
  {
    var keys := Keys(list);
    forall k ensures k in Inheritance(list) <==> k in keys {
      if k in keys {
        var i :| 0 <= i < |list| && keys[i] == k;
      }
    }
    forall i, k | 0 <= i < |list|
      ensures k in Inheritance(list)[keys[i]] <==> k.scope == list[i].scope && k.id in list[i].inherits
    {
      assert Inheritance(list)[keys[i]] == set id | id in list[i].inherits :: RoleKey(list[i].scope, id);
      assert k.scope == list[i].scope ==> k == RoleKey(list[i].scope, k.id);
    }
  }

  /** The walk's verdict is the one on the declared inheritance: an over-long name never resolves. */
  lemma WalkJudgesInheritance(list: seq<Role>, known: set<string>, roles: map<RoleKey, Role>,
                              edges: map<RoleKey, seq<Edge<RoleKey>>>)
    requires RolesValid(list, known) && Indexes(roles, list)
    requires edges.Keys == roles.Keys && forall k | k in roles :: edges[k] == Parents(roles[k])
    ensures Sound(edges) <==> Closed(Inheritance(list)) && Acyclic(Inheritance(list))
  {
    hide Inheritance, RoleValid, AllValid, Acyclic, Closed, Arrows, Parents;
    if k :| k in edges && Refused in edges[k] {
      var i :| 0 <= i < |list| && Keys(list)[i] == k;
      RefusedNeverResolves(list, known, i);
    } else {
      ArrowsAreInheritance(list, roles, edges);
    }
  }

  lemma ArrowsAreInheritance(list: seq<Role>, roles: map<RoleKey, Role>, edges: map<RoleKey, seq<Edge<RoleKey>>>)
    requires NoDuplicates(Keys(list)) && Indexes(roles, list)
    requires edges.Keys == roles.Keys && forall k | k in roles :: edges[k] == Parents(roles[k])
    requires forall k | k in edges :: Refused !in edges[k]
    ensures Arrows(edges) == Inheritance(list)
  {
    InheritanceAt(list);
    hide Inheritance, Parents;
    forall k | k in edges ensures Arrows(edges)[k] == Inheritance(list)[k] {
      var i :| 0 <= i < |list| && Keys(list)[i] == k;
      assert roles[Key(list[i])] == list[i];
      ParentsAreArrows(list, i, edges);
    }
    SameGraph(Arrows(edges), Inheritance(list));
  }

  lemma RefusedNeverResolves(list: seq<Role>, known: set<string>, i: nat)
    requires RolesValid(list, known) && i < |list| && Refused in Parents(list[i])
    ensures !Closed(Inheritance(list))
  {
    InheritanceAt(list);
    var j :| 0 <= j < |list[i].inherits| && Parents(list[i])[j] == Refused;
    var k := RoleKey(list[i].scope, list[i].inherits[j]);
    assert k in Inheritance(list)[Keys(list)[i]];
    KeysHaveText(list, known);
    assert k !in Inheritance(list);
  }

  lemma KeysHaveText(list: seq<Role>, known: set<string>)
    requires RolesValid(list, known)
    ensures forall k | k in Keys(list) :: Text(k.id)
  {
    forall k | k in Keys(list) ensures Text(k.id) {
      var m :| 0 <= m < |list| && Keys(list)[m] == k;
      assert RoleValid(list[m], known);
    }
  }

  lemma ParentsAreArrows(list: seq<Role>, i: nat, edges: map<RoleKey, seq<Edge<RoleKey>>>)
    requires NoDuplicates(Keys(list)) && i < |list|
    requires Keys(list)[i] in edges && edges[Keys(list)[i]] == Parents(list[i]) && Refused !in Parents(list[i])
    ensures Arrows(edges)[Keys(list)[i]] == Inheritance(list)[Keys(list)[i]]
  {
    InheritanceAt(list);
    var role, k := list[i], Keys(list)[i];
    forall d ensures d in Arrows(edges)[k] <==> d in Inheritance(list)[k] {
      if d in Inheritance(list)[k] {
        var j :| 0 <= j < |role.inherits| && role.inherits[j] == d.id;
        assert Parents(role)[j] == Parent(role, d.id);
        assert To(d) in edges[k];
      }
      if d in Arrows(edges)[k] {
        var j :| 0 <= j < |edges[k]| && edges[k][j] == To(d);
        assert role.inherits[j] in role.inherits;
      }
    }
  }

  method CheckBindings(bindings: seq<Binding>, keys: set<RoleKey>) returns (ok: bool)
    ensures ok <==> (forall b | b in bindings :: BindingShape(b) && RoleKey(b.scope, b.roleId) in keys)
                    && NoDuplicates(BindingIds(bindings))
  {
    var ids: set<string> := {};
    var i := 0;
    while i < |bindings|
      invariant 0 <= i <= |bindings|
      invariant ids == Nodes(BindingIds(bindings)[..i])
      invariant NoDuplicates(BindingIds(bindings)[..i])
      invariant forall j :: 0 <= j < i ==>
                  BindingShape(bindings[j]) && RoleKey(bindings[j].scope, bindings[j].roleId) in keys
    {
      var b := bindings[i];
      if b.id in ids {
        var j :| 0 <= j < i && BindingIds(bindings)[..i][j] == b.id;
        assert BindingIds(bindings)[j] == BindingIds(bindings)[i];
        return false;
      }
      if !BindingShape(b) || RoleKey(b.scope, b.roleId) !in keys {
        assert b in bindings;
        return false;
      }
      assert BindingIds(bindings)[..i + 1] == BindingIds(bindings)[..i] + [b.id];
      ids := ids + {b.id};
      i := i + 1;
    }
    assert BindingIds(bindings)[..i] == BindingIds(bindings);
    ok := true;
  }

  method ValidateRoleGraph(graph: Graph, actions: seq<string>) returns (ok: bool)
    ensures ok <==> ValidGraph(graph, actions)
  {
    CountDistinct(actions);
    if |actions| == 0 || |actions| > MAX_ITEMS || (exists a | a in actions :: !Text(a))
      || |set a | a in actions| != |actions| { return false; }
    if |graph.roles| > MAX_ROLES || |graph.bindings| > MAX_BINDINGS { return false; }
    var known := set a | a in actions;
    assert known == Nodes(actions);
    var roles;
    roles, ok := IndexRoles(graph.roles, known);
    if !ok { return; }
    ok := CheckInheritance(graph.roles, known, roles);
    if !ok { return; }
    ok := CheckBindings(graph.bindings, roles.Keys);
    assert forall k :: k in roles.Keys <==> k in Keys(graph.roles);
  }

  /** The depth-first walk over the indexed roles. */
  method CheckInheritance(list: seq<Role>, known: set<string>, roles: map<RoleKey, Role>) returns (ok: bool)
    requires RolesValid(list, known) && Indexes(roles, list)
    ensures ok <==> Closed(Inheritance(list)) && Acyclic(Inheritance(list))
  {
    var edges := map k | k in roles :: Parents(roles[k]);
    WalkJudgesInheritance(list, known, roles, edges);
    var walk := new DepthFirst<RoleKey>(edges);
    ok := walk.Run(Keys(list));
  }

  // ---- What a role and a principal hold ----

  /** The roles of one scope by id, the first of several with the same id. */
  function ScopedRoles(roles: seq<Role>, scope: Scope): (m: map<string, Role>)
    ensures forall id | id in m :: m[id] in roles && m[id].scope == scope && m[id].id == id
    ensures forall r | r in roles && r.scope == scope :: r.id in m
  {
    if roles == [] then map[]
    else
      var last := roles[|roles| - 1];
      var m := ScopedRoles(roles[..|roles| - 1], scope);
      if last.scope == scope && last.id !in m then m[last.id := last] else m
  }

  method CollectScopedRoles(graph: Graph, scope: Scope) returns (roles: map<string, Role>)
    ensures roles == ScopedRoles(graph.roles, scope)
  {
    roles := map[];
    var i := 0;
    while i < |graph.roles|
      invariant 0 <= i <= |graph.roles|
      invariant roles == ScopedRoles(graph.roles[..i], scope)
    {
      assert graph.roles[..i + 1][..i] == graph.roles[..i];
      if graph.roles[i].scope == scope && graph.roles[i].id !in roles {
        roles := roles[graph.roles[i].id := graph.roles[i]];
      }
      i := i + 1;
    }
    assert graph.roles[..i] == graph.roles;
  }

  /** Inheritance among the roles of one scope. */
  ghost function ParentIds(roles: map<string, Role>): Digraphs.Graph<string> {
    map id | id in roles :: Nodes(roles[id].inherits)
  }

  /** `p` is given by `roleId` itself or by a role it inherits from, at any distance. */
  ghost predicate Gives(roles: map<string, Role>, roleId: string, p: Permission) {
    exists id :: Reaches(ParentIds(roles), roleId, id) && id in roles && p in roles[id].permissions
  }

  ghost predicate RoleGives(graph: Graph, roleId: string, scope: Scope, p: Permission) {
    Gives(ScopedRoles(graph.roles, scope), roleId, p)
  }

  /** Within the limits that the expansion re-checks on every role it meets. */
  predicate Small(role: Role) {
    |role.permissions| <= MAX_ITEMS && |role.inherits| <= MAX_ROLES
  }

  ghost function ReachedRoles(roles: map<string, Role>, roleId: string): set<string> {
    set id | id in roles && Reaches(ParentIds(roles), roleId, id)
  }

  /** Exactly when the expansion does not throw. */
  ghost predicate Expandable(roles: map<string, Role>, roleId: string) {
    && (forall id | Reaches(ParentIds(roles), roleId, id) :: id in roles && Small(roles[id]))
    && |ReachedRoles(roles, roleId)| <= MAX_ROLES
  }

  ghost predicate Frontier(roles: map<string, Role>, roleId: string, visited: set<string>, pending: seq<string>) {
    && (roleId in visited || roleId in pending)
    && (forall id | id in visited || id in pending :: Reaches(ParentIds(roles), roleId, id))
    && (forall id | id in visited :: id in roles && Small(roles[id]))
    && (forall id, parent | id in visited && id in roles && parent in roles[id].inherits ::
          parent in visited || parent in pending)
  }

  /** With nothing pending, the visited roles are all the roles reached. */
  lemma DrainedFrontier(roles: map<string, Role>, roleId: string, visited: set<string>)
    requires Frontier(roles, roleId, visited, [])
    ensures forall id :: Reaches(ParentIds(roles), roleId, id) <==> id in visited
    ensures ReachedRoles(roles, roleId) == visited
  {
    var g := ParentIds(roles);
    forall id | Reaches(g, roleId, id) ensures id in visited {
      assert ClosedUnder(g, visited);
      ReachStaysInside(g, visited, roleId, id);
    }
  }

  lemma VisitKeepsFrontier(roles: map<string, Role>, roleId: string, visited: set<string>, pending: seq<string>)
    requires pending != [] && Frontier(roles, roleId, visited, pending)
    ensures var id := pending[|pending| - 1];
            id in visited ==> Frontier(roles, roleId, visited, pending[..|pending| - 1])
    ensures var id := pending[|pending| - 1];
            id in roles && Small(roles[id]) ==>
              Frontier(roles, roleId, visited + {id}, pending[..|pending| - 1] + roles[id].inherits)
  {
    var id, rest := pending[|pending| - 1], pending[..|pending| - 1];
    assert forall k :: k in pending <==> k == id || k in rest;
    if id in roles && Small(roles[id]) {
      var g := ParentIds(roles);
      var next := rest + roles[id].inherits;
      forall k | k in visited + {id} || k in next ensures Reaches(g, roleId, k) {
        if k in roles[id].inherits { ReachesStep(g, roleId, id, k); }
      }
    }
  }

  /** The 513th role met is reachable, so the guard only refuses graphs with too many reached roles. */
  lemma GuardMeansTooMany(roles: map<string, Role>, roleId: string, visited: set<string>, id: string)
    requires |visited| >= MAX_ROLES && id !in visited
    requires forall k | k in visited + {id} :: Reaches(ParentIds(roles), roleId, k)
    requires forall k | k in visited :: k in roles
    ensures !Expandable(roles, roleId)
  {
    if id in roles {
      var reached := ReachedRoles(roles, roleId);
      assert visited + {id} <= reached;
      SubsetSize(visited + {id}, reached);
    }
  }

  /** `Map.set` under the permission's own key: an equal permission keeps its place. */
  method AddPermissions(start: seq<Permission>, more: seq<Permission>) returns (all: seq<Permission>)
    requires NoDuplicates(start)
    ensures NoDuplicates(all) && forall p :: p in all <==> p in start || p in more
  {
    all := start;
    var i := 0;
    while i < |more|
      invariant 0 <= i <= |more|
      invariant NoDuplicates(all) && forall p :: p in all <==> p in start || p in more[..i]
    {
      assert more[..i + 1] == more[..i] + [more[i]];
      if more[i] !in all { all := all + [more[i]]; }
      i := i + 1;
    }
    assert more[..i] == more;
  }

  /** The worklist closure; `None` stands for the thrown error. */
  method ExpandRolePermissions(roles: map<string, Role>, roleId: string) returns (r: Option<seq<Permission>>)
    ensures r.Some? <==> Expandable(roles, roleId)
    ensures r.Some? ==> NoDuplicates(r.value) && forall p :: p in r.value <==> Gives(roles, roleId, p)
  {
    var pending := [roleId];
    var visited: set<string> := {};
    var permissions: seq<Permission> := [];
    ReachesItself(ParentIds(roles), roleId);
    while |pending| > 0
      invariant Frontier(roles, roleId, visited, pending)
      invariant |visited| <= MAX_ROLES
      invariant NoDuplicates(permissions)
      invariant forall p :: p in permissions <==>
                  exists id :: id in visited && id in roles && p in roles[id].permissions
      decreases roles.Keys - visited, |pending|
    {
      VisitKeepsFrontier(roles, roleId, visited, pending);
      var id := pending[|pending| - 1];
      pending := pending[..|pending| - 1];
      if id in visited { continue; }
      if |visited| >= MAX_ROLES {
        GuardMeansTooMany(roles, roleId, visited, id);
        return None;
      }
      if id !in roles || !Small(roles[id]) { return None; }
      visited := visited + {id};
      permissions := AddPermissions(permissions, roles[id].permissions);
      pending := pending + roles[id].inherits;
    }
    DrainedFrontier(roles, roleId, visited);
    r := Some(permissions);
  }

  method EffectiveRolePermissions(graph: Graph, roleId: string, scope: Scope) returns (r: Option<seq<Permission>>)
    ensures r.Some? <==> Expandable(ScopedRoles(graph.roles, scope), roleId)
    ensures r.Some? ==> NoDuplicates(r.value) && forall p :: p in r.value <==> RoleGives(graph, roleId, scope, p)
  {
    var roles := CollectScopedRoles(graph, scope);
    r := ExpandRolePermissions(roles, roleId);
  }

  /** The binding gives `principal` its role in `scope` at time `now`. */
  predicate Applies(b: Binding, principal: Principal, scope: Scope, now: int) {
    && b.principal == principal && b.scope == scope
    && (b.expiresAt == None || b.expiresAt.value > now)
  }

  ghost predicate Holds(graph: Graph, principal: Principal, scope: Scope, now: int, p: Permission) {
    exists b :: b in graph.bindings && Applies(b, principal, scope, now) && RoleGives(graph, b.roleId, scope, p)
  }

  method EffectivePermissions(graph: Graph, principal: Principal, scope: Scope, now: int)
    returns (r: Option<seq<Permission>>)
    ensures r.Some? <==> forall b | b in graph.bindings && Applies(b, principal, scope, now) ::
              Expandable(ScopedRoles(graph.roles, scope), b.roleId)
    ensures r.Some? ==> NoDuplicates(r.value)
    ensures r.Some? ==> forall p :: p in r.value <==>
              exists b :: b in graph.bindings && b.principal == principal && b.scope == scope
                          && (b.expiresAt.Some? ==> now < b.expiresAt.value) && RoleGives(graph, b.roleId, scope, p)
  {
    var roles := CollectScopedRoles(graph, scope);
    var permissions: seq<Permission> := [];
    var i := 0;
    while i < |graph.bindings|
      invariant 0 <= i <= |graph.bindings|
      invariant NoDuplicates(permissions)
      invariant forall b | b in graph.bindings[..i] && Applies(b, principal, scope, now) :: Expandable(roles, b.roleId)
      invariant forall p :: p in permissions <==>
                  exists b :: b in graph.bindings[..i] && Applies(b, principal, scope, now) && Gives(roles, b.roleId, p)
    {
      var b := graph.bindings[i];
      assert graph.bindings[..i + 1] == graph.bindings[..i] + [b];
      if Applies(b, principal, scope, now) {
        var more := ExpandRolePermissions(roles, b.roleId);
        if more == None { return None; }
        permissions := AddPermissions(permissions, more.value);
      }
      i := i + 1;
    }
    assert graph.bindings[..i] == graph.bindings;
    r := Some(permissions);
  }

  /** What somebody holds depends on the roles and on its own bindings in that scope, and on nobody else's. */
  lemma HoldingsAreOnesOwn(graph: Graph, other: Graph, q: Principal, scope: Scope, now: int, p: Permission)
    requires graph.roles == other.roles
    requires forall b: Binding | b.principal == q && b.scope == scope :: b in graph.bindings <==> b in other.bindings
    ensures Holds(graph, q, scope, now, p) <==> Holds(other, q, scope, now, p)
  {
    assert RoleGives(graph, "", scope, p) <==> RoleGives(other, "", scope, p);
    if b :| b in graph.bindings && Applies(b, q, scope, now) && RoleGives(graph, b.roleId, scope, p) {
      assert b in other.bindings && RoleGives(other, b.roleId, scope, p);
    }
    if b :| b in other.bindings && Applies(b, q, scope, now) && RoleGives(other, b.roleId, scope, p) {
      assert b in graph.bindings && RoleGives(graph, b.roleId, scope, p);
    }
  }

  /** Somebody without a binding of its own in a scope holds nothing there, and a binding gives nothing once it is
      over. */
  lemma NothingFromNothing(graph: Graph, q: Principal, scope: Scope, now: int, p: Permission)
    requires forall b | b in graph.bindings ::
               b.principal != q || b.scope != scope || (b.expiresAt.Some? && b.expiresAt.value <= now)
    ensures !Holds(graph, q, scope, now, p)
  {
  }

  // ---- On validated graphs nothing throws ----

  lemma {:induction false} ScopedRolesSize(roles: seq<Role>, scope: Scope)
    ensures |ScopedRoles(roles, scope)| <= |roles|
  {
    if roles != [] { ScopedRolesSize(roles[..|roles| - 1], scope); }
  }

  /** A name that a valid role inherits is a role of its scope. */
  lemma ParentIsDeclared(list: seq<Role>, i: nat, parent: string)
    requires NoDuplicates(Keys(list)) && Closed(Inheritance(list)) && i < |list| && parent in list[i].inherits
    ensures RoleKey(list[i].scope, parent) in Keys(list)
  {
    var k := RoleKey(list[i].scope, parent);
    InheritanceAt(list);
    assert k in Inheritance(list)[Keys(list)[i]];
  }

  lemma {:induction false} KeyIsScoped(list: seq<Role>, scope: Scope, id: string)
    ensures RoleKey(scope, id) in Keys(list) <==> id in ScopedRoles(list, scope)
  {
    var roles := ScopedRoles(list, scope);
    if RoleKey(scope, id) in Keys(list) {
      var i :| 0 <= i < |list| && Keys(list)[i] == RoleKey(scope, id);
      assert list[i] in list;
    }
    if id in roles {
      var i :| 0 <= i < |list| && list[i] == roles[id];
      assert Keys(list)[i] == RoleKey(scope, id);
    }
  }

  /** In a validated graph, the names a scope's roles inherit are roles of that scope. */
  lemma {:induction false} ScopedInheritanceCloses(graph: Graph, actions: seq<string>, scope: Scope)
    requires ValidGraph(graph, actions)
    ensures ClosedUnder(ParentIds(ScopedRoles(graph.roles, scope)), ScopedRoles(graph.roles, scope).Keys)
    ensures forall id | id in ScopedRoles(graph.roles, scope) :: Small(ScopedRoles(graph.roles, scope)[id])
  {
    var roles := ScopedRoles(graph.roles, scope);
    forall id | id in roles ensures Small(roles[id]) && Nodes(roles[id].inherits) <= roles.Keys {
      assert RoleValid(roles[id], Nodes(actions));
      var i :| 0 <= i < |graph.roles| && graph.roles[i] == roles[id];
      forall parent | parent in roles[id].inherits ensures parent in roles {
        ParentIsDeclared(graph.roles, i, parent);
        KeyIsScoped(graph.roles, scope, parent);
      }
    }
  }

  /** Where inheritance stays inside a bounded scope of bounded roles, every role expands. */
  lemma ClosedScopeExpands(roles: map<string, Role>, roleId: string)
    requires ClosedUnder(ParentIds(roles), roles.Keys) && |roles| <= MAX_ROLES && roleId in roles
    requires forall id | id in roles :: Small(roles[id])
    ensures Expandable(roles, roleId)
  {
    var g := ParentIds(roles);
    forall id | Reaches(g, roleId, id) ensures id in roles { ReachStaysInside(g, roles.Keys, roleId, id); }
    SubsetSize(ReachedRoles(roles, roleId), roles.Keys);
  }

  lemma ExpandableIsKnown(roles: map<string, Role>, roleId: string)
    requires Expandable(roles, roleId)
    ensures roleId in roles
  {
    ReachesItself(ParentIds(roles), roleId);
  }

  lemma {:induction false} ValidGraphExpands(graph: Graph, actions: seq<string>, roleId: string, scope: Scope)
    requires ValidGraph(graph, actions)
    ensures Expandable(ScopedRoles(graph.roles, scope), roleId) <==> RoleKey(scope, roleId) in Keys(graph.roles)
  {
    var roles := ScopedRoles(graph.roles, scope);
    KeyIsScoped(graph.roles, scope, roleId);
    if roleId in roles {
      ScopedInheritanceCloses(graph, actions, scope);
      ScopedRolesSize(graph.roles, scope);
      ClosedScopeExpands(roles, roleId);
    } else if Expandable(roles, roleId) {
      ExpandableIsKnown(roles, roleId);
    }
  }

  /** On every validated graph, what any principal holds is computed without an error. */
  lemma {:induction false} ValidGraphNeverThrows(graph: Graph, actions: seq<string>, principal: Principal,
      scope: Scope, now: int)
    requires ValidGraph(graph, actions)
    ensures forall b | b in graph.bindings && Applies(b, principal, scope, now) ::
              Expandable(ScopedRoles(graph.roles, scope), b.roleId)
  {
    forall b | b in graph.bindings && Applies(b, principal, scope, now)
      ensures Expandable(ScopedRoles(graph.roles, scope), b.roleId)
    {
      ValidGraphExpands(graph, actions, b.roleId, scope);
    }
  }
}
