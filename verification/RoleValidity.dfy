/** What a valid role graph is, field by field and without reference to keys. */
module RoleValidity {
  import opened Digraphs
  import opened RoleGraph

  predicate Short(s: string) {
    s != "" && |s| < 257
  }

  /** The role has proper names, no more than 512 permissions of its own scope, for known actions, and no permission or
      parent twice. */
  ghost predicate RoleReads(r: Role, actions: seq<string>) {
    && Short(r.id) && Short(r.scope.kind) && Short(r.scope.id) && |r.permissions| <= 512 && |r.inherits| <= 512
    && (forall i | 0 <= i < |r.permissions| ::
          && r.permissions[i].action in actions && Short(r.permissions[i].resourceType)
          && r.permissions[i].scope.kind == r.scope.kind && r.permissions[i].scope.id == r.scope.id
          && (r.permissions[i].resourceId.Some? ==> Short(r.permissions[i].resourceId.value)))
    && (forall i, j | 0 <= i < j < |r.permissions| :: r.permissions[i] != r.permissions[j])
    && (forall i, j | 0 <= i < j < |r.inherits| :: r.inherits[i] != r.inherits[j])
  }

  /** The binding has proper names and no negative expiry. */
  predicate BindingReads(b: Binding) {
    && Short(b.id) && Short(b.principal.realmId) && Short(b.principal.subjectId) && Short(b.principal.kind)
    && Short(b.scope.kind) && Short(b.scope.id) && Short(b.roleId) && (b.expiresAt.Some? ==> 0 <= b.expiresAt.value)
  }

  ghost predicate Names(roles: seq<Role>, scope: Scope, id: string) {
    exists i :: 0 <= i < |roles| && roles[i].scope == scope && roles[i].id == id
  }

  /** Roles of one list, each naming the next as a parent in its own scope, and the last of them the first again. */
  ghost predicate Circle(roles: seq<Role>, p: seq<Role>) {
    && |p| >= 2 && p[0] == p[|p| - 1] && (forall i | 0 <= i < |p| :: p[i] in roles)
    && forall i | 0 <= i < |p| - 1 :: p[i + 1].id in p[i].inherits && p[i + 1].scope == p[i].scope
  }

  lemma RoleMeans(r: Role, actions: seq<string>)
    ensures RoleValid(r, Nodes(actions)) <==> RoleReads(r, actions)
  {
    forall i | 0 <= i < |r.permissions| ensures r.permissions[i] in r.permissions {}
  }

  lemma RolesMean(roles: seq<Role>, actions: seq<string>)
    ensures AllValid(roles, Nodes(actions)) <==> forall i | 0 <= i < |roles| :: RoleReads(roles[i], actions)
  {
    hide RoleValid, RoleReads;
    forall r ensures RoleValid(r, Nodes(actions)) <==> RoleReads(r, actions) { RoleMeans(r, actions); }
    if forall i | 0 <= i < |roles| :: RoleReads(roles[i], actions) {
      forall r | r in roles ensures RoleValid(r, Nodes(actions)) { }
    }
    if AllValid(roles, Nodes(actions)) {
      forall i | 0 <= i < |roles| ensures RoleReads(roles[i], actions) { assert RoleValid(roles[i], Nodes(actions)); }
    }
  }

  lemma NamesMean(roles: seq<Role>, scope: Scope, id: string)
    ensures RoleKey(scope, id) in Keys(roles) <==> Names(roles, scope, id)
  {
    if RoleKey(scope, id) in Keys(roles) {
      var i :| 0 <= i < |roles| && Keys(roles)[i] == RoleKey(scope, id);
      assert roles[i].scope == scope && roles[i].id == id;
    }
    if Names(roles, scope, id) {
      var i :| 0 <= i < |roles| && roles[i].scope == scope && roles[i].id == id;
      assert Keys(roles)[i] == RoleKey(scope, id);
    }
  }

  lemma BindingsMean(graph: RoleGraph.Graph)
    ensures BindingsValid(graph) <==>
              && (forall i | 0 <= i < |graph.bindings| ::
                    BindingReads(graph.bindings[i])
                        && Names(graph.roles, graph.bindings[i].scope, graph.bindings[i].roleId))
              && forall i, j | 0 <= i < j < |graph.bindings| :: graph.bindings[i].id != graph.bindings[j].id
  {
    hide Names;
    forall b: Binding ensures BindingShape(b) <==> BindingReads(b) {}
    hide BindingShape, BindingReads;
    forall b | b in graph.bindings
      ensures RoleKey(b.scope, b.roleId) in Keys(graph.roles) <==> Names(graph.roles, b.scope, b.roleId)
    {
      NamesMean(graph.roles, b.scope, b.roleId);
    }
    var ids := BindingIds(graph.bindings);
    assert NoDuplicates(ids) <==> forall i, j | 0 <= i < j < |ids| :: ids[i] != ids[j];
    forall i | 0 <= i < |graph.bindings| ensures graph.bindings[i] in graph.bindings {}
  }

  lemma KeysMean(roles: seq<Role>)
    ensures NoDuplicates(Keys(roles)) <==>
              forall i, j | 0 <= i < j < |roles| :: roles[i].scope != roles[j].scope || roles[i].id != roles[j].id
  {
    var keys := Keys(roles);
    if NoDuplicates(keys) {
      forall i, j | 0 <= i < j < |roles| ensures roles[i].scope != roles[j].scope || roles[i].id != roles[j].id {
        assert keys[i] != keys[j];
      }
    }
  }

  lemma InheritanceAt(roles: seq<Role>, i: nat)
    requires NoDuplicates(Keys(roles)) && i < |roles|
    ensures Key(roles[i]) in Inheritance(roles)
    ensures forall k :: k in Inheritance(roles)[Key(roles[i])] <==>
              k.scope == roles[i].scope && k.id in roles[i].inherits
  {
    assert Keys(roles)[i] == Key(roles[i]);
  }

  lemma ClosedMeans(roles: seq<Role>)
    requires NoDuplicates(Keys(roles))
    ensures Closed(Inheritance(roles)) <==>
              forall i, id | 0 <= i < |roles| && id in roles[i].inherits :: Names(roles, roles[i].scope, id)
  {
    hide Names;
    var g := Inheritance(roles);
    forall k ensures k in g <==> k in Keys(roles) {}
    if Closed(g) {
      forall i, id | 0 <= i < |roles| && id in roles[i].inherits ensures Names(roles, roles[i].scope, id) {
        InheritanceAt(roles, i);
        assert RoleKey(roles[i].scope, id) in g[Key(roles[i])];
        NamesMean(roles, roles[i].scope, id);
      }
    } else {
      var k :| k in g && !(g[k] <= g.Keys);
      var i :| 0 <= i < |roles| && Keys(roles)[i] == k;
      var d :| d in g[k] && d !in g;
      InheritanceAt(roles, i);
      NamesMean(roles, roles[i].scope, d.id);
      assert !Names(roles, roles[i].scope, d.id);
    }
  }

  lemma CircleIsCycle(roles: seq<Role>, p: seq<Role>)
    requires NoDuplicates(Keys(roles)) && Circle(roles, p)
    ensures Cycle(Inheritance(roles), Keys(p))
  {
    var g, keys := Inheritance(roles), Keys(p);
    forall i | 0 <= i < |p| - 1 ensures keys[i] in g && keys[i + 1] in g[keys[i]] {
      var n :| 0 <= n < |roles| && roles[n] == p[i];
      InheritanceAt(roles, n);
    }
    var n :| 0 <= n < |roles| && roles[n] == p[|p| - 1];
    InheritanceAt(roles, n);
  }

  lemma RolesOf(roles: seq<Role>, keys: seq<RoleKey>) returns (p: seq<Role>)
    requires forall k | k in keys :: k in Keys(roles)
    ensures Keys(p) == keys && forall i | 0 <= i < |p| :: p[i] in roles
  {
    p := [];
    for n := 0 to |keys|
      invariant |p| == n && forall i | 0 <= i < n :: p[i] in roles && Key(p[i]) == keys[i]
    {
      assert keys[n] in keys;
      var i :| 0 <= i < |roles| && Keys(roles)[i] == keys[n];
      p := p + [roles[i]];
    }
  }

  lemma CycleIsCircle(roles: seq<Role>, keys: seq<RoleKey>) returns (p: seq<Role>)
    requires NoDuplicates(Keys(roles)) && Closed(Inheritance(roles)) && Cycle(Inheritance(roles), keys)
    ensures Circle(roles, p)
  {
    CycleKeys(roles, keys);
    p := RolesOf(roles, keys);
    forall i | 0 <= i < |p| - 1 ensures p[i + 1].id in p[i].inherits && p[i + 1].scope == p[i].scope {
      assert Keys(p)[i] == Key(p[i]) && Keys(p)[i + 1] == Key(p[i + 1]);
      ArrowAt(roles, p[i], Key(p[i + 1]));
    }
    SameKeySameRole(roles, p[0], p[|p| - 1]);
  }

  lemma CycleKeys(roles: seq<Role>, keys: seq<RoleKey>)
    requires NoDuplicates(Keys(roles)) && Closed(Inheritance(roles)) && Cycle(Inheritance(roles), keys)
    ensures forall k | k in keys :: k in Keys(roles)
  {
    var g := Inheritance(roles);
    forall k ensures k in g <==> k in Keys(roles) {}
    hide Inheritance;
    forall i | 0 <= i < |keys| ensures keys[i] in g {
      if i == |keys| - 1 { assert keys[0] in g; }
    }
  }

  lemma ArrowAt(roles: seq<Role>, r: Role, k: RoleKey)
    requires NoDuplicates(Keys(roles)) && r in roles && Key(r) in Inheritance(roles) && k in Inheritance(roles)[Key(r)]
    ensures k.scope == r.scope && k.id in r.inherits
  {
    var n :| 0 <= n < |roles| && roles[n] == r;
    InheritanceAt(roles, n);
  }

  lemma SameKeySameRole(roles: seq<Role>, a: Role, b: Role)
    requires NoDuplicates(Keys(roles)) && a in roles && b in roles && Key(a) == Key(b)
    ensures a == b
  {
    var i :| 0 <= i < |roles| && roles[i] == a;
    var j :| 0 <= j < |roles| && roles[j] == b;
    assert Keys(roles)[i] == Keys(roles)[j];
  }

  /** Exactly these graphs are valid: few enough roles and bindings, proper and distinct; every parent and every bound
      role is there, in the same scope; and no chain of parents comes back to where it began. */
  lemma ValidGraphMeans(graph: RoleGraph.Graph, actions: seq<string>)
    ensures ValidGraph(graph, actions) <==>
              && 1 <= |actions| <= 512 && |graph.roles| <= 512 && |graph.bindings| <= 4096
              && (forall i | 0 <= i < |actions| :: Short(actions[i]))
              && (forall i, j | 0 <= i < j < |actions| :: actions[i] != actions[j])
              && (forall i | 0 <= i < |graph.roles| :: RoleReads(graph.roles[i], actions))
              && (forall i, j | 0 <= i < j < |graph.roles| ::
                    graph.roles[i].scope != graph.roles[j].scope || graph.roles[i].id != graph.roles[j].id)
              && (forall i, id | 0 <= i < |graph.roles| && id in graph.roles[i].inherits ::
                    Names(graph.roles, graph.roles[i].scope, id))
              && (forall p :: !Circle(graph.roles, p))
              && (forall i | 0 <= i < |graph.bindings| ::
                    BindingReads(graph.bindings[i])
                        && Names(graph.roles, graph.bindings[i].scope, graph.bindings[i].roleId))
              && (forall i, j | 0 <= i < j < |graph.bindings| :: graph.bindings[i].id != graph.bindings[j].id)
  {
    hide RoleReads, BindingReads, Names, Circle, AllValid, BindingsValid, Closed, Cycle;
    RolesMean(graph.roles, actions);
    BindingsMean(graph);
    KeysMean(graph.roles);
    if NoDuplicates(Keys(graph.roles)) {
      ClosedMeans(graph.roles);
      if Closed(Inheritance(graph.roles)) { AcyclicMeans(graph.roles); }
    }
    forall i | 0 <= i < |actions| ensures actions[i] in actions {}
  }

  lemma AcyclicMeans(roles: seq<Role>)
    requires NoDuplicates(Keys(roles)) && Closed(Inheritance(roles))
    ensures Acyclic(Inheritance(roles)) <==> forall p :: !Circle(roles, p)
  {
    hide Circle, Cycle;
    if p :| Circle(roles, p) { CircleIsCycle(roles, p); }
    if keys :| Cycle(Inheritance(roles), keys) {
      var p := CycleIsCircle(roles, keys);
    }
  }
}
