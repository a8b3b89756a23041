/** What each change to the role graph does, and when it is permitted, in the fields of roles, bindings and
    authorities. */
module RoleRules {
  import opened Basics
  import opened RoleGraph
  import opened RoleManagement
  import opened RoleRuns

  /** A permission the authority may give: in one of its scopes, and for an action, resource type, scope and resource
      of one of its own. */
  predicate Allows(authority: Authority, p: Permission) {
    && p.scope in authority.scopes
    && exists c :: c in authority.permissions && c.action == p.action && c.resourceType == p.resourceType
                   && c.scope == p.scope && (c.resourceId == None || c.resourceId == p.resourceId)
  }

  predicate EndsInTime(expiresAt: Option<int>, authority: Authority, now: int) {
    expiresAt.Some? && now < expiresAt.value && expiresAt.value <= authority.maxExpiresAt
  }

  /** Each change adds, replaces or removes exactly one role or binding. */
  lemma ChangesMean(graph: RoleGraph.Graph, c: Change)
    ensures var after := Changed(graph, c);
            match c
            case Create(role) =>
              after.bindings == graph.bindings && forall r :: r in after.roles <==> r in graph.roles || r == role
            case Edit(_, role) =>
              && after.bindings == graph.bindings && |after.roles| == |graph.roles|
              && forall i | 0 <= i < |graph.roles| ::
                   after.roles[i] == if graph.roles[i].id == role.id && graph.roles[i].scope == role.scope
                                     then role else graph.roles[i]
            case Bind(b) =>
              after.roles == graph.roles && forall x :: x in after.bindings <==> x in graph.bindings || x == b
            case Delegate(_, _, b) =>
              after.roles == graph.roles && forall x :: x in after.bindings <==> x in graph.bindings || x == b
            case Revoke(_, id) =>
              after.roles == graph.roles && forall x :: x in after.bindings <==> x in graph.bindings && x.id != id
  {
  }

  lemma WithinMeans(p: Permission, authority: Authority)
    ensures Within(p, authority) <==> Allows(authority, p)
  {
  }

  /** Creating needs a valid outcome and the authority over everything the role gives. */
  lemma CreatePermitted(graph: RoleGraph.Graph, role: Role, authority: Authority, actions: seq<string>, now: int)
    ensures Permitted(graph, Create(role), authority, actions, now) <==>
              && ValidGraph(Changed(graph, Create(role)), actions)
              && forall p | RoleGives(Changed(graph, Create(role)), role.id, role.scope, p) :: Allows(authority, p)
  {
    hide Within, Allows, RoleGives, ValidGraph;
    forall p ensures Within(p, authority) <==> Allows(authority, p) { WithinMeans(p, authority); }
  }

  /** Binding needs a valid outcome, an end after now and within the authority's, and the authority over everything
      the role gives. */
  lemma BindPermitted(graph: RoleGraph.Graph, b: Binding, authority: Authority, actions: seq<string>, now: int)
    ensures Permitted(graph, Bind(b), authority, actions, now) <==>
              && ValidGraph(Changed(graph, Bind(b)), actions) && EndsInTime(b.expiresAt, authority, now)
              && forall p | RoleGives(graph, b.roleId, b.scope, p) :: Allows(authority, p)
  {
    hide Within, Allows, RoleGives, ValidGraph;
    forall p ensures Within(p, authority) <==> Allows(authority, p) { WithinMeans(p, authority); }
  }

  /** Delegating needs all that binding does, and a binding of the actor that is not over, ends no sooner, and whose
      role covers what is passed on. */
  lemma DelegatePermitted(graph: RoleGraph.Graph, actor: Principal, sourceId: string, b: Binding, authority: Authority,
                          actions: seq<string>, now: int)
    ensures Permitted(graph, Delegate(actor, sourceId, b), authority, actions, now) <==>
              && Permitted(graph, Bind(b), authority, actions, now)
              && exists source :: source in graph.bindings && Passes(graph, source, actor, sourceId, b, now)
  {
    hide BindAllowed, RoleCovers, RoleGives;
    forall source ensures Passes(graph, source, actor, sourceId, b, now) && b.expiresAt.Some? <==>
        IsSource(source, sourceId, actor, b.scope, now) && DelegatesFrom(graph, source, b) && b.expiresAt.Some?
    {
    }
    assert BindAllowed(graph, b, authority, actions, now) ==>
        b.expiresAt.Some? by { BindEnds(graph, b, authority, actions, now); }
  }

  lemma BindEnds(graph: RoleGraph.Graph, b: Binding, authority: Authority, actions: seq<string>, now: int)
    ensures BindAllowed(graph, b, authority, actions, now) ==> b.expiresAt.Some?
  {
  }

  ghost predicate Passes(graph: RoleGraph.Graph, source: Binding, actor: Principal, sourceId: string, b: Binding,
      now: int)
  {
    && source.id == sourceId && source.principal == actor && source.scope == b.scope
    && (source.expiresAt.Some? ==>
          now < source.expiresAt.value && b.expiresAt.Some? && b.expiresAt.value <= source.expiresAt.value)
    && (forall p {:trigger RoleCovers(graph, source.roleId, source.scope, p)} | RoleGives(graph, b.roleId, b.scope,
          p) ::
          RoleCovers(graph, source.roleId, source.scope, p))
  }

  /** Revoking needs a binding of that id in the scope named. */
  lemma RevokePermitted(graph: RoleGraph.Graph, scope: Scope, id: string, authority: Authority, actions: seq<string>,
                        now: int)
    ensures Permitted(graph, Revoke(scope, id), authority, actions, now) <==>
              exists i :: 0 <= i < |graph.bindings| && graph.bindings[i].id == id && graph.bindings[i].scope == scope
  {
  }

  /** An edit is felt by the role itself and by every role of its scope that then gives more or less. */
  ghost predicate Feels(graph: RoleGraph.Graph, role: Role, id: string) {
    || id == role.id
    || (exists p :: RoleGives(Edited(graph, role), id, role.scope, p) && !RoleCovers(graph, id, role.scope, p))
    || (exists p :: RoleGives(graph, id, role.scope, p) && !RoleCovers(Edited(graph, role), id, role.scope, p))
  }

  /** Editing needs the role, a valid outcome, no gain for the editor now, and for every role that feels it the
      authority over all it then gives, for no longer than the authority lasts. */
  lemma EditPermitted(graph: RoleGraph.Graph, actor: Principal, role: Role, authority: Authority, actions: seq<string>,
                      now: int)
    ensures var next := Changed(graph, Edit(actor, role));
            Permitted(graph, Edit(actor, role), authority, actions, now) <==>
              && (exists i :: 0 <= i < |graph.roles| && graph.roles[i].id == role.id
                    && graph.roles[i].scope == role.scope)
              && ValidGraph(next, actions)
              && (forall r, p | r in next.roles && r.scope == role.scope && Feels(graph, role, r.id)
                                && RoleGives(next, r.id, role.scope, p) :: Allows(authority, p))
              && (forall r, b | r in next.roles && r.scope == role.scope && Feels(graph, role, r.id)
                                && b in graph.bindings && b.roleId == r.id && b.scope == r.scope
                                && (b.expiresAt.Some? ==> now < b.expiresAt.value) ::
                                      EndsInTime(b.expiresAt, authority, now))
              && (forall p | Holds(next, actor, role.scope, now, p) :: HoldsCover(graph, actor, role.scope, now, p))
  {
    var next := Changed(graph, Edit(actor, role));
    hide Within, Allows, RoleGives, ValidGraph, RoleCovers, Holds, HoldsCover, Replaced;
    forall p ensures Within(p, authority) <==> Allows(authority, p) { WithinMeans(p, authority); }
    forall id ensures Feels(graph, role, id) <==> EditReaches(graph, role, id) {}
    forall id ensures AffectedAllowed(graph, role, id, authority, now) <==>
        && (forall p | RoleGives(next, id, role.scope, p) :: Allows(authority, p))
        && (forall b | b in graph.bindings && b.roleId == id && b.scope == role.scope
                       && (b.expiresAt.Some? ==> now < b.expiresAt.value) :: EndsInTime(b.expiresAt, authority, now))
    {
    }
    KeyStands(graph.roles, role);
    hide AffectedAllowed, EditReaches, Feels, EndsInTime;
  }

  lemma KeyStands(roles: seq<Role>, role: Role)
    ensures Key(role) in Keys(roles) <==>
              exists i :: 0 <= i < |roles| && roles[i].id == role.id && roles[i].scope == role.scope
  {
    if Key(role) in Keys(roles) {
      var i :| 0 <= i < |roles| && Keys(roles)[i] == Key(role);
      assert roles[i].id == role.id;
    }
    if i :| 0 <= i < |roles| && roles[i].id == role.id && roles[i].scope == role.scope {
      assert Keys(roles)[i] == Key(role);
    }
  }
}
