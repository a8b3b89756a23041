/** Start and stop order of supervised services: `ordered` and the drain inside `close`. */
module Workspace {
  import opened Digraphs

  /** `wellFormed` stands for the non-blank id, the timeout bounds and the non-empty commands. */
  datatype Service = Service(id: string, dependsOn: seq<string>, wellFormed: bool)

  datatype Plan = Planned(services: seq<Service>) | InvalidWorkspace

  function Ids(services: seq<Service>): (ids: seq<string>)
    ensures |ids| == |services|
    ensures forall i :: 0 <= i < |services| ==> ids[i] == services[i].id
  {
    seq(|services|, i requires 0 <= i < |services| => services[i].id)
  }

  ghost predicate Declared(services: seq<Service>) {
    (forall s | s in services :: s.wellFormed) && NoDuplicates(Ids(services))
  }

  /** Every service with the set of services it depends on. */
  ghost function DependsOn(services: seq<Service>): Graph<string>
    requires NoDuplicates(Ids(services))
  {
    map i | 0 <= i < |services| :: Ids(services)[i] := set d | d in services[i].dependsOn
  }

  function ToAll(names: seq<string>): (edges: seq<Edge<string>>)
    ensures |edges| == |names| && Refused !in edges
    ensures forall n :: To(n) in edges <==> n in names
  {
    var edges := seq(|names|, i requires 0 <= i < |names| => To(names[i]));
    assert forall i :: 0 <= i < |names| ==> edges[i] == To(names[i]);
    edges
  }

  /** The map of a list's services by their ids. */
  ghost predicate Indexes(byId: map<string, Service>, services: seq<Service>) {
    && (forall k :: k in byId <==> k in Ids(services))
    && (forall i :: 0 <= i < |services| ==> services[i].id in byId && byId[services[i].id] == services[i])
  }

  lemma IndexGrows(byId: map<string, Service>, services: seq<Service>, i: nat)
    requires i < |services| && Indexes(byId, services[..i]) && Declared(services[..i])
    requires services[i].wellFormed && services[i].id !in byId
    ensures Indexes(byId[services[i].id := services[i]], services[..i + 1]) && Declared(services[..i + 1])
  {
    var longer := services[..i + 1];
    assert Ids(longer) == Ids(services[..i]) + [services[i].id];
    assert forall j :: 0 <= j < i ==> longer[j] == services[..i][j];
    assert forall s | s in longer :: s in services[..i] || s == services[i];
  }

  lemma IndexMeets(byId: map<string, Service>, services: seq<Service>, i: nat)
    requires i < |services| && Indexes(byId, services[..i]) && services[i].id in byId
    ensures !NoDuplicates(Ids(services))
  {
    var j :| 0 <= j < i && Ids(services[..i])[j] == services[i].id;
    assert Ids(services)[j] == Ids(services)[i];
  }

  /** `new Map` filled by the checking loop at the top of `ordered`. */
  method Index(services: seq<Service>) returns (byId: map<string, Service>, ok: bool)
    ensures ok <==> Declared(services)
    ensures ok ==> Indexes(byId, services)
  {
    byId := map[];
    var i := 0;
    while i < |services|
      invariant 0 <= i <= |services| && Indexes(byId, services[..i]) && Declared(services[..i])
    {
      var service := services[i];
      assert service in services;
      if !service.wellFormed { return byId, false; }
      if service.id in byId {
        IndexMeets(byId, services, i);
        return byId, false;
      }
      IndexGrows(byId, services, i);
      byId := byId[service.id := service];
      i := i + 1;
    }
    assert services[..i] == services;
    ok := true;
  }

  lemma DependsOnAt(services: seq<Service>)
    requires NoDuplicates(Ids(services))
    ensures forall k :: k in DependsOn(services) <==> k in Ids(services)
    ensures forall i, d :: 0 <= i < |services| ==>
              (d in DependsOn(services)[Ids(services)[i]] <==> d in services[i].dependsOn)
  {
    var ids := Ids(services);
    forall k ensures k in DependsOn(services) <==> k in ids {
      if k in ids {
        var i :| 0 <= i < |services| && ids[i] == k;
      }
    }
    forall i, d | 0 <= i < |services| ensures d in DependsOn(services)[ids[i]] <==> d in services[i].dependsOn {
      assert DependsOn(services)[ids[i]] == set e | e in services[i].dependsOn;
    }
  }

  lemma IndexIsGraph(services: seq<Service>, byId: map<string, Service>, edges: map<string, seq<Edge<string>>>)
    requires Declared(services) && Indexes(byId, services)
    requires edges.Keys == byId.Keys && forall k | k in byId :: edges[k] == ToAll(byId[k].dependsOn)
    ensures Arrows(edges) == DependsOn(services)
    ensures forall k | k in edges :: Refused !in edges[k]
  {
    var g, h := Arrows(edges), DependsOn(services);
    IndexHasKeys(services, byId, edges);
    forall k | k in g ensures g[k] == h[k] {
      var i :| 0 <= i < |services| && Ids(services)[i] == k;
      assert byId[services[i].id] == services[i];
      RowIsGraph(services, edges, i);
    }
    SameGraph(g, h);
  }

  lemma IndexHasKeys(services: seq<Service>, byId: map<string, Service>, edges: map<string, seq<Edge<string>>>)
    requires NoDuplicates(Ids(services)) && Indexes(byId, services) && edges.Keys == byId.Keys
    ensures Arrows(edges).Keys == DependsOn(services).Keys
  {
    DependsOnAt(services);
    assert forall k :: k in Arrows(edges) <==> k in DependsOn(services);
  }

  lemma RowIsGraph(services: seq<Service>, edges: map<string, seq<Edge<string>>>, i: nat)
    requires NoDuplicates(Ids(services)) && i < |services|
    requires Ids(services)[i] in edges && edges[Ids(services)[i]] == ToAll(services[i].dependsOn)
    ensures Ids(services)[i] in DependsOn(services)
    ensures Arrows(edges)[Ids(services)[i]] == DependsOn(services)[Ids(services)[i]]
  {
    DependsOnAt(services);
    var k := Ids(services)[i];
    forall d ensures d in Arrows(edges)[k] <==> d in DependsOn(services)[k] {
      assert d in Arrows(edges)[k] <==> To(d) in edges[k];
    }
  }

  /** Each service once, after every service it names. */
  ghost predicate StartsInTurn(services: seq<Service>, order: seq<Service>) {
    && (forall s :: s in order <==> s in services)
    && (forall i, j | 0 <= i < j < |order| :: order[i].id != order[j].id)
    && (forall i, d | 0 <= i < |order| && d in order[i].dependsOn :: exists j :: 0 <= j < i && order[j].id == d)
  }

  lemma ServiceAt(services: seq<Service>, s: Service)
    requires NoDuplicates(Ids(services)) && s in services
    ensures s.id in DependsOn(services) && forall d :: d in DependsOn(services)[s.id] <==> d in s.dependsOn
  {
    DependsOnAt(services);
    var i :| 0 <= i < |services| && services[i] == s;
    assert Ids(services)[i] == s.id;
  }

  lemma IdsAmong(some: seq<Service>, all: seq<Service>)
    requires forall s | s in some :: s in all
    ensures forall k | k in Ids(some) :: k in Ids(all)
  {
    forall k | k in Ids(some) ensures k in Ids(all) {
      var i :| 0 <= i < |some| && Ids(some)[i] == k;
      assert some[i] in all;
      var j :| 0 <= j < |all| && all[j] == some[i];
      assert Ids(all)[j] == k;
    }
  }

  lemma InTurnHasAll(services: seq<Service>, order: seq<Service>)
    requires NoDuplicates(Ids(services)) && forall s :: s in order <==> s in services
    ensures forall k :: k in Ids(order) <==> k in DependsOn(services)
  {
    DependsOnAt(services);
    IdsAmong(services, order);
    IdsAmong(order, services);
  }

  lemma InTurnIsTopological(services: seq<Service>, order: seq<Service>)
    requires NoDuplicates(Ids(services)) && StartsInTurn(services, order)
    ensures Topological(DependsOn(services), Ids(order))
  {
    hide DependsOn;
    var g, ids := DependsOn(services), Ids(order);
    InTurnHasAll(services, order);
    forall i | 0 <= i < |ids| ensures ids[i] in g && forall d | d in g[ids[i]] :: d in ids[..i] {
      ServiceAt(services, order[i]);
      forall d | d in g[ids[i]] ensures d in ids[..i] {
        var j :| 0 <= j < i && order[j].id == d;
        assert ids[..i][j] == d;
      }
    }
  }

  lemma TopologicalIsInTurn(services: seq<Service>, order: seq<Service>)
    requires NoDuplicates(Ids(services)) && (forall s :: s in order <==> s in services)
    requires Topological(DependsOn(services), Ids(order))
    ensures StartsInTurn(services, order)
  {
    hide DependsOn;
    var g, ids := DependsOn(services), Ids(order);
    forall i, d | 0 <= i < |order| && d in order[i].dependsOn ensures exists j :: 0 <= j < i && order[j].id == d {
      ServiceAt(services, order[i]);
      assert d in g[ids[i]];
      var j :| 0 <= j < i && ids[..i][j] == d;
      assert order[j].id == d;
    }
    forall i, j | 0 <= i < j < |order| ensures order[i].id != order[j].id {
      assert ids[i] != ids[j];
    }
  }

  /** There is a plan exactly if the services can be started in turn at all. */
  method Ordered(services: seq<Service>) returns (plan: Plan)
    ensures plan.Planned? <==> Declared(services) && exists order :: StartsInTurn(services, order)
    ensures plan.Planned? ==> StartsInTurn(services, plan.services)
    ensures plan.Planned? <==>
            Declared(services) && Closed(DependsOn(services)) && Acyclic(DependsOn(services))
    ensures plan.Planned? ==> Topological(DependsOn(services), Ids(plan.services))
    ensures plan.Planned? ==> forall s :: s in plan.services <==> s in services
  {
    var byId, ok := Index(services);
    if !ok { return InvalidWorkspace; }
    if exists order :: StartsInTurn(services, order) { InTurnIsPlanned(services); }
    var edges := map k | k in byId :: ToAll(byId[k].dependsOn);
    IndexIsGraph(services, byId, edges);
    var walk := new DepthFirst<string>(edges);
    ok := walk.Run(Ids(services));
    if !ok { return InvalidWorkspace; }
    var order := walk.order;
    var result := seq(|order|, i requires 0 <= i < |order| && order[i] in byId => byId[order[i]]);
    SameServices(services, byId, order, result);
    plan := Planned(result);
    TopologicalIsInTurn(services, result);
  }

  lemma InTurnIsPlanned(services: seq<Service>)
    requires Declared(services) && exists order :: StartsInTurn(services, order)
    ensures Closed(DependsOn(services)) && Acyclic(DependsOn(services))
  {
    var order :| StartsInTurn(services, order);
    InTurnIsTopological(services, order);
    TopologicalImpliesAcyclic(DependsOn(services), Ids(order));
  }

  lemma SameServices(services: seq<Service>, byId: map<string, Service>, order: seq<string>, result: seq<Service>)
    requires Indexes(byId, services)
    requires forall k :: k in order <==> k in byId
    requires |result| == |order| && forall i :: 0 <= i < |order| ==> result[i] == byId[order[i]]
    ensures Ids(result) == order
    ensures forall s :: s in result <==> s in services
  {
    forall i | 0 <= i < |order| ensures result[i] in services && result[i].id == order[i] {
      assert order[i] in byId;
      var j :| 0 <= j < |services| && Ids(services)[j] == order[i];
      assert byId[services[j].id] == services[j];
    }
    forall s | s in services ensures s in result {
      var j :| 0 <= j < |services| && services[j] == s;
      var i :| 0 <= i < |order| && order[i] == services[j].id;
      assert result[i] == s;
    }
  }

  /** The ids stopped by `close`: the planned order backwards, skipping services that are not active. */
  method StopOrder(planned: seq<Service>, active: set<string>) returns (stopped: seq<string>)
    requires NoDuplicates(Ids(planned))
    ensures forall k :: k in stopped <==> k in active && k in Ids(planned)
    ensures NoDuplicates(stopped)
    ensures forall a, b :: 0 <= a < b < |planned| && planned[a].id in active && planned[b].id in active ==>
              StopsBefore(stopped, planned[b].id, planned[a].id)
  {
    stopped := [];
    var i := |planned|;
    while i > 0
      invariant 0 <= i <= |planned|
      invariant forall k :: k in stopped <==> k in active && k in Ids(planned)[i..]
      invariant NoDuplicates(stopped)
      invariant forall a, b :: i <= a < b < |planned| && planned[a].id in active && planned[b].id in active ==>
                  StopsBefore(stopped, planned[b].id, planned[a].id)
    {
      i := i - 1;
      assert Ids(planned)[i..] == [planned[i].id] + Ids(planned)[i + 1..];
      if planned[i].id in active {
        ghost var shorter := stopped;
        stopped := stopped + [planned[i].id];
        forall a, b | i <= a < b < |planned| && planned[a].id in active && planned[b].id in active
          ensures StopsBefore(stopped, planned[b].id, planned[a].id)
        {
          if a == i {
            assert planned[b].id == Ids(planned)[i + 1..][b - i - 1];
            var m :| 0 <= m < |shorter| && shorter[m] == planned[b].id;
            assert stopped[m] == planned[b].id && stopped[|shorter|] == planned[i].id;
          } else {
            var m, n :| 0 <= m < n < |shorter| && shorter[m] == planned[b].id && shorter[n] == planned[a].id;
            assert stopped[m] == shorter[m] && stopped[n] == shorter[n];
          }
        }
      }
    }
    assert Ids(planned)[0..] == Ids(planned);
  }

  ghost predicate StopsBefore(stopped: seq<string>, earlier: string, later: string) {
    exists m, n :: 0 <= m < n < |stopped| && stopped[m] == earlier && stopped[n] == later
  }

  /** What `close` promises: with the planned order, an active service stops before its active dependencies. */
  method CloseWorkspace(services: seq<Service>, active: set<string>) returns (planned: bool, stopped: seq<string>)
    ensures planned <==>
            Declared(services) && Closed(DependsOn(services)) && Acyclic(DependsOn(services))
    ensures planned ==> forall k :: k in stopped <==> k in active && k in Ids(services)
    ensures planned ==> NoDuplicates(stopped)
    ensures planned ==> forall s, i, j | s in services && 0 <= i < |stopped| && 0 <= j < |stopped|
                                         && stopped[i] == s.id && stopped[j] in s.dependsOn :: i < j
    ensures planned ==> forall k, d | k in DependsOn(services) && d in DependsOn(services)[k] && k in active
            && d in active ::
              StopsBefore(stopped, k, d)
  {
    var plan := Ordered(services);
    if plan.InvalidWorkspace? { return false, []; }
    stopped := StopOrder(plan.services, active);
    planned := true;
    DependsOnAt(services);
    StopsRespect(DependsOn(services), plan.services, active, stopped);
  }

  lemma StopsRespect(g: Graph<string>, services: seq<Service>, active: set<string>, stopped: seq<string>)
    requires Topological(g, Ids(services))
    requires forall a, b :: 0 <= a < b < |services| && services[a].id in active && services[b].id in active ==>
               StopsBefore(stopped, services[b].id, services[a].id)
    ensures forall k, d | k in g && d in g[k] && k in active && d in active :: StopsBefore(stopped, k, d)
  {
    var order := Ids(services);
    forall k, d | k in g && d in g[k] && k in active && d in active
      ensures StopsBefore(stopped, k, d)
    {
      var b :| 0 <= b < |order| && order[b] == k;
      assert d in order[..b];
      var a :| 0 <= a < b && order[a] == d;
      assert services[a].id == d && services[b].id == k;
    }
  }
}
