/** The order in which an engine sets its plugins up: `orderPlugins` of the engine host. */
module PluginOrder {
  import opened Basics
  import opened Digraphs

  /** `wellFormed` stands for the name pattern, setup-function and source-location checks. */
  datatype Plugin = Plugin(name: string, before: seq<string>, after: seq<string>, wellFormed: bool)

  datatype OrderError = InvalidPlugin | DuplicatePlugin | MissingOrder | CyclicOrder
  datatype Ordering = Ordered(plugins: seq<Plugin>) | Failed(error: OrderError)

  function Names(plugins: seq<Plugin>): (names: seq<string>)
    ensures |names| == |plugins|
    ensures forall i :: 0 <= i < |plugins| ==> names[i] == plugins[i].name
  {
    seq(|plugins|, i requires 0 <= i < |plugins| => plugins[i].name)
  }

  ghost predicate WellFormed(plugins: seq<Plugin>) {
    (forall p | p in plugins :: p.wellFormed) && NoDuplicates(Names(plugins))
  }

  /** Every name mentioned in a `before` or `after` list is declared. */
  ghost predicate EdgesResolve(plugins: seq<Plugin>) {
    forall p, n | p in plugins && (n in p.before || n in p.after) :: n in Names(plugins)
  }

  /** `d` must be set up before `k`, by an `after` of the plugin `k` or a `before` of the plugin `d`. */
  ghost predicate MustFollow(plugins: seq<Plugin>, k: string, d: string) {
    || (exists p :: p in plugins && p.name == k && d in p.after)
    || (exists p :: p in plugins && p.name == d && k in p.before)
  }

  ghost predicate Describes(deps: Graph<string>, plugins: seq<Plugin>) {
    && (forall k :: k in deps <==> k in Names(plugins))
    && (forall k, d | k in deps :: d in deps[k] <==> MustFollow(plugins, k, d))
  }

  /** A list of names that sets every plugin up once, after everything it must follow. */
  ghost predicate Respects(plugins: seq<Plugin>, order: seq<string>) {
    && NoDuplicates(order)
    && (forall n :: n in order <==> n in Names(plugins))
    && (forall i, d :: 0 <= i < |order| && MustFollow(plugins, order[i], d) ==> d in order[..i])
  }

  /** A cycle of ordering demands, stated on the declarations alone. */
  ghost predicate Contradictory(plugins: seq<Plugin>) {
    exists p: seq<string> :: |p| >= 2 && p[0] == p[|p| - 1] && Chain(plugins, p)
  }

  ghost predicate Chain(plugins: seq<Plugin>, p: seq<string>) {
    forall i :: 0 <= i < |p| - 1 ==> p[i] in Names(plugins) && MustFollow(plugins, p[i], p[i + 1])
  }

  ghost predicate DeclaredBefore(names: seq<string>, a: string, b: string) {
    exists i, j :: 0 <= i < j < |names| && names[i] == a && names[j] == b
  }

  /** At the first place where the two lists differ, `a` has the plugin declared earlier. */
  ghost predicate NoLater(names: seq<string>, a: seq<string>, b: seq<string>) {
    || a <= b
    || exists i :: 0 <= i < |a| && i < |b| && a[..i] == b[..i] && DeclaredBefore(names, a[i], b[i])
  }

  lemma ContradictoryIsCyclic(plugins: seq<Plugin>, deps: Graph<string>)
    requires Describes(deps, plugins)
    ensures Contradictory(plugins) <==> !Acyclic(deps)
  {
    forall p: seq<string> ensures Walk(deps, p) <==> Chain(plugins, p) {
      if Walk(deps, p) {
        forall i | 0 <= i < |p| - 1 ensures p[i] in Names(plugins) && MustFollow(plugins, p[i], p[i + 1]) {
          assert p[i] in deps && p[i + 1] in deps[p[i]];
        }
      }
      if Chain(plugins, p) {
        forall i | 0 <= i < |p| - 1 ensures p[i] in deps && p[i + 1] in deps[p[i]] {
          assert p[i] in Names(plugins) && MustFollow(plugins, p[i], p[i + 1]);
        }
      }
    }
    if !Acyclic(deps) {
      var p: seq<string> :| Cycle(deps, p);
      assert Chain(plugins, p);
    }
    if Contradictory(plugins) {
      var p: seq<string> :| |p| >= 2 && p[0] == p[|p| - 1] && Chain(plugins, p);
      assert Cycle(deps, p);
    }
  }

  /** Gather the arrows: first every `after`, then every `before` read backwards. */
  method Dependencies(plugins: seq<Plugin>) returns (deps: Graph<string>, resolved: bool)
    requires WellFormed(plugins)
    ensures resolved <==> EdgesResolve(plugins)
    ensures resolved ==> Describes(deps, plugins) && Closed(deps)
  {
    deps := AfterArrows(plugins);
    var i := 0;
    while i < |plugins|
      invariant 0 <= i <= |plugins|
      invariant forall k :: k in deps <==> k in Names(plugins)
      invariant forall k, d | k in deps :: d in deps[k] <==> Gathered(plugins, i, k, d)
      invariant forall p, n | p in plugins[..i] && n in p.before :: n in Names(plugins)
    {
      ghost var start := deps;
      deps, resolved := AddBefore(deps, plugins[i]);
      if !resolved { return; }
      forall k, d | k in deps ensures d in deps[k] <==> Gathered(plugins, i + 1, k, d) {
        GatheredStep(plugins, i, k, d);
      }
      assert plugins[..i + 1] == plugins[..i] + [plugins[i]];
      i := i + 1;
    }
    assert plugins[..i] == plugins;
    forall k, d | k in deps ensures d in deps[k] <==> MustFollow(plugins, k, d) {
      assert Gathered(plugins, i, k, d) <==> MustFollow(plugins, k, d);
    }
    resolved := forall k | k in deps :: deps[k] <= deps.Keys;
    ClosedMeansResolved(plugins, deps);
  }

  lemma ClosedMeansResolved(plugins: seq<Plugin>, deps: Graph<string>)
    requires Describes(deps, plugins)
    requires forall p, n | p in plugins && n in p.before :: n in Names(plugins)
    ensures Closed(deps) <==> EdgesResolve(plugins)
  {
    forall p | p in plugins ensures p.name in deps {
      var i :| 0 <= i < |plugins| && plugins[i] == p;
      assert Names(plugins)[i] == p.name;
    }
    if Closed(deps) {
      forall p, n | p in plugins && n in p.after ensures n in Names(plugins) {
        assert MustFollow(plugins, p.name, n);
      }
    }
    if EdgesResolve(plugins) {
      forall k, d | k in deps && d in deps[k] ensures d in deps {
        assert MustFollow(plugins, k, d);
      }
    }
  }

  /** Add one plugin's name below every plugin it asks to precede. */
  method AddBefore(start: Graph<string>, plugin: Plugin) returns (deps: Graph<string>, resolved: bool)
    ensures resolved <==> forall n | n in plugin.before :: n in start
    ensures resolved ==> deps.Keys == start.Keys
    ensures resolved ==> forall k, d | k in deps ::
              d in deps[k] <==> d in start[k] || (d == plugin.name && k in plugin.before)
  {
    deps := start;
    var j := 0;
    while j < |plugin.before|
      invariant 0 <= j <= |plugin.before|
      invariant deps.Keys == start.Keys
      invariant forall n | n in plugin.before[..j] :: n in deps
      invariant forall k, d | k in deps ::
                  d in deps[k] <==> d in start[k] || (d == plugin.name && k in plugin.before[..j])
    {
      var next := plugin.before[j];
      if next !in deps { return deps, false; }
      assert plugin.before[..j + 1] == plugin.before[..j] + [next];
      deps := deps[next := deps[next] + {plugin.name}];
      j := j + 1;
    }
    assert plugin.before[..j] == plugin.before;
    resolved := true;
  }

  /** The arrows known once the `before` lists of the first `n` plugins have been read. */
  ghost predicate Gathered(plugins: seq<Plugin>, n: nat, k: string, d: string)
    requires n <= |plugins|
  {
    || (exists p :: p in plugins && p.name == k && d in p.after)
    || (exists p :: p in plugins[..n] && p.name == d && k in p.before)
  }

  lemma GatheredStep(plugins: seq<Plugin>, n: nat, k: string, d: string)
    requires n < |plugins|
    ensures Gathered(plugins, n + 1, k, d)
            <==> Gathered(plugins, n, k, d) || (d == plugins[n].name && k in plugins[n].before)
  {
    assert plugins[..n + 1] == plugins[..n] + [plugins[n]];
    if d == plugins[n].name && k in plugins[n].before {
      assert plugins[n] in plugins[..n + 1];
    }
    if p :| p in plugins[..n] && p.name == d && k in p.before {
      assert p in plugins[..n + 1];
    }
  }

  method AfterArrows(plugins: seq<Plugin>) returns (deps: Graph<string>)
    requires NoDuplicates(Names(plugins))
    ensures forall k :: k in deps <==> k in Names(plugins)
    ensures forall k, d | k in deps :: d in deps[k] <==> Gathered(plugins, 0, k, d)
  {
    deps := map[];
    var i := 0;
    while i < |plugins|
      invariant 0 <= i <= |plugins|
      invariant forall k :: k in deps <==> k in Names(plugins)[..i]
      invariant forall j :: 0 <= j < i ==> deps[plugins[j].name] == set d | d in plugins[j].after
    {
      deps := deps[plugins[i].name := set d | d in plugins[i].after];
      assert Names(plugins)[..i + 1] == Names(plugins)[..i] + [plugins[i].name];
      i := i + 1;
    }
    assert Names(plugins)[..i] == Names(plugins);
    forall k, d | k in deps ensures d in deps[k] <==> Gathered(plugins, 0, k, d) {
      var j :| 0 <= j < |plugins| && Names(plugins)[j] == k;
      assert plugins[j] in plugins;
      if p :| p in plugins && p.name == k && d in p.after {
        var m :| 0 <= m < |plugins| && plugins[m] == p;
        assert Names(plugins)[m] == Names(plugins)[j];
      }
    }
  }

  ghost predicate Ready(deps: Graph<string>, done: set<string>, name: string) {
    name in deps && name !in done && deps[name] <= done
  }

  /** `plugins.find(...)`: the first declared plugin that is not done and whose dependencies are. */
  method FirstReady(plugins: seq<Plugin>, deps: Graph<string>, done: set<string>) returns (i: nat)
    requires Describes(deps, plugins)
    ensures i <= |plugins|
    ensures i < |plugins| ==> Ready(deps, done, plugins[i].name)
    ensures forall j :: 0 <= j < i ==> !Ready(deps, done, plugins[j].name)
  {
    i := 0;
    while i < |plugins|
      invariant i <= |plugins|
      invariant forall j :: 0 <= j < i ==> !Ready(deps, done, plugins[j].name)
    {
      assert Names(plugins)[i] == plugins[i].name;
      if plugins[i].name !in done && deps[plugins[i].name] <= done { return; }
      i := i + 1;
    }
  }

  /** Appending the first ready plugin keeps the list no later than any order that respects the demands. */
  lemma GreedyStep(plugins: seq<Plugin>, deps: Graph<string>, ordered: seq<string>, i: nat, q: seq<string>)
    requires WellFormed(plugins) && Describes(deps, plugins) && Respects(plugins, q)
    requires i < |plugins| && Ready(deps, Nodes(ordered), plugins[i].name)
    requires forall j :: 0 <= j < i ==> !Ready(deps, Nodes(ordered), plugins[j].name)
    requires NoLater(Names(plugins), ordered, q) && |ordered| < |q|
    ensures NoLater(Names(plugins), ordered + [plugins[i].name], q)
  {
    var names, n := Names(plugins), |ordered|;
    var longer := ordered + [plugins[i].name];
    if ordered <= q {
      var next := q[n];
      assert q[..n] == ordered;
      assert next in q;
      assert next !in ordered;
      assert Ready(deps, Nodes(ordered), next) by {
        forall d | d in deps[next] ensures d in Nodes(ordered) {
          assert MustFollow(plugins, q[n], d);
        }
      }
      var j :| 0 <= j < |names| && names[j] == next;
      assert i <= j;
      if i == j {
        assert longer == q[..n + 1];
      } else {
        assert names[i] == plugins[i].name;
        assert DeclaredBefore(names, longer[n], q[n]);
        assert longer[..n] == q[..n];
      }
    } else {
      var m :| 0 <= m < n && m < |q| && ordered[..m] == q[..m] && DeclaredBefore(names, ordered[m], q[m]);
      assert longer[..m] == q[..m] && longer[m] == ordered[m];
    }
  }

  method CheckPlugins(plugins: seq<Plugin>) returns (error: OrderError, ok: bool)
    ensures ok <==> WellFormed(plugins)
    ensures !ok ==> error == InvalidPlugin || error == DuplicatePlugin
  {
    error := InvalidPlugin;
    var names: set<string> := {};
    var i := 0;
    while i < |plugins|
      invariant 0 <= i <= |plugins|
      invariant names == Nodes(Names(plugins)[..i])
      invariant NoDuplicates(Names(plugins)[..i])
      invariant forall p | p in plugins[..i] :: p.wellFormed
    {
      if !plugins[i].wellFormed { return InvalidPlugin, false; }
      if plugins[i].name in names {
        assert !NoDuplicates(Names(plugins)) by {
          var j :| 0 <= j < i && Names(plugins)[..i][j] == plugins[i].name;
          assert Names(plugins)[j] == Names(plugins)[i];
        }
        return DuplicatePlugin, false;
      }
      assert Names(plugins)[..i + 1] == Names(plugins)[..i] + [plugins[i].name];
      assert plugins[..i + 1] == plugins[..i] + [plugins[i]];
      names := names + {plugins[i].name};
      i := i + 1;
    }
    assert Names(plugins)[..i] == Names(plugins) && plugins[..i] == plugins;
    ok := true;
  }

  /** No order that respects the demands departs from this list towards an earlier declaration. */
  ghost predicate Least(plugins: seq<Plugin>, order: seq<string>) {
    forall q | Respects(plugins, q) :: NoLater(Names(plugins), order, q)
  }

  /** All the plugins, each once, after those its `after` names and before those its `before` names. */
  ghost predicate InPlace(plugins: seq<Plugin>, order: seq<Plugin>) {
    && (forall p :: p in order <==> p in plugins)
    && (forall i, j | 0 <= i < j < |order| :: order[i].name != order[j].name)
    && (forall i, j | 0 <= i < |order| && 0 <= j < |order| ::
          && (order[j].name in order[i].after ==> j < i)
          && (order[j].name in order[i].before ==> i < j))
  }

  /** Proper plugins with distinct names, all names they mention among them, and some order in which all are in
      place. */
  ghost predicate Orderable(plugins: seq<Plugin>) {
    && (forall p | p in plugins :: p.wellFormed)
    && (forall i, j | 0 <= i < j < |plugins| :: plugins[i].name != plugins[j].name)
    && EdgesResolve(plugins) && exists order :: InPlace(plugins, order)
  }

  /** The order is in place, and no other such order departs from it towards an earlier declaration. */
  ghost predicate FirstInPlace(plugins: seq<Plugin>, order: seq<Plugin>) {
    InPlace(plugins, order) && forall q | InPlace(plugins, q) :: NoLater(Names(plugins), Names(order), Names(q))
  }

  method OrderPlugins(plugins: seq<Plugin>) returns (r: Ordering)
    ensures r.Ordered? <==> Orderable(plugins)
    ensures r.Ordered? ==> FirstInPlace(plugins, r.plugins)
    ensures r.Ordered? <==> WellFormed(plugins) && EdgesResolve(plugins) && !Contradictory(plugins)
    ensures r.Ordered? ==> (forall p :: p in r.plugins <==> p in plugins) && |r.plugins| == |plugins|
    ensures r.Ordered? ==> Respects(plugins, Names(r.plugins)) && Least(plugins, Names(r.plugins))
    ensures r == Failed(MissingOrder) <==> WellFormed(plugins) && !EdgesResolve(plugins)
    ensures r == Failed(CyclicOrder) <==> WellFormed(plugins) && EdgesResolve(plugins) && Contradictory(plugins)
  {
    hide Orderable, FirstInPlace, Respects, Least;
    var error, ok := CheckPlugins(plugins);
    if !ok {
      OrderableMeans(plugins);
      return Failed(error);
    }
    var deps, resolved := Dependencies(plugins);
    if !resolved {
      OrderableMeans(plugins);
      return Failed(MissingOrder);
    }
    ContradictoryIsCyclic(plugins, deps);
    var ordered, complete := Greedy(plugins, deps);
    if !complete {
      NoneInPlace(plugins, deps);
      return Failed(CyclicOrder);
    }
    LeastIsFirst(plugins, ordered);
    r := Ordered(ordered);
  }

  lemma NamesDiffer(plugins: seq<Plugin>)
    ensures NoDuplicates(Names(plugins)) <==>
              forall i, j | 0 <= i < j < |plugins| :: plugins[i].name != plugins[j].name
  {
    if NoDuplicates(Names(plugins)) {
      forall i, j | 0 <= i < j < |plugins| ensures plugins[i].name != plugins[j].name {
        assert Names(plugins)[i] != Names(plugins)[j];
      }
    }
  }

  lemma OrderableMeans(plugins: seq<Plugin>)
    ensures Orderable(plugins) ==> WellFormed(plugins) && EdgesResolve(plugins)
  {
    hide InPlace, EdgesResolve;
    NamesDiffer(plugins);
  }

  lemma NameIsAt(plugins: seq<Plugin>, order: seq<Plugin>, d: string)
    requires d in Names(plugins) && forall p :: p in order <==> p in plugins
    ensures exists j :: 0 <= j < |order| && order[j].name == d
  {
    var i :| 0 <= i < |plugins| && Names(plugins)[i] == d;
    assert plugins[i] in order;
  }

  /** In place, a name stands after every name it must follow. */
  lemma FollowedIsEarlier(plugins: seq<Plugin>, q: seq<Plugin>, i: nat, d: string)
    requires WellFormed(plugins) && EdgesResolve(plugins) && InPlace(plugins, q)
    requires i < |q| && MustFollow(plugins, q[i].name, d)
    ensures d in Names(q)[..i]
  {
    if p :| p in plugins && p.name == q[i].name && d in p.after {
      OneOfAName(plugins, p, q[i]);
      assert d in Names(plugins);
      NameIsAt(plugins, q, d);
      var j :| 0 <= j < |q| && q[j].name == d;
      assert Names(q)[..i][j] == d;
    } else {
      var p :| p in plugins && p.name == d && q[i].name in p.before;
      var j :| 0 <= j < |q| && q[j] == p;
      assert Names(q)[..i][j] == d;
    }
  }

  lemma OneOfAName(plugins: seq<Plugin>, a: Plugin, b: Plugin)
    requires NoDuplicates(Names(plugins)) && a in plugins && b in plugins && a.name == b.name
    ensures a == b
  {
    var i :| 0 <= i < |plugins| && plugins[i] == a;
    var j :| 0 <= j < |plugins| && plugins[j] == b;
    assert Names(plugins)[i] == Names(plugins)[j];
  }

  lemma InPlaceRespects(plugins: seq<Plugin>, q: seq<Plugin>)
    requires WellFormed(plugins) && EdgesResolve(plugins) && InPlace(plugins, q)
    ensures Respects(plugins, Names(q))
  {
    hide MustFollow, EdgesResolve;
    NamesDiffer(q);
    forall n ensures n in Names(q) <==> n in Names(plugins) {
      if n in Names(plugins) { NameIsAt(plugins, q, n); }
      if n in Names(q) { NameIsAt(q, plugins, n); }
    }
    forall i, d | 0 <= i < |q| && MustFollow(plugins, Names(q)[i], d) ensures d in Names(q)[..i] {
      FollowedIsEarlier(plugins, q, i, d);
    }
  }

  lemma NoneInPlace(plugins: seq<Plugin>, deps: Graph<string>)
    requires WellFormed(plugins) && EdgesResolve(plugins) && Describes(deps, plugins) && !Acyclic(deps)
    ensures !Orderable(plugins)
  {
    hide InPlace, MustFollow, EdgesResolve, Acyclic;
    if q :| InPlace(plugins, q) {
      InPlaceRespects(plugins, q);
      RespectsIsTopological(plugins, deps, Names(q));
      TopologicalImpliesAcyclic(deps, Names(q));
    }
  }

  lemma RespectsIsTopological(plugins: seq<Plugin>, deps: Graph<string>, order: seq<string>)
    requires Describes(deps, plugins) && Respects(plugins, order)
    ensures Topological(deps, order)
  {
    hide MustFollow;
    forall i | 0 <= i < |order| ensures order[i] in deps && forall d | d in deps[order[i]] :: d in order[..i] {
      assert order[i] in order;
      forall d | d in deps[order[i]] ensures d in order[..i] { assert MustFollow(plugins, order[i], d); }
    }
  }

  lemma LeastIsFirst(plugins: seq<Plugin>, order: seq<Plugin>)
    requires WellFormed(plugins) && EdgesResolve(plugins) && (forall p :: p in order <==> p in plugins)
    requires Respects(plugins, Names(order)) && Least(plugins, Names(order))
    ensures Orderable(plugins) && FirstInPlace(plugins, order)
  {
    RespectsInPlace(plugins, order);
    hide InPlace, Respects, EdgesResolve, NoLater;
    NamesDiffer(plugins);
    forall q | InPlace(plugins, q) ensures NoLater(Names(plugins), Names(order), Names(q)) {
      InPlaceRespects(plugins, q);
    }
  }

  lemma RespectsInPlace(plugins: seq<Plugin>, order: seq<Plugin>)
    requires (forall p :: p in order <==> p in plugins) && Respects(plugins, Names(order))
    ensures InPlace(plugins, order)
  {
    PlacesAreRight(plugins, order);
    hide Respects;
    assert NoDuplicates(Names(order)) by { RespectsOnce(plugins, Names(order)); }
    NamesDiffer(order);
  }

  lemma RespectsOnce(plugins: seq<Plugin>, order: seq<string>)
    requires Respects(plugins, order)
    ensures NoDuplicates(order)
  {
  }

  /** In such an order every plugin stands after those its `after` names and before those its `before` names. */
  lemma PlacesAreRight(plugins: seq<Plugin>, order: seq<Plugin>)
    requires Respects(plugins, Names(order)) && forall p :: p in order <==> p in plugins
    ensures forall i, j | 0 <= i < |order| && 0 <= j < |order| ::
              && (order[j].name in order[i].after ==> j < i)
              && (order[j].name in order[i].before ==> i < j)
  {
    var names := Names(order);
    forall i, j | 0 <= i < |order| && 0 <= j < |order|
      ensures order[j].name in order[i].after ==> j < i
      ensures order[j].name in order[i].before ==> i < j
    {
      assert order[i] in plugins && order[j] in plugins;
      if order[j].name in order[i].after {
        assert MustFollow(plugins, names[i], names[j]);
        assert names[j] in names[..i];
      }
      if order[j].name in order[i].before {
        assert MustFollow(plugins, names[j], names[i]);
        assert names[i] in names[..j];
      }
    }
  }

  method Greedy(plugins: seq<Plugin>, deps: Graph<string>) returns (ordered: seq<Plugin>, complete: bool)
    requires WellFormed(plugins) && Describes(deps, plugins) && Closed(deps)
    ensures complete <==> Acyclic(deps)
    ensures complete ==> (forall p :: p in ordered <==> p in plugins) && |ordered| == |plugins|
    ensures complete ==> Respects(plugins, Names(ordered)) && Least(plugins, Names(ordered))
  {
    ordered := [];
    var done: set<string> := {};
    while |ordered| < |plugins|
      invariant |ordered| <= |plugins|
      invariant done == Nodes(Names(ordered))
      invariant NoDuplicates(Names(ordered)) && DependenciesFirst(deps, Names(ordered))
      invariant forall p | p in ordered :: p in plugins
      invariant Least(plugins, Names(ordered))
    {
      var i := FirstReady(plugins, deps, done);
      if i == |plugins| {
        NothingReady(plugins, deps, Names(ordered));
        return ordered, false;
      }
      StaysLeast(plugins, deps, ordered, i);
      AppendKeepsOrder(deps, Names(ordered), plugins[i].name);
      ordered := ordered + [plugins[i]];
      done := done + {plugins[i].name};
    }
    CompleteOrder(plugins, deps, ordered);
    complete := true;
  }

  lemma StaysLeast(plugins: seq<Plugin>, deps: Graph<string>, ordered: seq<Plugin>, i: nat)
    requires WellFormed(plugins) && Describes(deps, plugins) && |ordered| < |plugins|
    requires i < |plugins| && Ready(deps, Nodes(Names(ordered)), plugins[i].name)
    requires forall j :: 0 <= j < i ==> !Ready(deps, Nodes(Names(ordered)), plugins[j].name)
    requires Least(plugins, Names(ordered))
    ensures Names(ordered + [plugins[i]]) == Names(ordered) + [plugins[i].name]
    ensures Least(plugins, Names(ordered + [plugins[i]]))
  {
    assert Names(ordered + [plugins[i]]) == Names(ordered) + [plugins[i].name];
    forall q | Respects(plugins, q) ensures NoLater(Names(plugins), Names(ordered) + [plugins[i].name], q) {
      RespectsHasLength(plugins, q);
      GreedyStep(plugins, deps, Names(ordered), i, q);
    }
  }

  lemma RespectsHasLength(plugins: seq<Plugin>, q: seq<string>)
    requires WellFormed(plugins) && Respects(plugins, q)
    ensures |q| == |plugins|
  {
    DistinctCount(q);
    DistinctCount(Names(plugins));
    assert Nodes(q) == Nodes(Names(plugins));
  }

  lemma AppendKeepsOrder(deps: Graph<string>, ordered: seq<string>, name: string)
    requires NoDuplicates(ordered) && DependenciesFirst(deps, ordered) && Ready(deps, Nodes(ordered), name)
    ensures NoDuplicates(ordered + [name]) && DependenciesFirst(deps, ordered + [name])
  {
    var longer := ordered + [name];
    forall i | 0 <= i < |longer|
      ensures longer[i] in deps && forall d | d in deps[longer[i]] :: d in longer[..i]
    {
      if i < |ordered| {
        assert longer[..i] == ordered[..i];
      } else {
        assert longer[..i] == ordered;
      }
    }
  }

  lemma NothingReady(plugins: seq<Plugin>, deps: Graph<string>, ordered: seq<string>)
    requires WellFormed(plugins) && Describes(deps, plugins) && Closed(deps)
    requires NoDuplicates(ordered) && |ordered| < |plugins|
    requires forall j :: 0 <= j < |plugins| ==> !Ready(deps, Nodes(ordered), plugins[j].name)
    ensures !Acyclic(deps)
  {
    var stuck := deps.Keys - Nodes(ordered);
    SomeLeft(Names(plugins), ordered);
    assert deps.Keys == Nodes(Names(plugins));
    forall k | k in stuck ensures DependsWithin(deps, k, stuck) {
      var j :| 0 <= j < |plugins| && Names(plugins)[j] == k;
      assert !Ready(deps, Nodes(ordered), plugins[j].name);
      var d :| d in deps[k] && d !in Nodes(ordered);
      assert d in deps[k] * stuck;
    }
    StuckSetHasCycle(deps, stuck);
  }

  lemma SomeLeft(names: seq<string>, ordered: seq<string>)
    requires NoDuplicates(names) && NoDuplicates(ordered) && |ordered| < |names|
    ensures Nodes(names) - Nodes(ordered) != {}
  {
    DistinctCount(ordered);
    DistinctCount(names);
    var left := Nodes(names) - Nodes(ordered);
    assert Nodes(names) <= left + Nodes(ordered);
    SubsetSize(Nodes(names), left + Nodes(ordered));
    assert left == {} ==> left + Nodes(ordered) == Nodes(ordered);
  }

  lemma CompleteOrder(plugins: seq<Plugin>, deps: Graph<string>, ordered: seq<Plugin>)
    requires WellFormed(plugins) && Describes(deps, plugins)
    requires |ordered| == |plugins| && NoDuplicates(Names(ordered)) && DependenciesFirst(deps, Names(ordered))
    requires forall p | p in ordered :: p in plugins
    ensures Respects(plugins, Names(ordered)) && Acyclic(deps)
    ensures forall p :: p in ordered <==> p in plugins
  {
    var done := Names(ordered);
    SameNames(plugins, ordered);
    forall i, d | 0 <= i < |done| && MustFollow(plugins, done[i], d) ensures d in done[..i] {
      assert done[i] in deps;
    }
    TopologicalImpliesAcyclic(deps, done);
  }

  lemma SameNames(plugins: seq<Plugin>, ordered: seq<Plugin>)
    requires NoDuplicates(Names(plugins)) && NoDuplicates(Names(ordered)) && |ordered| == |plugins|
    requires forall p | p in ordered :: p in plugins
    ensures forall n :: n in Names(ordered) <==> n in Names(plugins)
    ensures forall p :: p in ordered <==> p in plugins
  {
    var names, done := Names(plugins), Names(ordered);
    DistinctCount(names);
    DistinctCount(done);
    forall n | n in done ensures n in names {
      var i :| 0 <= i < |ordered| && done[i] == n;
      assert ordered[i] in plugins;
      var j :| 0 <= j < |plugins| && plugins[j] == ordered[i];
      assert names[j] == n;
    }
    assert Nodes(done) <= Nodes(names);
    SubsetSize(Nodes(done), Nodes(names));
    forall n ensures n in done <==> n in names {
      assert n in Nodes(done) <==> n in Nodes(names);
    }
    forall p | p in plugins ensures p in ordered {
      var j :| 0 <= j < |plugins| && plugins[j] == p;
      assert names[j] in done;
      var i :| 0 <= i < |ordered| && done[i] == names[j];
      assert ordered[i] in plugins;
      var m :| 0 <= m < |plugins| && plugins[m] == ordered[i];
      assert names[m] == names[j];
    }
  }
}
