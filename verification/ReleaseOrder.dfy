/** The order packages are released in (`releaseOrder`) and the order check made before publishing. */
module ReleaseOrder {
  import opened Digraphs

  datatype Dependency = Dependency(name: string, range: string)

  datatype Package = Package(
    name: string,
    isPrivate: bool,
    dependencies: seq<Dependency>,
    optionalDependencies: seq<Dependency>,
    peerDependencies: seq<Dependency>,
    devDependencies: seq<Dependency>
  )

  const RUNTIME_SDK := "@lenso/runtime-sdk"
  const WORKSPACE := "workspace:"

  function Runtime(p: Package): seq<Dependency> {
    p.dependencies + p.optionalDependencies + p.peerDependencies
  }

  /** Named among the packages needed at run time, for use, at will or of the host. */
  ghost predicate NeedsToRun(p: Package, name: string) {
    exists d: Dependency :: d.name == name
                            && (d in p.dependencies || d in p.optionalDependencies || d in p.peerDependencies)
  }

  ghost predicate NeedsToBuild(p: Package, name: string) {
    NeedsToRun(p, name) || exists d: Dependency :: d.name == name && d in p.devDependencies
  }

  lemma NeedsMean(p: Package, name: string)
    ensures NeedsToRun(p, name) <==> exists d :: d in Runtime(p) && d.name == name
    ensures NeedsToBuild(p, name) <==> exists d :: BuildDependency(p, d) && d.name == name
  {
    forall d: Dependency
      ensures d in Runtime(p) <==> d in p.dependencies || d in p.optionalDependencies || d in p.peerDependencies
    {
    }
    if d :| BuildDependency(p, d) && d.name == name {
      assert d in Runtime(p) || d in p.devDependencies;
    }
    if d: Dependency :| d.name == name && d in p.devDependencies {
      assert BuildDependency(p, d);
    }
    if d: Dependency :| d.name == name
                        && (d in p.dependencies || d in p.optionalDependencies || d in p.peerDependencies) {
      assert d in Runtime(p) && BuildDependency(p, d);
    }
  }

  ghost predicate BuildDependency(p: Package, d: Dependency) {
    d in Runtime(p) || d in p.devDependencies
  }

  function Names(packages: seq<Package>): (names: seq<string>)
    ensures |names| == |packages|
    ensures forall i :: 0 <= i < |packages| ==> names[i] == packages[i].name
  {
    seq(|packages|, i requires 0 <= i < |packages| => packages[i].name)
  }

  /** The foreign SDK is prepared outside the workspace and is build-only. */
  predicate Foreign(d: Dependency) {
    d.name == RUNTIME_SDK && d.range == "workspace:*"
  }

  /** A workspace range that no package of the list satisfies. */
  ghost predicate Unresolved(packages: seq<Package>, p: Package, d: Dependency) {
    && WORKSPACE <= d.range && d.name !in Names(packages)
    && (d in Runtime(p) || (d in p.devDependencies && !Foreign(d)))
  }

  /** A public package that needs a private one at run time. */
  ghost predicate LeaksPrivate(packages: seq<Package>, p: Package, d: Dependency) {
    && !p.isPrivate && d in Runtime(p)
    && exists t :: t in packages && t.name == d.name && t.isPrivate
  }

  ghost predicate Releasable(packages: seq<Package>) {
    && NoDuplicates(Names(packages))
    && (forall p, d | p in packages && BuildDependency(p, d) ::
          !Unresolved(packages, p, d) && !LeaksPrivate(packages, p, d))
    && Acyclic(BuildGraph(packages))
  }

  /** Every package with the listed packages it needs, in any of the four groups. */
  ghost function BuildGraph(packages: seq<Package>): Graph<string> {
    map n | n in Names(packages) ::
      set m | m in Names(packages) && Needs(packages, n, m)
  }

  ghost predicate Needs(packages: seq<Package>, n: string, m: string) {
    exists p, d :: p in packages && p.name == n && BuildDependency(p, d) && d.name == m
  }

  type Directory = map<string, Package>

  ghost predicate Lists(byName: Directory, packages: seq<Package>) {
    && NoDuplicates(Names(packages))
    && (forall n :: n in byName <==> n in Names(packages))
    && (forall p | p in packages :: p.name in byName && byName[p.name] == p)
    && (forall n | n in byName :: byName[n] in packages && byName[n].name == n)
  }

  /** What the walk does with one dependency entry: skip it, refuse the release, or visit the target. */
  function Entry(byName: Directory, p: Package, d: Dependency, runtime: bool): seq<Edge<string>> {
    if d.name !in byName then
      if WORKSPACE <= d.range && (runtime || !Foreign(d)) then [Refused] else []
    else if !p.isPrivate && byName[d.name].isPrivate && runtime then [Refused]
    else [To(d.name)]
  }

  function Entries(byName: Directory, p: Package, deps: seq<Dependency>, runtime: bool): (edges: seq<Edge<string>>)
    ensures forall e :: e in edges <==> exists d :: d in deps && e in Entry(byName, p, d, runtime)
  {
    if deps == [] then []
    else
      var rest := Entries(byName, p, deps[1..], runtime);
      assert forall d :: d in deps <==> d == deps[0] || d in deps[1..];
      Entry(byName, p, deps[0], runtime) + rest
  }

  function BuildEntries(byName: Directory, p: Package): seq<Edge<string>> {
    Entries(byName, p, Runtime(p), true) + Entries(byName, p, p.devDependencies, false)
  }

  lemma ListGrows(byName: Directory, packages: seq<Package>, i: nat)
    requires i < |packages| && Lists(byName, packages[..i]) && packages[i].name !in byName
    ensures Lists(byName[packages[i].name := packages[i]], packages[..i + 1])
  {
    var longer := packages[..i + 1];
    assert longer == packages[..i] + [packages[i]];
    assert Names(longer) == Names(packages[..i]) + [packages[i].name];
  }

  lemma ListMeets(byName: Directory, packages: seq<Package>, i: nat)
    requires i < |packages| && Lists(byName, packages[..i]) && packages[i].name in byName
    ensures !NoDuplicates(Names(packages))
  {
    var j :| 0 <= j < i && Names(packages[..i])[j] == packages[i].name;
    assert Names(packages)[j] == Names(packages)[i];
  }

  method IndexPackages(packages: seq<Package>) returns (byName: Directory, ok: bool)
    ensures ok <==> NoDuplicates(Names(packages))
    ensures ok ==> Lists(byName, packages)
  {
    byName := map[];
    var i := 0;
    while i < |packages|
      invariant 0 <= i <= |packages| && Lists(byName, packages[..i])
    {
      if packages[i].name in byName {
        ListMeets(byName, packages, i);
        return byName, false;
      }
      ListGrows(byName, packages, i);
      byName := byName[packages[i].name := packages[i]];
      i := i + 1;
    }
    assert packages[..i] == packages;
    ok := true;
  }

  lemma RefusedEntry(packages: seq<Package>, byName: Directory, p: Package)
    requires Lists(byName, packages) && p in packages
    ensures Refused in BuildEntries(byName, p) <==>
            exists d :: BuildDependency(p, d) && (Unresolved(packages, p, d) || LeaksPrivate(packages, p, d))
  {
    if Refused in BuildEntries(byName, p) {
      if Refused in Entries(byName, p, Runtime(p), true) {
        var d :| d in Runtime(p) && Refused in Entry(byName, p, d, true);
        if d.name in byName { assert byName[d.name] in packages; }
        assert BuildDependency(p, d);
      } else {
        var d :| d in p.devDependencies && Refused in Entry(byName, p, d, false);
        assert BuildDependency(p, d) && Unresolved(packages, p, d);
      }
    }
    if d :| BuildDependency(p, d) && (Unresolved(packages, p, d) || LeaksPrivate(packages, p, d)) {
      if d in Runtime(p) {
        assert Refused in Entry(byName, p, d, true);
      } else {
        assert Refused in Entry(byName, p, d, false);
      }
    }
  }

  lemma ArrowEntry(packages: seq<Package>, byName: Directory, p: Package, m: string)
    requires Lists(byName, packages) && p in packages
    requires Refused !in BuildEntries(byName, p)
    ensures To(m) in BuildEntries(byName, p) <==> m in Names(packages) && Needs(packages, p.name, m)
  {
    if To(m) in BuildEntries(byName, p) {
      if To(m) in Entries(byName, p, Runtime(p), true) {
        var d :| d in Runtime(p) && To(m) in Entry(byName, p, d, true);
        assert BuildDependency(p, d) && d.name == m;
      } else {
        var d :| d in p.devDependencies && To(m) in Entry(byName, p, d, false);
        assert BuildDependency(p, d) && d.name == m;
      }
    }
    if m in Names(packages) && Needs(packages, p.name, m) {
      var q, d :| q in packages && q.name == p.name && BuildDependency(q, d) && d.name == m;
      assert byName[q.name] == q && byName[p.name] == p;
      if d in Runtime(p) {
        assert Entry(byName, p, d, true)[0] in BuildEntries(byName, p);
      } else {
        assert Entry(byName, p, d, false)[0] in BuildEntries(byName, p);
      }
    }
  }

  lemma EdgesAreBuildGraph(packages: seq<Package>, byName: Directory, edges: map<string, seq<Edge<string>>>)
    requires Lists(byName, packages)
    requires edges.Keys == byName.Keys && forall n | n in byName :: edges[n] == BuildEntries(byName, byName[n])
    ensures Sound(edges) <==> Releasable(packages)
    ensures Sound(edges) ==> Arrows(edges) == BuildGraph(packages)
  {
    if forall n | n in edges :: Refused !in edges[n] {
      NothingRefused(packages, byName, edges);
    } else {
      var n :| n in edges && Refused in edges[n];
      RefusedEntry(packages, byName, byName[n]);
    }
  }

  lemma NothingRefused(packages: seq<Package>, byName: Directory, edges: map<string, seq<Edge<string>>>)
    requires Lists(byName, packages)
    requires edges.Keys == byName.Keys && forall n | n in byName :: edges[n] == BuildEntries(byName, byName[n])
    requires forall n | n in edges :: Refused !in edges[n]
    ensures Arrows(edges) == BuildGraph(packages) && Closed(BuildGraph(packages))
    ensures forall p, d | p in packages && BuildDependency(p, d) ::
              !Unresolved(packages, p, d) && !LeaksPrivate(packages, p, d)
  {
    var g, h := Arrows(edges), BuildGraph(packages);
    BuildGraphAt(packages);
    assert g.Keys == h.Keys;
    forall n | n in g ensures g[n] == h[n] {
      RowsAgree(packages, byName, edges, n);
    }
    SameGraph(g, h);
    BuildGraphIsClosed(packages);
    forall p, d | p in packages && BuildDependency(p, d)
      ensures !Unresolved(packages, p, d) && !LeaksPrivate(packages, p, d)
    {
      EntryAccepted(packages, byName, edges, p, d);
    }
  }

  lemma RowsAgree(packages: seq<Package>, byName: Directory, edges: map<string, seq<Edge<string>>>, n: string)
    requires Lists(byName, packages) && n in edges
    requires edges.Keys == byName.Keys && edges[n] == BuildEntries(byName, byName[n])
    requires Refused !in edges[n]
    ensures n in BuildGraph(packages) && Arrows(edges)[n] == BuildGraph(packages)[n]
  {
    BuildGraphAt(packages);
    forall m ensures m in Arrows(edges)[n] <==> m in BuildGraph(packages)[n] {
      ArrowEntry(packages, byName, byName[n], m);
    }
  }

  lemma EntryAccepted(
    packages: seq<Package>, byName: Directory, edges: map<string, seq<Edge<string>>>, p: Package, d: Dependency)
    requires Lists(byName, packages) && p in packages && BuildDependency(p, d)
    requires edges.Keys == byName.Keys && forall n | n in byName :: edges[n] == BuildEntries(byName, byName[n])
    requires forall n | n in edges :: Refused !in edges[n]
    ensures !Unresolved(packages, p, d) && !LeaksPrivate(packages, p, d)
  {
    RefusedEntry(packages, byName, p);
    assert edges[p.name] == BuildEntries(byName, p);
  }

  lemma BuildGraphIsClosed(packages: seq<Package>)
    ensures Closed(BuildGraph(packages))
  {
    BuildGraphAt(packages);
    forall n | n in BuildGraph(packages) ensures BuildGraph(packages)[n] <= BuildGraph(packages).Keys {
    }
  }

  lemma BuildGraphAt(packages: seq<Package>)
    ensures forall n :: n in BuildGraph(packages) <==> n in Names(packages)
    ensures forall n, m | n in BuildGraph(packages) ::
              m in BuildGraph(packages)[n] <==> m in Names(packages) && Needs(packages, n, m)
  {
  }

  /** The public packages of a list, in its order. */
  function Public(packages: seq<Package>): (r: seq<Package>)
    ensures forall p :: p in r <==> p in packages && !p.isPrivate
  {
    if packages == [] then []
    else (if packages[0].isPrivate then [] else [packages[0]]) + Public(packages[1..])
  }

  /** `ordered` is a complete build order of the packages and `released` its public part. */
  ghost predicate IsReleaseOrder(packages: seq<Package>, ordered: seq<Package>, released: seq<Package>) {
    && (forall p :: p in ordered <==> p in packages)
    && Topological(BuildGraph(packages), Names(ordered))
    && released == Public(ordered)
  }

  /** `sorted` is the list sorted by name in the host's locale; the contract holds for every such order. */
  method ReleaseOrder(packages: seq<Package>, sorted: seq<Package>)
    returns (ok: bool, ordered: seq<Package>, released: seq<Package>)
    requires forall p :: p in sorted <==> p in packages
    ensures ok <==> Publishable(packages)
    ensures ok ==> BuildOrder(packages, ordered)
    ensures ok <==> Releasable(packages)
    ensures ok ==> IsReleaseOrder(packages, ordered, released)
  {
    hide Publishable, BuildOrder, Releasable, Lists, BuildEntries, Topological, BuildGraph, Sound, Arrows, Public,
        Names;
    ordered, released := [], [];
    var byName;
    byName, ok := IndexPackages(packages);
    if !ok {
      TwiceIsNotReleasable(packages);
      NotPublishable(packages);
      return;
    }
    var edges := map n | n in byName :: BuildEntries(byName, byName[n]);
    EdgesAreBuildGraph(packages, byName, edges);
    var walk := new DepthFirst<string>(edges);
    SortedNames(packages, sorted);
    ok := walk.Run(Names(sorted));
    if !ok {
      NotPublishable(packages);
      return;
    }
    var order := walk.order;
    ordered := seq(|order|, i requires 0 <= i < |order| && order[i] in byName => byName[order[i]]);
    SamePackages(packages, byName, order, ordered);
    released := Public(ordered);
    assert Topological(BuildGraph(packages), Names(ordered));
    CanPublish(packages, ordered);
  }

  /** Every package stands after those it names, in any of the four groups. */
  ghost predicate BuildsInTurn(ordered: seq<Package>) {
    forall i, j | 0 <= i < |ordered| && 0 <= j < |ordered| && NeedsToBuild(ordered[i], ordered[j].name) :: j < i
  }

  /** No public package names a private one to run. */
  ghost predicate KeepsPrivate(packages: seq<Package>) {
    forall p, q | p in packages && q in packages && !p.isPrivate && q.isPrivate :: !NeedsToRun(p, q.name)
  }

  /** Whatever is asked for from the workspace is one of the packages, but for the SDK that is prepared elsewhere and
      asked for to build only. */
  ghost predicate Resolves(packages: seq<Package>) {
    forall p, d: Dependency | p in packages && "workspace:" <= d.range
        && (d in p.dependencies || d in p.optionalDependencies || d in p.peerDependencies
            || (d in p.devDependencies && (d.name != "@lenso/runtime-sdk" || d.range != "workspace:*"))) ::
      exists q :: q in packages && q.name == d.name
  }

  /** All the packages, each once, and after every package it names. */
  ghost predicate BuildOrder(packages: seq<Package>, order: seq<Package>) {
    && (forall p :: p in order <==> p in packages)
    && (forall i, j | 0 <= i < j < |order| :: order[i].name != order[j].name)
    && BuildsInTurn(order)
  }

  lemma NameStands(packages: seq<Package>, name: string)
    ensures name in Names(packages) <==> exists q :: q in packages && q.name == name
  {
    if name in Names(packages) {
      var i :| 0 <= i < |packages| && Names(packages)[i] == name;
      assert packages[i] in packages;
    }
    if q :| q in packages && q.name == name {
      var i :| 0 <= i < |packages| && packages[i] == q;
      assert Names(packages)[i] == name;
    }
  }

  lemma ResolvesMeans(packages: seq<Package>)
    ensures Resolves(packages) <==>
              forall p, d | p in packages && BuildDependency(p, d) :: !Unresolved(packages, p, d)
  {
    forall p, d: Dependency | p in packages
      ensures Unresolved(packages, p, d) <==>
                && "workspace:" <= d.range && !(exists q :: q in packages && q.name == d.name)
                && (d in p.dependencies || d in p.optionalDependencies || d in p.peerDependencies
                    || (d in p.devDependencies && (d.name != "@lenso/runtime-sdk" || d.range != "workspace:*")))
    {
      NameStands(packages, d.name);
      assert d in Runtime(p) <==> d in p.dependencies || d in p.optionalDependencies || d in p.peerDependencies;
    }
    hide Unresolved;
    if forall p, d | p in packages && BuildDependency(p, d) :: !Unresolved(packages, p, d) {
      forall p, d: Dependency | p in packages && !BuildDependency(p, d) ensures !Unresolved(packages, p, d) {
        NeverUnresolved(packages, p, d);
      }
    }
  }

  lemma NeverUnresolved(packages: seq<Package>, p: Package, d: Dependency)
    requires !BuildDependency(p, d)
    ensures !Unresolved(packages, p, d)
  {
  }

  lemma KeepsPrivateMeans(packages: seq<Package>)
    ensures KeepsPrivate(packages) <==>
              forall p, d | p in packages && BuildDependency(p, d) :: !LeaksPrivate(packages, p, d)
  {
    hide Runtime;
    if KeepsPrivate(packages) {
      forall p, d | p in packages && BuildDependency(p, d) ensures !LeaksPrivate(packages, p, d) {
        if LeaksPrivate(packages, p, d) {
          var t :| t in packages && t.name == d.name && t.isPrivate;
          NeedsMean(p, t.name);
        }
      }
    } else {
      var p, q :| p in packages && q in packages && !p.isPrivate && q.isPrivate && NeedsToRun(p, q.name);
      NeedsMean(p, q.name);
      var d :| d in Runtime(p) && d.name == q.name;
      assert BuildDependency(p, d) && LeaksPrivate(packages, p, d);
    }
  }

  lemma NamesDiffer(packages: seq<Package>)
    ensures NoDuplicates(Names(packages)) <==>
              forall i, j | 0 <= i < j < |packages| :: packages[i].name != packages[j].name
  {
    if NoDuplicates(Names(packages)) {
      forall i, j | 0 <= i < j < |packages| ensures packages[i].name != packages[j].name {
        assert Names(packages)[i] != Names(packages)[j];
      }
    }
  }

  lemma NeedsAt(packages: seq<Package>, p: Package, m: string)
    requires NoDuplicates(Names(packages)) && p in packages
    ensures Needs(packages, p.name, m) <==> NeedsToBuild(p, m)
  {
    NeedsMean(p, m);
    hide BuildDependency, NeedsToBuild;
    if q, d :| q in packages && q.name == p.name && BuildDependency(q, d) && d.name == m {
      var i :| 0 <= i < |packages| && packages[i] == p;
      var j :| 0 <= j < |packages| && packages[j] == q;
      assert Names(packages)[i] == Names(packages)[j];
    }
  }

  /** The two kinds of build order are one. */
  lemma OrderMeans(packages: seq<Package>, order: seq<Package>)
    requires NoDuplicates(Names(packages)) && forall p :: p in order <==> p in packages
    ensures BuildOrder(packages, order) <==> Topological(BuildGraph(packages), Names(order))
  {
    hide Needs, NeedsToBuild, BuildGraph;
    var names, g := Names(order), BuildGraph(packages);
    BuildGraphAt(packages);
    NamesDiffer(order);
    forall n ensures n in names <==> n in g { NameStands(packages, n); NameStands(order, n); }
    forall i, m | 0 <= i < |order| ensures m in g[names[i]] <==> m in names && NeedsToBuild(order[i], m) {
      assert order[i] in packages && names[i] in names;
      NeedsAt(packages, order[i], m);
    }
    if BuildOrder(packages, order) {
      forall i, d | 0 <= i < |names| && d in g[names[i]] ensures d in names[..i] {
        assert d in names && NeedsToBuild(order[i], d);
        var j :| 0 <= j < |names| && names[j] == d;
        assert j < i && names[..i][j] == d;
      }
    }
    if Topological(g, names) {
      forall i, j | 0 <= i < |order| && 0 <= j < |order| && NeedsToBuild(order[i], order[j].name) ensures j < i {
        assert names[j] in g[names[i]];
        var k :| 0 <= k < i && names[..i][k] == names[j];
      }
    }
  }

  /** Distinct names, everything from the workspace there, nothing private leaked, and some order to build in. */
  ghost predicate Publishable(packages: seq<Package>) {
    && (forall i, j | 0 <= i < j < |packages| :: packages[i].name != packages[j].name)
    && Resolves(packages) && KeepsPrivate(packages) && exists order :: BuildOrder(packages, order)
  }

  lemma TwiceIsNotReleasable(packages: seq<Package>)
    requires !NoDuplicates(Names(packages))
    ensures !Releasable(packages)
  {
  }

  lemma NotPublishable(packages: seq<Package>)
    requires !Releasable(packages)
    ensures !Publishable(packages)
  {
    hide Unresolved, LeaksPrivate, BuildDependency, Resolves, KeepsPrivate, BuildOrder;
    ResolvesMeans(packages);
    KeepsPrivateMeans(packages);
    NamesDiffer(packages);
    if Publishable(packages) {
      var order :| BuildOrder(packages, order);
      OrderStands(packages, order);
      TopologicalImpliesAcyclic(BuildGraph(packages), Names(order));
    }
  }

  lemma CanPublish(packages: seq<Package>, order: seq<Package>)
    requires Releasable(packages) && Topological(BuildGraph(packages), Names(order))
    requires forall p :: p in order <==> p in packages
    ensures Publishable(packages) && BuildOrder(packages, order)
  {
    hide Unresolved, LeaksPrivate, BuildDependency, Resolves, KeepsPrivate, BuildOrder;
    ResolvesMeans(packages);
    KeepsPrivateMeans(packages);
    NamesDiffer(packages);
    OrderMeans(packages, order);
  }

  lemma OrderStands(packages: seq<Package>, order: seq<Package>)
    requires NoDuplicates(Names(packages)) && BuildOrder(packages, order)
    ensures Topological(BuildGraph(packages), Names(order))
  {
    OrderMeans(packages, order);
  }

  lemma SamePackages(packages: seq<Package>, byName: Directory, order: seq<string>, ordered: seq<Package>)
    requires Lists(byName, packages)
    requires forall n :: n in order <==> n in byName
    requires |ordered| == |order| && forall i :: 0 <= i < |order| ==> ordered[i] == byName[order[i]]
    ensures Names(ordered) == order
    ensures forall p :: p in ordered <==> p in packages
  {
    forall i | 0 <= i < |order| ensures Names(ordered)[i] == order[i] {
      assert order[i] in byName;
    }
    forall p | p in packages ensures p in ordered {
      assert p.name in byName;
      var i :| 0 <= i < |order| && order[i] == p.name;
      assert ordered[i] == p;
    }
    forall p | p in ordered ensures p in packages {
      var i :| 0 <= i < |order| && ordered[i] == p;
      assert order[i] in byName;
    }
  }

  lemma SortedNames(packages: seq<Package>, sorted: seq<Package>)
    requires forall p :: p in sorted <==> p in packages
    ensures forall n :: n in Names(sorted) <==> n in Names(packages)
  {
    forall n ensures n in Names(sorted) <==> n in Names(packages) {
      if n in Names(sorted) {
        var i :| 0 <= i < |sorted| && Names(sorted)[i] == n;
        assert sorted[i] in packages;
        var j :| 0 <= j < |packages| && packages[j] == sorted[i];
        assert Names(packages)[j] == n;
      }
      if n in Names(packages) {
        var i :| 0 <= i < |packages| && Names(packages)[i] == n;
        assert packages[i] in sorted;
        var j :| 0 <= j < |sorted| && sorted[j] == packages[i];
        assert Names(sorted)[j] == n;
      }
    }
  }

  /** The part of a list whose names were selected, in the list's order. */
  function Select(packages: seq<Package>, keep: set<string>): (r: seq<Package>)
    ensures forall p :: p in r <==> p in packages && p.name in keep
  {
    if packages == [] then []
    else (if packages[0].name in keep then [packages[0]] else []) + Select(packages[1..], keep)
  }

  /** Each runtime dependency on another listed package is met by an earlier one. */
  ghost predicate RuntimeOrdered(receipt: seq<Package>) {
    forall i, d :: 0 <= i < |receipt| && d in Runtime(receipt[i]) && d.name in Names(receipt) ==>
      d.name in Names(receipt)[..i]
  }

  /** Whatever listed package a package names to run, one of that name is listed before. */
  ghost predicate RunsInTurn(receipt: seq<Package>) {
    forall i, j | 0 <= i < |receipt| && 0 <= j < |receipt| && NeedsToRun(receipt[i], receipt[j].name) ::
      exists k :: 0 <= k < i && receipt[k].name == receipt[j].name
  }

  lemma OrderedRunsInTurn(receipt: seq<Package>)
    requires RuntimeOrdered(receipt)
    ensures RunsInTurn(receipt)
  {
    hide Runtime;
    forall i, j | 0 <= i < |receipt| && 0 <= j < |receipt| && NeedsToRun(receipt[i], receipt[j].name)
      ensures exists k :: 0 <= k < i && receipt[k].name == receipt[j].name
    {
      NeedsMean(receipt[i], receipt[j].name);
      var d :| d in Runtime(receipt[i]) && d.name == receipt[j].name;
      assert Names(receipt)[j] in Names(receipt);
      var k :| 0 <= k < i && Names(receipt)[..i][k] == d.name;
      assert receipt[k].name == d.name;
    }
  }

  lemma InTurnAt(receipt: seq<Package>, i: nat, j: nat) returns (k: nat)
    requires RunsInTurn(receipt) && i < |receipt| && j < |receipt| && NeedsToRun(receipt[i], receipt[j].name)
    ensures k < i && receipt[k].name == receipt[j].name
  {
    k :| 0 <= k < i && receipt[k].name == receipt[j].name;
  }

  lemma InTurnIsOrdered(receipt: seq<Package>, i: nat, d: Dependency)
    requires RunsInTurn(receipt) && i < |receipt| && d in Runtime(receipt[i]) && d.name in Names(receipt)
    ensures d.name in Names(receipt)[..i]
  {
    hide Runtime, RunsInTurn;
    var j :| 0 <= j < |receipt| && Names(receipt)[j] == d.name;
    NeedsMean(receipt[i], receipt[j].name);
    var k := InTurnAt(receipt, i, j);
    assert Names(receipt)[..i][k] == d.name;
  }

  lemma OrderedMeans(receipt: seq<Package>)
    ensures RuntimeOrdered(receipt) <==> RunsInTurn(receipt)
  {
    hide RunsInTurn, Runtime;
    if RuntimeOrdered(receipt) { OrderedRunsInTurn(receipt); }
    if RunsInTurn(receipt) {
      forall i, d | 0 <= i < |receipt| && d in Runtime(receipt[i]) && d.name in Names(receipt)
        ensures d.name in Names(receipt)[..i]
      {
        InTurnIsOrdered(receipt, i, d);
      }
    }
  }

  /** The walk `publish` makes over the receipt, adding each package to `preceding`. */
  method CheckDependencyOrder(receipt: seq<Package>) returns (ok: bool)
    ensures ok <==> RuntimeOrdered(receipt)
    ensures ok <==> RunsInTurn(receipt)
  {
    hide RunsInTurn;
    OrderedMeans(receipt);
    var selected := set n | n in Names(receipt);
    var preceding: set<string> := {};
    var i := 0;
    while i < |receipt|
      invariant 0 <= i <= |receipt|
      invariant forall n :: n in preceding <==> n in Names(receipt)[..i]
      invariant forall k, d :: 0 <= k < i && d in Runtime(receipt[k]) && d.name in Names(receipt) ==>
                  d.name in Names(receipt)[..k]
    {
      var group := Runtime(receipt[i]);
      var j := 0;
      while j < |group|
        invariant 0 <= j <= |group|
        invariant forall d :: d in group[..j] && d.name in Names(receipt) ==> d.name in Names(receipt)[..i]
      {
        if group[j].name in selected && group[j].name !in preceding {
          assert group[j] in Runtime(receipt[i]);
          return false;
        }
        assert group[..j + 1] == group[..j] + [group[j]];
        j := j + 1;
      }
      assert group[..j] == Runtime(receipt[i]);
      assert Names(receipt)[..i + 1] == Names(receipt)[..i] + [receipt[i].name];
      preceding := preceding + {receipt[i].name};
      i := i + 1;
    }
    ok := true;
  }

  lemma {:induction false} SelectPrefix(order: seq<Package>, keep: set<string>, k: nat) returns (i: nat)
    requires k < |Select(order, keep)|
    ensures i < |order| && order[i] == Select(order, keep)[k]
    ensures Select(order[..i], keep) == Select(order, keep)[..k]
    decreases |order|
  {
    SelectStep(order, keep);
    if order[0].name in keep && k == 0 {
      i := 0;
      assert Select(order[..0], keep) == [];
    } else {
      var m := SelectPrefix(order[1..], keep, if order[0].name in keep then k - 1 else k);
      i := m + 1;
      PrefixGrows(order, keep, k, m);
    }
  }

  lemma {:induction false} PrefixGrows(order: seq<Package>, keep: set<string>, k: nat, m: nat)
    requires order != [] && k < |Select(order, keep)| && m + 1 < |order|
    requires order[0].name in keep ==> k > 0
    requires Select(order[1..][..m], keep) == Select(order[1..], keep)[..if order[0].name in keep then k - 1 else k]
    ensures Select(order[..m + 1], keep) == Select(order, keep)[..k]
  {
    hide Select;
    SelectStep(order, keep);
    PrefixStep(order, m, keep);
    if order[0].name in keep { TakeAfterHead(order[0], Select(order[1..], keep), k - 1); }
  }

  lemma {:induction false} PrefixStep(order: seq<Package>, m: nat, keep: set<string>)
    requires m < |order|
    ensures Select(order[..m + 1], keep) ==
            (if order[0].name in keep then [order[0]] else []) + Select(order[1..][..m], keep)
  {
    assert order[..m + 1][1..] == order[1..][..m];
  }

  lemma TakeAfterHead(head: Package, tail: seq<Package>, k: nat)
    requires k < |tail|
    ensures ([head] + tail)[..k + 1] == [head] + tail[..k] && ([head] + tail)[k + 1] == tail[k]
  {
  }

  lemma {:induction false} PublicIsSelection(order: seq<Package>, keep: set<string>)
    requires NoDuplicates(Names(order))
    ensures Select(Public(order), keep) == Select(order, keep * PublicNames(order))
    decreases |order|
  {
    if order != [] {
      var head, tail := order[0], order[1..];
      assert Names(tail) == Names(order)[1..];
      PublicIsSelection(tail, keep);
      HeadIsNew(order);
      SelectAgrees(tail, keep * PublicNames(order), keep * PublicNames(tail));
      SelectStep(order, keep * PublicNames(order));
      if head.isPrivate {
        assert Public(order) == Public(tail);
      } else {
        assert Public(order)[1..] == Public(tail);
        SelectStep(Public(order), keep);
      }
    }
  }

  lemma {:induction false} SelectStep(order: seq<Package>, keep: set<string>)
    requires order != []
    ensures Select(order, keep) == (if order[0].name in keep then [order[0]] else []) + Select(order[1..], keep)
  {
  }

  lemma HeadIsNew(order: seq<Package>)
    requires NoDuplicates(Names(order)) && order != []
    ensures order[0].name in PublicNames(order) <==> !order[0].isPrivate
    ensures forall p | p in order[1..] :: p.name in PublicNames(order) <==> p.name in PublicNames(order[1..])
  {
    var head, tail := order[0], order[1..];
    if p :| p in order && !p.isPrivate && p.name == head.name {
      var i :| 0 <= i < |order| && order[i] == p;
      assert Names(order)[i] == Names(order)[0];
    }
    forall p | p in tail ensures p.name != head.name {
      var i :| 0 <= i < |tail| && tail[i] == p;
      assert Names(order)[i + 1] == p.name && Names(order)[0] == head.name;
    }
    assert forall p :: p in order <==> p == head || p in tail;
  }

  ghost function PublicNames(order: seq<Package>): set<string> {
    set p | p in order && !p.isPrivate :: p.name
  }

  lemma {:induction false} SelectAgrees(order: seq<Package>, a: set<string>, b: set<string>)
    requires forall p | p in order :: p.name in a <==> p.name in b
    ensures Select(order, a) == Select(order, b)
    decreases |order|
  {
    if order != [] { SelectAgrees(order[1..], a, b); }
  }

  /** Selecting from a release order in order always satisfies the check made before publishing. */
  lemma {:induction false} SelectionPublishes(packages: seq<Package>, ordered: seq<Package>, released: seq<Package>,
      keep: set<string>)
    requires Releasable(packages) && IsReleaseOrder(packages, ordered, released)
    ensures RuntimeOrdered(Select(released, keep))
  {
    var chosen := keep * PublicNames(ordered);
    PublicIsSelection(ordered, keep);
    var receipt := Select(ordered, chosen);
    forall k, d | 0 <= k < |receipt| && d in Runtime(receipt[k]) && d.name in Names(receipt)
      ensures d.name in Names(receipt)[..k]
    {
      SelectedComesFirst(packages, ordered, chosen, k, d);
    }
  }

  lemma {:induction false} SelectedComesFirst(packages: seq<Package>, ordered: seq<Package>, chosen: set<string>,
      k: nat, d: Dependency)
    requires (forall p :: p in ordered <==> p in packages) && Topological(BuildGraph(packages), Names(ordered))
    requires k < |Select(ordered, chosen)| && d in Runtime(Select(ordered, chosen)[k])
    requires d.name in Names(Select(ordered, chosen))
    ensures d.name in Names(Select(ordered, chosen))[..k]
  {
    var receipt := Select(ordered, chosen);
    var m :| 0 <= m < |receipt| && Names(receipt)[m] == d.name;
    assert receipt[m] in receipt;
    var q :| 0 <= q < |ordered| && ordered[q] == receipt[m];
    assert Names(ordered)[q] == d.name;
    var i := SelectPrefix(ordered, chosen, k);
    NeededComesFirst(packages, ordered, i, d);
    var t :| t in ordered[..i] && t.name == d.name;
    assert t in Select(ordered[..i], chosen);
    FoundBefore(receipt, k, t);
  }

  lemma FoundBefore(receipt: seq<Package>, k: nat, t: Package)
    requires k <= |receipt| && t in receipt[..k]
    ensures t.name in Names(receipt)[..k]
  {
    var n :| 0 <= n < k && receipt[n] == t;
    assert Names(receipt)[..k][n] == t.name;
  }

  lemma NeededComesFirst(packages: seq<Package>, ordered: seq<Package>, i: nat, d: Dependency)
    requires (forall p :: p in ordered <==> p in packages) && Topological(BuildGraph(packages), Names(ordered))
    requires i < |ordered| && d in Runtime(ordered[i]) && d.name in Names(ordered)
    ensures exists t :: t in ordered[..i] && t.name == d.name
  {
    SortedNames(packages, ordered);
    var g, names := BuildGraph(packages), Names(ordered);
    assert names[i] in g;
    assert Needs(packages, names[i], d.name) by {
      assert ordered[i] in packages && BuildDependency(ordered[i], d);
    }
    assert d.name in g[names[i]];
    var j :| 0 <= j < i && names[j] == d.name;
    assert ordered[..i][j].name == d.name;
  }
}
