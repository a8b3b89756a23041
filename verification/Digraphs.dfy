/** Finite dependency graphs, and the depth-first walk that the role validator, the workspace
    supervisor and the release planner each write out as a recursive closure. */
module Digraphs {

  /** A graph names, for every node, the nodes it depends on. */
  type Graph<K> = map<K, set<K>>

  ghost predicate Walk<K>(g: Graph<K>, p: seq<K>) {
    forall i :: 0 <= i < |p| - 1 ==> p[i] in g && p[i + 1] in g[p[i]]
  }

  /** A walk along at least one arrow that returns to its start. */
  ghost predicate Cycle<K>(g: Graph<K>, p: seq<K>) {
    |p| >= 2 && Walk(g, p) && p[0] == p[|p| - 1]
  }

  ghost predicate Acyclic<K(!new)>(g: Graph<K>) {
    forall p: seq<K> :: !Cycle(g, p)
  }

  /** Every arrow leads to a node of the graph. */
  ghost predicate Closed<K>(g: Graph<K>) {
    forall k | k in g :: g[k] <= g.Keys
  }

  ghost predicate NoDuplicates<K>(s: seq<K>) {
    forall i, j :: 0 <= i < j < |s| ==> s[i] != s[j]
  }

  lemma SameGraph<K>(g: Graph<K>, h: Graph<K>)
    requires g.Keys == h.Keys && forall k | k in g :: g[k] == h[k]
    ensures g == h
  {
  }

  /** Each element comes after everything it depends on. */
  ghost predicate DependenciesFirst<K>(g: Graph<K>, order: seq<K>) {
    forall i :: 0 <= i < |order| ==> order[i] in g && forall d | d in g[order[i]] :: d in order[..i]
  }

  ghost predicate Topological<K(!new)>(g: Graph<K>, order: seq<K>) {
    && NoDuplicates(order)
    && (forall k :: k in order <==> k in g)
    && DependenciesFirst(g, order)
  }

  /** Along a walk, positions in a dependency-first order strictly fall. */
  lemma {:induction false} WalkDescends<K(!new)>(g: Graph<K>, order: seq<K>, p: seq<K>, i: nat) returns (j: nat)
    requires NoDuplicates(order) && DependenciesFirst(g, order)
    requires Walk(g, p) && |p| >= 1 && i < |order| && order[i] == p[0]
    ensures j <= i < |order| && order[j] == p[|p| - 1]
    ensures |p| >= 2 ==> j < i
    decreases |p|
  {
    if |p| == 1 {
      j := i;
    } else {
      assert p[1] in g[order[i]];
      var m :| 0 <= m < i && order[m] == p[1];
      assert Walk(g, p[1..]) by {
        forall k | 0 <= k < |p[1..]| - 1 ensures p[1..][k] in g && p[1..][k + 1] in g[p[1..][k]] {
          assert p[k + 1] in g && p[k + 2] in g[p[k + 1]];
        }
      }
      j := WalkDescends(g, order, p[1..], m);
    }
  }

  lemma TopologicalImpliesAcyclic<K(!new)>(g: Graph<K>, order: seq<K>)
    requires Topological(g, order)
    ensures Closed(g) && Acyclic(g)
  {
    forall k, d | k in g && d in g[k] ensures d in g {
      var i :| 0 <= i < |order| && order[i] == k;
      assert d in order[..i];
    }
    forall p: seq<K> ensures !Cycle(g, p) {
      if Cycle(g, p) {
        assert p[0] in g;
        var i :| 0 <= i < |order| && order[i] == p[0];
        var j := WalkDescends(g, order, p, i);
        assert false;
      }
    }
  }

  ghost predicate DependsWithin<K>(g: Graph<K>, k: K, nodes: set<K>) {
    k in g && g[k] * nodes != {}
  }

  /** A nonempty set of nodes each depending on another of the set contains a cycle. */
  lemma StuckSetHasCycle<K(!new)>(g: Graph<K>, stuck: set<K>)
    requires stuck != {}
    requires forall k | k in stuck :: DependsWithin(g, k, stuck)
    ensures !Acyclic(g)
  {
    var start :| start in stuck;
    ExtendUntilRepeat(g, stuck, [start]);
  }

  lemma {:induction false} ExtendUntilRepeat<K(!new)>(g: Graph<K>, stuck: set<K>, p: seq<K>)
    requires forall k | k in stuck :: DependsWithin(g, k, stuck)
    requires |p| >= 1 && Walk(g, p) && forall k | k in p :: k in stuck
    ensures !Acyclic(g)
    decreases stuck - Nodes(p)
  {
    var last := p[|p| - 1];
    assert DependsWithin(g, last, stuck);
    var d :| d in g[last] * stuck;
    if d in p {
      ReturnIsCycle(g, p, d);
    } else {
      WalkGrows(g, p, d);
      assert Nodes(p + [d]) == Nodes(p) + {d};
      ExtendUntilRepeat(g, stuck, p + [d]);
    }
  }

  ghost function Nodes<K>(p: seq<K>): set<K> {
    set k | k in p
  }

  lemma {:induction false} DistinctCount<K>(s: seq<K>)
    requires NoDuplicates(s)
    ensures |Nodes(s)| == |s|
  {
    if s != [] {
      var init, last := s[..|s| - 1], s[|s| - 1];
      DistinctCount(init);
      assert s == init + [last];
      assert Nodes(s) == Nodes(init) + {last};
    }
  }

  lemma {:induction false} CountDistinct<K>(s: seq<K>)
    ensures |Nodes(s)| <= |s|
    ensures |Nodes(s)| == |s| <==> NoDuplicates(s)
  {
    if s != [] {
      var init, last := s[..|s| - 1], s[|s| - 1];
      CountDistinct(init);
      assert s == init + [last];
      assert Nodes(s) == Nodes(init) + {last};
      if last in init {
        var i :| 0 <= i < |init| && init[i] == last;
        assert s[i] == s[|s| - 1];
      }
    }
  }

  /** `b` can be reached from `a`; every node reaches itself. */
  ghost predicate Reaches<K(!new)>(g: Graph<K>, a: K, b: K) {
    exists p: seq<K> :: |p| >= 1 && p[0] == a && p[|p| - 1] == b && Walk(g, p)
  }

  lemma ReachesItself<K(!new)>(g: Graph<K>, a: K)
    ensures Reaches(g, a, a)
  {
    assert Walk(g, [a]);
  }

  lemma ReachesStep<K(!new)>(g: Graph<K>, a: K, b: K, c: K)
    requires Reaches(g, a, b) && b in g && c in g[b]
    ensures Reaches(g, a, c)
  {
    var p: seq<K> :| |p| >= 1 && p[0] == a && p[|p| - 1] == b && Walk(g, p);
    WalkGrows(g, p, c);
  }

  ghost predicate ClosedUnder<K>(g: Graph<K>, nodes: set<K>) {
    forall k | k in nodes && k in g :: g[k] <= nodes
  }

  /** A closed set holds everything reachable from its members. */
  lemma {:induction false} WalkStaysInside<K>(g: Graph<K>, nodes: set<K>, p: seq<K>)
    requires ClosedUnder(g, nodes)
    requires |p| >= 1 && p[0] in nodes && Walk(g, p)
    ensures forall i :: 0 <= i < |p| ==> p[i] in nodes
    decreases |p|
  {
    if |p| > 1 {
      var init := p[..|p| - 1];
      assert Walk(g, init) by {
        forall i | 0 <= i < |init| - 1 ensures init[i] in g && init[i + 1] in g[init[i]] {
          assert p[i] in g && p[i + 1] in g[p[i]];
        }
      }
      WalkStaysInside(g, nodes, init);
      assert p[|p| - 2] in nodes && p[|p| - 1] in g[p[|p| - 2]];
    }
  }

  lemma ReachStaysInside<K(!new)>(g: Graph<K>, nodes: set<K>, a: K, b: K)
    requires ClosedUnder(g, nodes) && a in nodes && Reaches(g, a, b)
    ensures b in nodes
  {
    var p: seq<K> :| |p| >= 1 && p[0] == a && p[|p| - 1] == b && Walk(g, p);
    WalkStaysInside(g, nodes, p);
  }

  /** Adding nodes or changing arrows outside a closed set does not change what its members reach. */
  lemma ReachAgrees<K(!new)>(g: Graph<K>, h: Graph<K>, nodes: set<K>, a: K, b: K)
    requires ClosedUnder(g, nodes) && a in nodes
    requires forall k | k in nodes :: k in g && k in h && g[k] == h[k]
    ensures Reaches(g, a, b) <==> Reaches(h, a, b)
  {
    if Reaches(g, a, b) {
      var p: seq<K> :| |p| >= 1 && p[0] == a && p[|p| - 1] == b && Walk(g, p);
      WalkStaysInside(g, nodes, p);
      assert Walk(h, p) by {
        forall i | 0 <= i < |p| - 1 ensures p[i] in h && p[i + 1] in h[p[i]] {
          assert p[i] in g && p[i + 1] in g[p[i]];
        }
      }
    }
    if Reaches(h, a, b) {
      var p: seq<K> :| |p| >= 1 && p[0] == a && p[|p| - 1] == b && Walk(h, p);
      assert ClosedUnder(h, nodes);
      WalkStaysInside(h, nodes, p);
      assert Walk(g, p) by {
        forall i | 0 <= i < |p| - 1 ensures p[i] in g && p[i + 1] in g[p[i]] {
          assert p[i] in h && p[i + 1] in h[p[i]];
        }
      }
    }
  }

  lemma ReturnIsCycle<K(!new)>(g: Graph<K>, p: seq<K>, k: K)
    requires Walk(g, p) && k in p && p[|p| - 1] in g && k in g[p[|p| - 1]]
    ensures !Acyclic(g)
  {
    var j :| 0 <= j < |p| && p[j] == k;
    WalkGrows(g, p, k);
    SuffixIsWalk(g, p + [k], j);
    assert Cycle(g, (p + [k])[j..]);
  }

  lemma SuffixIsWalk<K>(g: Graph<K>, p: seq<K>, j: nat)
    requires Walk(g, p) && j <= |p|
    ensures Walk(g, p[j..])
  {
    forall i | 0 <= i < |p[j..]| - 1 ensures p[j..][i] in g && p[j..][i + 1] in g[p[j..][i]] {
      assert p[j + i] in g && p[j + i + 1] in g[p[j + i]];
    }
  }

  /** One entry of an adjacency list: an arrow, or an entry the caller's own checks refuse. */
  datatype Edge<K> = To(target: K) | Refused

  function Arrows<K(!new)>(edges: map<K, seq<Edge<K>>>): (g: Graph<K>)
    ensures g.Keys == edges.Keys
    ensures forall k, d | k in g :: d in g[k] <==> To(d) in edges[k]
  {
    map k | k in edges :: set e | e in edges[k] && e.To? :: e.target
  }

  /** What all three walks accept: no refused entry, no missing target, no cycle. */
  ghost predicate Sound<K(!new)>(edges: map<K, seq<Edge<K>>>) {
    && (forall k | k in edges :: Refused !in edges[k])
    && Closed(Arrows(edges))
    && Acyclic(Arrows(edges))
  }

  /** The three-colour walk: `visiting` is grey, `visited` is black. */
  class DepthFirst<K(==,!new)> {
    const edges: map<K, seq<Edge<K>>>
    var visiting: set<K>
    var visited: set<K>
    var order: seq<K>
    ghost var stack: seq<K>

    ghost predicate Valid()
      reads this
    {
      && visiting !! visited
      && (forall k :: k in stack <==> k in visiting)
      && visiting <= edges.Keys
      && Walk(Arrows(edges), stack)
      && NoDuplicates(order)
      && (forall k :: k in order <==> k in visited)
      && DependenciesFirst(Arrows(edges), order)
      && (forall k | k in visited :: k in edges && Refused !in edges[k])
    }

    constructor (edges: map<K, seq<Edge<K>>>)
      ensures Valid() && this.edges == edges
      ensures visiting == {} && visited == {} && order == [] && stack == []
    {
      this.edges := edges;
      visiting, visited, order, stack := {}, {}, [], [];
    }

    method Visit(k: K) returns (ok: bool)
      requires Valid()
      requires if stack == [] then k in edges
               else stack[|stack| - 1] in edges && To(k) in edges[stack[|stack| - 1]]
      modifies this
      ensures ok ==> Valid() && k in visited && visiting == old(visiting) && stack == old(stack)
      ensures ok ==> old(order) <= order && old(visited) <= visited
      ensures !ok ==> !Sound(edges)
      decreases edges.Keys - visiting
    {
      if k in visiting {
        ReturnIsCycle(Arrows(edges), stack, k);
        return false;
      }
      if k in visited { return true; }
      if k !in edges {
        assert k in Arrows(edges)[stack[|stack| - 1]];
        return false;
      }
      visiting := visiting + {k};
      stack := stack + [k];
      WalkGrows(Arrows(edges), old(stack), k);
      var i := 0;
      while i < |edges[k]|
        invariant 0 <= i <= |edges[k]|
        invariant Valid() && stack == old(stack) + [k] && visiting == old(visiting) + {k}
        invariant old(order) <= order && old(visited) <= visited
        invariant forall e | e in edges[k][..i] :: e.To? && e.target in visited
      {
        var e := edges[k][i];
        if e.Refused? { return false; }
        var deeper := Visit(e.target);
        if !deeper { return false; }
        i := i + 1;
      }
      Finish(k);
      ok := true;
    }

    /** Blacken a node all of whose targets are black. */
    method Finish(k: K)
      requires Valid() && stack != [] && stack[|stack| - 1] == k && k in edges
      requires k !in stack[..|stack| - 1]
      requires forall e | e in edges[k] :: e.To? && e.target in visited
      modifies this
      ensures Valid() && visited == old(visited) + {k} && order == old(order) + [k]
      ensures stack == old(stack)[..|old(stack)| - 1] && visiting == old(visiting) - {k}
    {
      visiting := visiting - {k};
      visited := visited + {k};
      order := order + [k];
      stack := stack[..|stack| - 1];
      assert DependenciesFirst(Arrows(edges), order) by {
        forall i | 0 <= i < |order|
          ensures order[i] in Arrows(edges) && forall d | d in Arrows(edges)[order[i]] :: d in order[..i]
        {
          if i < |order| - 1 {
            assert order[..i] == old(order)[..i];
          } else {
            assert order[..i] == old(order);
            assert forall d | d in Arrows(edges)[k] :: To(d) in edges[k];
          }
        }
      }
    }

    /** Visit every node from white; the outcome does not depend on the order of `roots`. */
    method Run(roots: seq<K>) returns (ok: bool)
      requires Valid() && visited == {} && visiting == {} && stack == []
      requires forall k :: k in roots <==> k in edges
      modifies this
      ensures ok <==> Sound(edges)
      ensures ok ==> Topological(Arrows(edges), order)
    {
      var i := 0;
      while i < |roots|
        invariant 0 <= i <= |roots|
        invariant Valid() && stack == [] && visiting == {}
        invariant forall k | k in roots[..i] :: k in visited
      {
        ok := Visit(roots[i]);
        if !ok { return; }
        assert roots[..i + 1] == roots[..i] + [roots[i]];
        i := i + 1;
      }
      assert forall k | k in edges :: k in roots[..|roots|];
      TopologicalImpliesAcyclic(Arrows(edges), order);
      ok := true;
    }
  }

  lemma WalkGrows<K(!new)>(g: Graph<K>, p: seq<K>, k: K)
    requires Walk(g, p)
    requires p == [] || (p[|p| - 1] in g && k in g[p[|p| - 1]])
    ensures Walk(g, p + [k])
  {
    var q := p + [k];
    forall i | 0 <= i < |q| - 1 ensures q[i] in g && q[i + 1] in g[q[i]] {
      if i < |p| - 1 { assert p[i + 1] in g[p[i]]; }
    }
  }
}
