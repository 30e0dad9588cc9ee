/** The undirected graph of links between interfaces: reachability and depth-first search. */
module LinkGraph {
  /** Node weights and edges, both addressed by position as in petgraph. */
  datatype Graph<Id> = Graph(nodes: seq<Id>, edges: seq<(nat, nat)>)

  ghost predicate Adjacent(g: Graph, u: nat, v: nat) {
    (u, v) in g.edges || (v, u) in g.edges
  }

  /** A walk along edges. */
  ghost predicate Walk(g: Graph, p: seq<nat>) {
    |p| > 0 && forall k | 0 <= k < |p| - 1 :: Adjacent(g, p[k], p[k + 1])
  }

  ghost predicate WalkFrom(g: Graph, p: seq<nat>, u: nat, v: nat) {
    Walk(g, p) && p[0] == u && p[|p| - 1] == v
  }

  ghost predicate Reachable(g: Graph, u: nat, v: nat) {
    exists p :: WalkFrom(g, p, u, v)
  }

  lemma ReachSelf(g: Graph, u: nat)
    ensures Reachable(g, u, u)
  {
    assert WalkFrom(g, [u], u, u);
  }

  lemma ReachStep(g: Graph, u: nat, v: nat)
    requires Adjacent(g, u, v)
    ensures Reachable(g, u, v)
  {
    assert WalkFrom(g, [u, v], u, v);
  }

  lemma ReachTransitive(g: Graph, u: nat, v: nat, w: nat)
    requires Reachable(g, u, v) && Reachable(g, v, w)
    ensures Reachable(g, u, w)
  {
    var p :| WalkFrom(g, p, u, v);
    var q :| WalkFrom(g, q, v, w);
    var r := p + q[1..];
    forall k | 0 <= k < |r| - 1
      ensures Adjacent(g, r[k], r[k + 1])
    {
      if k >= |p| - 1 {
        assert r[k] == q[k - (|p| - 1)] && r[k + 1] == q[k + 1 - (|p| - 1)];
      }
    }
    assert WalkFrom(g, r, u, w);
  }

  function Reversed(p: seq<nat>): (r: seq<nat>)
    ensures |r| == |p| && forall k | 0 <= k < |p| :: r[k] == p[|p| - 1 - k]
  {
    if p == [] then [] else Reversed(p[1..]) + [p[0]]
  }

  lemma ReachSymmetric(g: Graph, u: nat, v: nat)
    requires Reachable(g, u, v)
    ensures Reachable(g, v, u)
  {
    var p :| WalkFrom(g, p, u, v);
    var r := Reversed(p);
    forall k | 0 <= k < |r| - 1
      ensures Adjacent(g, r[k], r[k + 1])
    {
      var j := |p| - 2 - k;
      assert r[k] == p[j + 1] && r[k + 1] == p[j];
      assert Adjacent(g, p[j], p[j + 1]);
    }
    assert WalkFrom(g, r, v, u);
  }

  /** A set that contains `u` and is closed under edges contains all that is reachable from `u`. */
  lemma {:induction false} ClosedContains(g: Graph, s: set<nat>, p: seq<nat>)
    requires Walk(g, p) && p[0] in s
    requires forall x, y | x in s && Adjacent(g, x, y) :: y in s
    ensures forall k | 0 <= k < |p| :: p[k] in s
    decreases |p|
  {
    if |p| > 1 {
      assert Adjacent(g, p[0], p[1]);
      assert Walk(g, p[1..]) by {
        forall k | 0 <= k < |p[1..]| - 1
          ensures Adjacent(g, p[1..][k], p[1..][k + 1])
        {
          assert Adjacent(g, p[k + 1], p[k + 2]);
        }
      }
      ClosedContains(g, s, p[1..]);
      forall k | 0 <= k < |p|
        ensures p[k] in s
      {
        if k > 0 {
          assert p[k] == p[1..][k - 1];
        }
      }
    }
  }

  // ----- adding and removing edges -----------------------------------------------------------------

  /** Fewer edges never reach further. */
  lemma FewerEdgesReachLess(g: Graph, h: Graph, u: nat, v: nat)
    requires forall e | e in h.edges :: e in g.edges
    requires Reachable(h, u, v)
    ensures Reachable(g, u, v)
  {
    var p :| WalkFrom(h, p, u, v);
    forall k | 0 <= k < |p| - 1
      ensures Adjacent(g, p[k], p[k + 1])
    {
      assert Adjacent(h, p[k], p[k + 1]);
    }
    assert WalkFrom(g, p, u, v);
  }

  function AddEdge(g: Graph, a: nat, b: nat): Graph {
    g.(edges := g.edges + [(a, b)])
  }

  /** What the new edge makes reachable: walks that never use it, or that cross it once. */
  ghost predicate ReachableVia(g: Graph, a: nat, b: nat, u: nat, v: nat) {
    || Reachable(g, u, v)
    || (Reachable(g, u, a) && Reachable(g, b, v))
    || (Reachable(g, u, b) && Reachable(g, a, v))
  }

  /** A walk that may use the new edge any number of times can be replaced by one that crosses it
      at most once. */
  lemma {:induction false} CrossOnce(g: Graph, a: nat, b: nat, p: seq<nat>, v: nat)
    requires Walk(AddEdge(g, a, b), p) && p[|p| - 1] == v
    ensures ReachableVia(g, a, b, p[0], v)
    decreases |p|
  {
    var u := p[0];
    if |p| == 1 {
      ReachSelf(g, u);
    } else {
      var x := p[1];
      var h := AddEdge(g, a, b);
      assert Walk(h, p[1..]) by {
        forall k | 0 <= k < |p[1..]| - 1
          ensures Adjacent(h, p[1..][k], p[1..][k + 1])
        {
          assert Adjacent(h, p[k + 1], p[k + 2]);
        }
      }
      CrossOnce(g, a, b, p[1..], v);
      assert Adjacent(h, p[0], p[1]);
      FirstStep(g, a, b, u, x, v);
    }
  }

  lemma FirstStep(g: Graph, a: nat, b: nat, u: nat, x: nat, v: nat)
    requires Adjacent(AddEdge(g, a, b), u, x) && ReachableVia(g, a, b, x, v)
    ensures ReachableVia(g, a, b, u, v)
  {
    ReachSelf(g, a);
    ReachSelf(g, b);
    if Adjacent(g, u, x) {
      ReachStep(g, u, x);
      if Reachable(g, x, v) {
        ReachTransitive(g, u, x, v);
      } else if Reachable(g, x, a) && Reachable(g, b, v) {
        ReachTransitive(g, u, x, a);
      } else {
        ReachTransitive(g, u, x, b);
      }
    } else {
      assert (u, x) == (a, b) || (x, u) == (a, b);
    }
  }

  /** Linking `a` and `b` merges exactly their two components. */
  lemma LinkMerges(g: Graph, a: nat, b: nat, u: nat, v: nat)
    ensures Reachable(AddEdge(g, a, b), u, v) <==> ReachableVia(g, a, b, u, v)
  {
    var h := AddEdge(g, a, b);
    if Reachable(h, u, v) {
      var p :| WalkFrom(h, p, u, v);
      CrossOnce(g, a, b, p, v);
    }
    if ReachableVia(g, a, b, u, v) {
      assert forall e | e in g.edges :: e in h.edges;
      assert (a, b) in h.edges;
      ReachStep(h, a, b);
      ReachStep(h, b, a);
      if Reachable(g, u, v) {
        FewerEdgesReachLess(h, g, u, v);
      } else if Reachable(g, u, a) && Reachable(g, b, v) {
        Around(h, g, u, a, b, v);
      } else {
        Around(h, g, u, b, a, v);
      }
    }
  }

  lemma Around(h: Graph, g: Graph, u: nat, a: nat, b: nat, v: nat)
    requires forall e | e in g.edges :: e in h.edges
    requires Reachable(g, u, a) && Reachable(h, a, b) && Reachable(g, b, v)
    ensures Reachable(h, u, v)
  {
    FewerEdgesReachLess(h, g, u, a);
    FewerEdgesReachLess(h, g, b, v);
    ReachTransitive(h, u, a, b);
    ReachTransitive(h, u, b, v);
  }

  /** petgraph's edge removal: the last edge takes the place of the removed one. */
  function RemoveEdge(edges: seq<(nat, nat)>, k: nat): (r: seq<(nat, nat)>)
    requires k < |edges|
    ensures |r| == |edges| - 1
  {
    var last := |edges| - 1;
    if k == last then edges[..last] else edges[..last][k := edges[last]]
  }

  /** Removal takes away exactly one edge, the one at `k`. */
  lemma RemoveEdgeTakesOne(edges: seq<(nat, nat)>, k: nat)
    requires k < |edges|
    ensures multiset(RemoveEdge(edges, k)) == multiset(edges) - multiset{edges[k]}
    ensures forall e | e in RemoveEdge(edges, k) :: e in edges
  {
    var last := |edges| - 1;
    assert edges == edges[..last] + [edges[last]];
    if k < last {
      assert multiset(edges[..last][k := edges[last]]) == multiset(edges[..last]) - multiset{edges[k]} + multiset{edges[last]};
    }
  }

  // ----- depth-first search -------------------------------------------------------------------------

  /** The neighbours of `u`, one entry per edge end. */
  method Neighbours(g: Graph, u: nat) returns (ns: seq<nat>)
    ensures forall v :: v in ns <==> Adjacent(g, u, v)
  {
    ns := [];
    for k := 0 to |g.edges|
      invariant forall v :: v in ns <==> (u, v) in g.edges[..k] || (v, u) in g.edges[..k]
    {
      var (a, b) := g.edges[k];
      assert g.edges[..k + 1] == g.edges[..k] + [(a, b)];
      if a == u {
        ns := ns + [b];
      }
      if b == u {
        ns := ns + [a];
      }
    }
    assert g.edges[..|g.edges|] == g.edges;
  }

  /** The entries of `ns` that are not in `visited`. */
  function Unvisited(ns: seq<nat>, visited: set<nat>): (r: seq<nat>)
    ensures forall v :: v in r <==> v in ns && v !in visited
  {
    if ns == [] then []
    else (if ns[0] in visited then [] else [ns[0]]) + Unvisited(ns[1..], visited)
  }

  ghost function Indices(n: nat): (s: set<nat>)
    ensures forall v: nat :: v in s <==> v < n
  {
    if n == 0 then {} else Indices(n - 1) + {n - 1}
  }

  ghost predicate EdgesInRange(g: Graph) {
    forall e | e in g.edges :: e.0 < |g.nodes| && e.1 < |g.nodes|
  }

  /** The state of a search from `start`: all that was found is reachable, and every edge out of a
      visited node leads to a visited or a stacked one. */
  ghost predicate Searching(g: Graph, start: nat, visited: set<nat>, stack: seq<nat>) {
    && (forall v | v in visited || v in stack :: v < |g.nodes| && Reachable(g, start, v))
    && (start in visited || start in stack)
    && forall u, v | u in visited && Adjacent(g, u, v) :: v in visited || v in stack
  }

  lemma SearchSkips(g: Graph, start: nat, visited: set<nat>, stack: seq<nat>, node: nat)
    requires Searching(g, start, visited, stack + [node]) && node in visited
    ensures Searching(g, start, visited, stack)
  {
    assert forall v | v in stack :: v in stack + [node];
  }

  lemma SearchVisits(g: Graph, start: nat, visited: set<nat>, stack: seq<nat>, node: nat, ns: seq<nat>)
    requires Searching(g, start, visited, stack + [node]) && EdgesInRange(g)
    requires forall v :: v in ns <==> Adjacent(g, node, v)
    ensures Searching(g, start, visited + {node}, stack + Unvisited(ns, visited + {node}))
  {
    var seen := visited + {node};
    var next := stack + Unvisited(ns, seen);
    assert node in stack + [node];
    assert forall v | v in stack :: v in stack + [node];
    forall v | v in ns
      ensures v < |g.nodes| && Reachable(g, start, v)
    {
      ReachStep(g, node, v);
      ReachTransitive(g, start, node, v);
    }
    forall u, v | u in seen && Adjacent(g, u, v)
      ensures v in seen || v in next
    {
      if u in visited && v !in seen {
        assert v in stack + [node];
        assert v in stack;
      }
    }
  }

  /** `order` lists the elements of `visited`, each once. */
  ghost predicate Lists(order: seq<nat>, visited: set<nat>) {
    && (forall v :: v in order <==> v in visited)
    && forall j, k | 0 <= j < k < |order| :: order[j] != order[k]
  }

  lemma ListsNext(order: seq<nat>, visited: set<nat>, node: nat)
    requires Lists(order, visited) && node !in visited
    ensures Lists(order + [node], visited + {node})
  {
  }

  lemma SearchEnds(g: Graph, start: nat, visited: set<nat>, v: nat)
    requires Searching(g, start, visited, [])
    ensures v in visited <==> Reachable(g, start, v)
  {
    if Reachable(g, start, v) {
      var p :| WalkFrom(g, p, start, v);
      ClosedContains(g, visited, p);
    }
  }

  /** Depth-first search visits every node reachable from `start` exactly once, and no other. */
  method Dfs(g: Graph, start: nat) returns (order: seq<nat>)
    requires start < |g.nodes| && EdgesInRange(g)
    ensures forall v :: v in order <==> Reachable(g, start, v)
    ensures forall j, k | 0 <= j < k < |order| :: order[j] != order[k]
    ensures forall v | v in order :: v < |g.nodes|
  {
    order := [];
    var visited: set<nat> := {};
    var stack := [start];
    ReachSelf(g, start);
    while stack != []
      invariant Lists(order, visited) && Searching(g, start, visited, stack)
      decreases |Indices(|g.nodes|) - visited|, |stack|
    {
      var top := |stack| - 1;
      var node := stack[top];
      assert stack == stack[..top] + [node];
      stack := stack[..top];
      if node in visited {
        SearchSkips(g, start, visited, stack, node);
      } else {
        var ns := Neighbours(g, node);
        SearchVisits(g, start, visited, stack, node, ns);
        assert Indices(|g.nodes|) - (visited + {node}) == (Indices(|g.nodes|) - visited) - {node};
        ListsNext(order, visited, node);
        visited := visited + {node};
        order := order + [node];
        stack := stack + Unvisited(ns, visited);
      }
    }
    forall v {
      SearchEnds(g, start, visited, v);
    }
  }
}
