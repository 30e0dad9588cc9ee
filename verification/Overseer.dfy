/** The overseer's registry of interfaces, the links between them, and the fan-out of
    notifications along those links. */
module Overseer {
  import opened LinkGraph

  type InterfaceId = nat

  datatype Error = InterfaceAlreadyExists | InterfaceDoesntExist | LinkDoesntExist | BackendFailed | FilterFailed
  datatype Result = Ok | Err(error: Error)

  /** `interfaces` maps an interface to its node, `index` a linked pair to its edge. */
  datatype Net = Net(graph: Graph<InterfaceId>, index: map<(InterfaceId, InterfaceId), nat>,
                     interfaces: map<InterfaceId, nat>) {
    /** Node `u` belongs to a registered interface. */
    predicate Live(u: nat) {
      u < |graph.nodes| && graph.nodes[u] in interfaces && interfaces[graph.nodes[u]] == u
    }

    /** Registered interfaces own their nodes, and links only join registered interfaces. */
    ghost predicate Inv() {
      && (forall a | a in interfaces :: interfaces[a] < |graph.nodes| && graph.nodes[interfaces[a]] == a)
      && (forall e | e in graph.edges :: Live(e.0) && Live(e.1))
    }

    /** A notification that arrives at `a` concerns `b`. */
    ghost predicate Linked(a: InterfaceId, b: InterfaceId)
      requires a in interfaces && b in interfaces
    {
      Reachable(graph, interfaces[a], interfaces[b])
    }
  }

  const EMPTY := Net(Graph([], []), map[], map[])

  /** What becomes of the three fallible stages of creating an interface. */
  datatype Spawn = Spawn(backendOk: bool, filterOk: bool)

  /** A failed filter leaves its node behind, without an interface. */
  function Create(n: Net, id: InterfaceId, s: Spawn): (Net, Result) {
    if !s.backendOk then (n, Err(BackendFailed))
    else if id in n.interfaces then (n, Err(InterfaceAlreadyExists))
    else
      var m := n.(graph := n.graph.(nodes := n.graph.nodes + [id]));
      if !s.filterOk then (m, Err(FilterFailed))
      else (m.(interfaces := m.interfaces[id := |n.graph.nodes|]), Ok)
  }

  function Link(n: Net, a: InterfaceId, b: InterfaceId): (Net, Result) {
    if a in n.interfaces && b in n.interfaces then
      (n.(graph := AddEdge(n.graph, n.interfaces[a], n.interfaces[b]), index := n.index[(a, b) := |n.graph.edges|]), Ok)
    else (n, Err(InterfaceDoesntExist))
  }

  /** The stored edge number is forgotten in any case; it may have gone stale by now. */
  function Unlink(n: Net, a: InterfaceId, b: InterfaceId): (Net, Result) {
    if (a, b) !in n.index then (n, Err(LinkDoesntExist))
    else
      var k := n.index[(a, b)];
      var m := n.(index := n.index - {(a, b)});
      if k < |n.graph.edges| then (m.(graph := n.graph.(edges := RemoveEdge(n.graph.edges, k))), Ok)
      else (m, Err(LinkDoesntExist))
  }

  class Overseer {
    var net: Net
    /** The notifications handed to the filter of each interface, oldest first. */
    var inbox: map<InterfaceId, seq<nat>>

    ghost predicate Valid()
      reads this
    {
      net.Inv() && inbox.Keys == net.interfaces.Keys
    }

    constructor ()
      ensures Valid() && net == EMPTY
    {
      net := EMPTY;
      inbox := map[];
    }

    method CreateInterface(id: InterfaceId, s: Spawn) returns (r: Result)
      requires Valid()
      modifies this
      ensures Valid() && (net, r) == Create(old(net), id, s)
      ensures inbox == if r == Ok then old(inbox)[id := []] else old(inbox)
    {
      CreateKeeps(net, id, s);
      if !s.backendOk {
        return Err(BackendFailed);
      }
      if id in net.interfaces {
        return Err(InterfaceAlreadyExists);
      }
      var node := |net.graph.nodes|;
      net := net.(graph := net.graph.(nodes := net.graph.nodes + [id]));
      if !s.filterOk {
        return Err(FilterFailed);
      }
      net := net.(interfaces := net.interfaces[id := node]);
      inbox := inbox[id := []];
      return Ok;
    }

    method LinkInterfaces(a: InterfaceId, b: InterfaceId) returns (r: Result)
      requires Valid()
      modifies this`net
      ensures Valid() && (net, r) == Link(old(net), a, b)
    {
      LinkKeeps(net, a, b);
      if a in net.interfaces && b in net.interfaces {
        var edge := |net.graph.edges|;
        net := net.(graph := net.graph.(edges := net.graph.edges + [(net.interfaces[a], net.interfaces[b])]));
        net := net.(index := net.index[(a, b) := edge]);
        return Ok;
      }
      return Err(InterfaceDoesntExist);
    }

    method UnlinkInterfaces(a: InterfaceId, b: InterfaceId) returns (r: Result)
      requires Valid()
      modifies this`net
      ensures Valid() && (net, r) == Unlink(old(net), a, b)
    {
      UnlinkKeeps(net, a, b);
      if (a, b) !in net.index {
        return Err(LinkDoesntExist);
      }
      var k := net.index[(a, b)];
      net := net.(index := net.index - {(a, b)});
      if k >= |net.graph.edges| {
        return Err(LinkDoesntExist);
      }
      net := net.(graph := net.graph.(edges := RemoveEdge(net.graph.edges, k)));
      return Ok;
    }

    /** Hands the notification once to every interface linked to `id`, itself included, and to no
        other; the look-ups along the way cannot fail. */
    method InjectNotification(id: InterfaceId, msg: nat) returns (r: Result)
      requires Valid()
      modifies this`inbox
      ensures Valid() && r == if id in net.interfaces then Ok else Err(InterfaceDoesntExist)
      ensures forall x | x in inbox ::
                inbox[x] == old(inbox)[x] + if id in net.interfaces && net.Linked(id, x) then [msg] else []
    {
      if id !in net.interfaces {
        return Err(InterfaceDoesntExist);
      }
      var order := Dfs(net.graph, net.interfaces[id]);
      for k := 0 to |order|
        invariant inbox.Keys == net.interfaces.Keys
        invariant forall x | x in inbox ::
                    inbox[x] == old(inbox)[x] + if net.interfaces[x] in order[..k] then [msg] else []
      {
        OnlyLiveReached(net, net.interfaces[id], order[k]);
        assert order[k] < |net.graph.nodes|;
        var x := net.graph.nodes[order[k]];
        assert x in inbox;
        assert order[..k + 1] == order[..k] + [order[k]];
        assert net.interfaces[x] == order[k] && order[k] !in order[..k];
        inbox := inbox[x := inbox[x] + [msg]];
      }
      assert order[..|order|] == order;
      return Ok;
    }
  }

  // ----- the registry stays consistent ---------------------------------------------------------------

  lemma CreateKeeps(n: Net, id: InterfaceId, s: Spawn)
    requires n.Inv()
    ensures Create(n, id, s).0.Inv()
  {
    var m := Create(n, id, s).0;
    forall u | n.Live(u)
      ensures m.Live(u)
    {
    }
  }

  lemma LinkKeeps(n: Net, a: InterfaceId, b: InterfaceId)
    requires n.Inv()
    ensures Link(n, a, b).0.Inv()
  {
    var m := Link(n, a, b).0;
    forall e | e in m.graph.edges
      ensures m.Live(e.0) && m.Live(e.1)
    {
      assert e in n.graph.edges || e == (n.interfaces[a], n.interfaces[b]);
      assert e in n.graph.edges ==> n.Live(e.0) && n.Live(e.1);
    }
  }

  lemma UnlinkKeeps(n: Net, a: InterfaceId, b: InterfaceId)
    requires n.Inv()
    ensures Unlink(n, a, b).0.Inv()
  {
    var m := Unlink(n, a, b).0;
    if (a, b) in n.index && n.index[(a, b)] < |n.graph.edges| {
      RemoveEdgeTakesOne(n.graph.edges, n.index[(a, b)]);
    }
    forall e | e in m.graph.edges
      ensures m.Live(e.0) && m.Live(e.1)
    {
      assert n.Live(e.0) && n.Live(e.1);
    }
  }

  /** No walk from a registered interface leads to a node left behind by a failed creation. */
  lemma OnlyLiveReached(n: Net, u: nat, v: nat)
    requires n.Inv() && n.Live(u) && Reachable(n.graph, u, v)
    ensures n.Live(v)
  {
    var live := set x | x in Indices(|n.graph.nodes|) && n.Live(x);
    var p :| WalkFrom(n.graph, p, u, v);
    forall x: nat, y: nat | x in live && Adjacent(n.graph, x, y)
      ensures y in live
    {
      assert (x, y) in n.graph.edges || (y, x) in n.graph.edges;
    }
    ClosedContains(n.graph, live, p);
  }

  // ----- every history --------------------------------------------------------------------------------

  datatype Request =
    | CreateReq(id: InterfaceId, s: Spawn)
    | LinkReq(a: InterfaceId, b: InterfaceId)
    | UnlinkReq(a: InterfaceId, b: InterfaceId)

  function Handle(n: Net, q: Request): Net {
    match q
    case CreateReq(id, s) => Create(n, id, s).0
    case LinkReq(a, b) => Link(n, a, b).0
    case UnlinkReq(a, b) => Unlink(n, a, b).0
  }

  function History(n: Net, qs: seq<Request>): Net
    decreases |qs|
  {
    if qs == [] then n else History(Handle(n, qs[0]), qs[1..])
  }

  /** After every history of requests the registry is consistent: interfaces own their nodes, and links
      only join registered interfaces. */
  lemma {:induction false} HistoryKeeps(n: Net, qs: seq<Request>)
    requires n.Inv()
    ensures History(n, qs).Inv()
    decreases |qs|
  {
    if qs != [] {
      match qs[0] {
        case CreateReq(id, s) => CreateKeeps(n, id, s);
        case LinkReq(a, b) => LinkKeeps(n, a, b);
        case UnlinkReq(a, b) => UnlinkKeeps(n, a, b);
      }
      HistoryKeeps(Handle(n, qs[0]), qs[1..]);
    }
  }

  lemma {:induction false} RegisteredFrom(n: Net, qs: seq<Request>, id: InterfaceId)
    ensures id in History(n, qs).interfaces <==> id in n.interfaces || CreateReq(id, Spawn(true, true)) in qs
    decreases |qs|
  {
    if qs != [] {
      RegisteredFrom(Handle(n, qs[0]), qs[1..], id);
      assert qs == [qs[0]] + qs[1..];
      assert id in Handle(n, qs[0]).interfaces <==> id in n.interfaces || qs[0] == CreateReq(id, Spawn(true, true));
    }
  }

  /** After every history, an interface is registered exactly if a creation of it succeeded in both its
      backend and its filter. */
  lemma RegisteredIff(qs: seq<Request>, id: InterfaceId)
    ensures id in History(EMPTY, qs).interfaces <==> CreateReq(id, Spawn(true, true)) in qs
  {
    RegisteredFrom(EMPTY, qs, id);
  }

  /** A request succeeds exactly if it does what it is for: registers a new interface, adds a link between two
      registered ones, or removes a link. */
  lemma SucceedsIff(n: Net, id: InterfaceId, s: Spawn, a: InterfaceId, b: InterfaceId)
    ensures Create(n, id, s).1 == Ok <==> id !in n.interfaces && id in Create(n, id, s).0.interfaces
    ensures Link(n, a, b).1 == Ok <==> |Link(n, a, b).0.graph.edges| == |n.graph.edges| + 1
    ensures Link(n, a, b).1 == Ok <==> a in n.interfaces && b in n.interfaces
    ensures Unlink(n, a, b).1 == Ok <==> |Unlink(n, a, b).0.graph.edges| == |n.graph.edges| - 1
  {
  }

  lemma LinkedIsEquivalence(n: Net, a: InterfaceId, b: InterfaceId, c: InterfaceId)
    requires a in n.interfaces && b in n.interfaces && c in n.interfaces
    ensures n.Linked(a, a)
    ensures n.Linked(a, b) ==> n.Linked(b, a)
    ensures n.Linked(a, b) && n.Linked(b, c) ==> n.Linked(a, c)
  {
    ReachSelf(n.graph, n.interfaces[a]);
    if n.Linked(a, b) {
      ReachSymmetric(n.graph, n.interfaces[a], n.interfaces[b]);
      if n.Linked(b, c) {
        ReachTransitive(n.graph, n.interfaces[a], n.interfaces[b], n.interfaces[c]);
      }
    }
  }

  /** Linking merges exactly the components of the two interfaces. */
  lemma LinkMergesComponents(n: Net, a: InterfaceId, b: InterfaceId, x: InterfaceId, y: InterfaceId)
    requires a in n.interfaces && b in n.interfaces && x in n.interfaces && y in n.interfaces
    ensures Link(n, a, b).0.Linked(x, y) <==>
            n.Linked(x, y) || (n.Linked(x, a) && n.Linked(b, y)) || (n.Linked(x, b) && n.Linked(a, y))
  {
    LinkMerges(n.graph, n.interfaces[a], n.interfaces[b], n.interfaces[x], n.interfaces[y]);
  }

  /** Unlinking, right or wrong, links nothing that was not linked before. */
  lemma UnlinkNeverEnlarges(n: Net, a: InterfaceId, b: InterfaceId, x: InterfaceId, y: InterfaceId)
    requires x in n.interfaces && y in n.interfaces && Unlink(n, a, b).0.Linked(x, y)
    ensures n.Linked(x, y)
  {
    if (a, b) in n.index && n.index[(a, b)] < |n.graph.edges| {
      RemoveEdgeTakesOne(n.graph.edges, n.index[(a, b)]);
    }
    FewerEdgesReachLess(n.graph, Unlink(n, a, b).0.graph, n.interfaces[x], n.interfaces[y]);
  }

  // ----- stale edge numbers ----------------------------------------------------------------------------

  /** `e` joins the nodes `u` and `v`: links have no direction. */
  predicate Joins(e: (nat, nat), u: nat, v: nat) {
    e == (u, v) || e == (v, u)
  }

  /** The edge number stored for (`a`, `b`) names an edge between the two. */
  predicate Current(n: Net, a: InterfaceId, b: InterfaceId) {
    && (a, b) in n.index && a in n.interfaces && b in n.interfaces
    && n.index[(a, b)] < |n.graph.edges| && Joins(n.graph.edges[n.index[(a, b)]], n.interfaces[a], n.interfaces[b])
  }

  /** `after` lacks exactly one link between `u` and `v` that `before` has. */
  ghost predicate OneLinkLess(before: seq<(nat, nat)>, after: seq<(nat, nat)>, u: nat, v: nat) {
    exists e :: e in before && Joins(e, u, v) && multiset(after) == multiset(before) - multiset{e}
  }

  /** For registered interfaces, unlinking takes away exactly one link between them if and only if
      their stored edge number is current. */
  lemma UnlinkRightIff(n: Net, a: InterfaceId, b: InterfaceId)
    requires a in n.interfaces && b in n.interfaces
    ensures var (m, r) := Unlink(n, a, b);
            r == Ok && OneLinkLess(n.graph.edges, m.graph.edges, n.interfaces[a], n.interfaces[b]) <==> Current(n, a, b)
  {
    var m := Unlink(n, a, b).0;
    var u, v, all := n.interfaces[a], n.interfaces[b], multiset(n.graph.edges);
    if (a, b) in n.index && n.index[(a, b)] < |n.graph.edges| {
      var f := n.graph.edges[n.index[(a, b)]];
      RemoveEdgeTakesOne(n.graph.edges, n.index[(a, b)]);
      assert f in n.graph.edges && f in all;
      if OneLinkLess(n.graph.edges, m.graph.edges, u, v) {
        var e :| e in n.graph.edges && Joins(e, u, v) && multiset(m.graph.edges) == all - multiset{e};
        assert e != f ==> (all - multiset{f})[e] == all[e] > (all - multiset{e})[e];
      }
    }
  }

  /** All stored edge numbers are current. */
  predicate AllCurrent(n: Net) {
    forall p | p in n.index :: Current(n, p.0, p.1)
  }

  /** The number of pair `p` survives the removal of the edge of (`a`, `b`): it is not the last one, and if
      it is the same one, the edge that takes its place joins the same nodes. */
  predicate Spared(n: Net, a: InterfaceId, b: InterfaceId, p: (InterfaceId, InterfaceId))
    requires (a, b) in n.index && p in n.index && n.index[(a, b)] < |n.graph.edges|
  {
    var edges := n.graph.edges;
    var k, last := n.index[(a, b)], |edges| - 1;
    n.index[p] != last && (n.index[p] == k ==> Joins(edges[last], edges[k].0, edges[k].1))
  }

  /** Creating and linking keep all edge numbers current. Unlinking does so if and only if it spares the
      numbers of all other pairs. */
  lemma EdgeNumbersStayCurrent(n: Net, id: InterfaceId, s: Spawn, a: InterfaceId, b: InterfaceId)
    requires n.Inv() && AllCurrent(n)
    ensures AllCurrent(Create(n, id, s).0)
    ensures AllCurrent(Link(n, a, b).0)
    ensures (a, b) in n.index ==>
              n.index[(a, b)] < |n.graph.edges| &&
              (AllCurrent(Unlink(n, a, b).0) <==> forall p | p in n.index && p != (a, b) :: Spared(n, a, b, p))
  {
    var m := Create(n, id, s).0;
    forall p | p in m.index
      ensures Current(m, p.0, p.1)
    {
      assert Current(n, p.0, p.1);
    }
    m := Link(n, a, b).0;
    forall p | p in m.index
      ensures Current(m, p.0, p.1)
    {
      assert p != (a, b) || m == n ==> Current(n, p.0, p.1);
    }
    if (a, b) in n.index {
      assert Current(n, a, b);
      UnlinkCurrentIff(n, a, b);
    }
  }

  lemma UnlinkCurrentIff(n: Net, a: InterfaceId, b: InterfaceId)
    requires n.Inv() && AllCurrent(n) && (a, b) in n.index && n.index[(a, b)] < |n.graph.edges|
    ensures AllCurrent(Unlink(n, a, b).0) <==> forall p | p in n.index && p != (a, b) :: Spared(n, a, b, p)
  {
    var m := Unlink(n, a, b).0;
    forall p | p in n.index && p != (a, b)
      ensures Current(m, p.0, p.1) <==> Spared(n, a, b, p)
    {
      StillCurrent(n, a, b, p);
    }
    CurrentOthers(n, m, a, b);
  }

  lemma CurrentOthers(n: Net, m: Net, a: InterfaceId, b: InterfaceId)
    requires (a, b) in n.index && n.index[(a, b)] < |n.graph.edges| && m.index == n.index - {(a, b)}
    requires forall p | p in n.index && p != (a, b) :: Current(m, p.0, p.1) <==> Spared(n, a, b, p)
    ensures AllCurrent(m) <==> forall p | p in n.index && p != (a, b) :: Spared(n, a, b, p)
  {
    assert forall p :: p in m.index <==> p in n.index && p != (a, b);
  }

  lemma StillCurrent(n: Net, a: InterfaceId, b: InterfaceId, p: (InterfaceId, InterfaceId))
    requires AllCurrent(n) && (a, b) in n.index && n.index[(a, b)] < |n.graph.edges| && p in n.index && p != (a, b)
    ensures Current(Unlink(n, a, b).0, p.0, p.1) <==> Spared(n, a, b, p)
  {
    assert Current(n, p.0, p.1);
    assert p == (p.0, p.1);
  }

  /** Two links made one after the other: removing the first renumbers the second, so removing the
      second fails and leaves its interfaces linked. */
  lemma UnlinkCanMiss(n: Net, a: InterfaceId, b: InterfaceId, c: InterfaceId, d: InterfaceId)
    requires n.Inv() && n.graph.edges == [] && {a, b, c, d} <= n.interfaces.Keys && (a, b) != (c, d)
    ensures var m := Unlink(Link(Link(n, a, b).0, c, d).0, a, b).0;
            && Unlink(m, c, d).1 == Err(LinkDoesntExist)
            && c in m.interfaces && d in m.interfaces && Unlink(m, c, d).0.Linked(c, d)
  {
    var l := Link(Link(n, a, b).0, c, d).0;
    var e := (n.interfaces[c], n.interfaces[d]);
    assert l.graph.edges == [(n.interfaces[a], n.interfaces[b]), e];
    var m := Unlink(l, a, b).0;
    assert m.graph.edges == [e] && m.index[(c, d)] == 1;
    var f := Unlink(m, c, d).0;
    assert f.graph.edges == [e] && e in f.graph.edges;
    ReachStep(f.graph, e.0, e.1);
  }
}
