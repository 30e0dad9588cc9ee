/** The peer set manager as the mutable object it is. Each method is proved to compute the
    corresponding operation of the model, so everything proved about runs of the model holds of
    every sequence of calls. */
module PeersetManager {
  import opened Reputation
  import opened PeersState
  import opened PeersStorage
  import opened PeersetModel
  import opened PeersetAging
  import opened PeersetRuns
  import opened PeersetTheorems

  datatype SetConfig = SetConfig(inPeers: nat, outPeers: nat, bootnodes: seq<PeerId>,
                                 reservedNodes: set<PeerId>, reservedOnly: bool)

  class Peerset {
    const data: Storage
    var reserved: seq<Reserved>
    var queue: seq<Message>
    var created: Instant
    var latest: Instant

    function View(): Manager
      reads this, data
    {
      Manager(data.View(), reserved, created, latest)
    }

    ghost predicate Valid()
      reads this, data
    {
      data.Valid() && Sound(View())
    }

    /** What `op` promises of the call that performs it. */
    twostate predicate Performs(op: Op)
      requires old(Valid()) && Legal(old(View()), op)
      reads this, data
    {
      && Valid()
      && View() == Step(old(View()), op).next
      && queue == old(queue) + Step(old(View()), op).out
    }

    /** Starts with the reserved nodes slot-free, the bootnodes known, and nobody connected. */
    constructor (config: seq<SetConfig>, now: Instant, stamp: Instant)
      ensures Valid() && fresh(data)
      ensures queue == [] && created == latest == now && |data.sets| == |config|
      ensures forall i | 0 <= i < |config| ::
                && reserved[i] == Reserved(config[i].reservedNodes, config[i].reservedOnly)
                && data.sets[i] == SetInfo(0, 0, config[i].inPeers, config[i].outPeers, config[i].reservedNodes)
      ensures forall p, i | 0 <= i < |config| ::
                data.View().Status(p, i) == if p in config[i].bootnodes then NotConnected(stamp) else NotMember
      ensures forall p :: data.View().Score(p) == 0
    {
      var n := |config|;
      data := new Storage(seq(n, i requires 0 <= i < n => (config[i].inPeers, config[i].outPeers)));
      reserved := seq(n, i requires 0 <= i < n => Reserved(config[i].reservedNodes, config[i].reservedOnly));
      queue := [];
      created := now;
      latest := now;
      new;
      for i := 0 to n
        modifies data
        invariant Booted(config, i, 0, stamp) && data.Valid()
        invariant forall k | 0 <= k < n ::
                    data.sets[k] == SetInfo(0, 0, config[k].inPeers, config[k].outPeers,
                                            if k < i then config[k].reservedNodes else {})
      {
        ghost var d := data.View();
        Reserve(config, i);
        SameNodes(d, data.View());
        Boot(config, i, stamp);
      }
    }

    /** After the first `i` sets and `j` bootnodes of the next one: those nodes are known. */
    ghost predicate Booted(config: seq<SetConfig>, i: nat, j: nat, stamp: Instant)
      reads this, data
    {
      && |data.sets| == |config| && i <= |config| && (i < |config| ==> j <= |config[i].bootnodes|)
      && Tidy(data.View())
      && (forall p :: data.View().Score(p) == 0)
      && forall p, k | 0 <= k < |config| ::
        data.View().Status(p, k) ==
        if (k < i && p in config[k].bootnodes) || (k == i && p in config[i].bootnodes[..j])
        then NotConnected(stamp) else NotMember
    }

    /** Makes the bootnodes of set `i` known. */
    method Boot(config: seq<SetConfig>, i: nat, stamp: Instant)
      requires i < |config| && Booted(config, i, 0, stamp) && data.Valid()
      modifies data
      ensures data.Valid() && data.sets == old(data.sets) && Booted(config, i + 1, 0, stamp)
    {
      for j := 0 to |config[i].bootnodes|
        invariant Booted(config, i, j, stamp) && data.Valid() && data.sets == old(data.sets)
      {
        var p := config[i].bootnodes[j];
        assert config[i].bootnodes[..j + 1] == config[i].bootnodes[..j] + [p];
        if data.View().Status(p, i) == NotMember {
          DiscoverEffect(data.View(), p, i, stamp);
          data.Discover(i, p, stamp);
        }
      }
      assert config[i].bootnodes[..|config[i].bootnodes|] == config[i].bootnodes;
    }

    method Reserve(config: seq<SetConfig>, i: nat)
      requires data.Valid() && i < |config| == |data.sets|
      requires data.sets[i] == SetInfo(0, 0, config[i].inPeers, config[i].outPeers, {})
      requires forall p :: data.View().Status(p, i) == NotMember
      modifies data
      ensures data.Valid() && data.nodes == old(data.nodes)
      ensures data.sets == old(data.sets)[i := old(data.sets)[i].(noSlot := config[i].reservedNodes)]
    {
      ghost var sets := data.sets;
      ghost var nodes := data.nodes;
      ghost var view := data.View();
      var todo := config[i].reservedNodes;
      ghost var done := {};
      while todo != {}
        invariant data.Valid() && data.nodes == nodes && done + todo == config[i].reservedNodes
        invariant data.sets == sets[i := sets[i].(noSlot := done)]
      {
        var p :| p in todo;
        SameNodes(view, data.View());
        data.AddNoSlotNode(i, p);
        todo, done := todo - {p}, done + {p};
      }
    }

    // ----- passage of time -------------------------------------------------------------------

    /** One second of decay for one node. */
    method Fleet(p: PeerId, now: Instant)
      requires data.Valid() && p in data.nodes
      modifies data
      ensures data.sets == old(data.sets)
      ensures var n := TickNode(old(data.nodes)[p], now);
              data.nodes == if n.Blank() then old(data.nodes) - {p} else old(data.nodes)[p := n]
      ensures data.Valid()
    {
      ghost var before := data.nodes;
      ghost var sets := data.sets;
      ghost var ms := before[p].sets;
      var after := Tick(data.nodes[p].reputation);
      data.SetReputation(p, after);
      if after != 0 {
        return;
      }
      assert ExpireFirst(ms, now, 0) == ms;
      assert data.nodes == StaleRemoved(before, p, ms, now, 0);
      for i := 0 to |data.sets|
        invariant data.Valid() && data.sets == sets && |ms| == |sets|
        invariant data.nodes == StaleRemoved(before, p, ms, now, i)
      {
        ForgetOneMore(data.View(), before, p, ms, now, i);
        var m := data.View().Status(p, i);
        if m.NotConnected? && m.lastConnected + FORGET_AFTER < now {
          data.ForgetPeer(i, p);
        }
      }
      assert ExpireFirst(ms, now, |ms|) == ExpireAll(ms, now);
    }

    /** One second of decay for every node, in whatever order the table yields them. */
    method FleetAll(now: Instant)
      requires data.Valid()
      modifies data
      ensures data.sets == old(data.sets) && data.nodes == TickAll(old(data.nodes), now)
      ensures data.Valid()
    {
      ghost var before := data.nodes;
      var todo := data.nodes.Keys;
      while todo != {}
        invariant data.Valid() && data.sets == old(data.sets) && todo <= before.Keys
        invariant forall p | p in todo :: p in data.nodes && data.nodes[p] == before[p]
        invariant forall p | p in before && p !in todo ::
                    && (p in data.nodes <==> !TickNode(before[p], now).Blank())
                    && (p in data.nodes ==> data.nodes[p] == TickNode(before[p], now))
        invariant forall p | p in data.nodes :: p in before
      {
        var p :| p in todo;
        Fleet(p, now);
        todo := todo - {p};
      }
    }

    method UpdateTime(now: Instant)
      requires Valid() && latest <= now
      modifies this`latest, data
      ensures View() == Age(old(View()), now)
      ensures Valid()
    {
      AgeFacts(View(), now);
      AgeInv(View(), now);
      SecondsMonotone(View(), latest, now);
      ghost var before := data.nodes;
      var secs := View().Seconds(now) - View().Seconds(latest);
      latest := now;
      for k := 0 to secs
        modifies data
        invariant data.Valid() && data.sets == old(data.sets)
        invariant data.nodes == TickAllTimes(before, now, k)
      {
        TickOnceMore(before, now, k);
        FleetAll(now);
      }
    }

    // ----- operations ------------------------------------------------------------------------

    method OnAddReservedPeer(i: nat, p: PeerId)
      requires Valid() && i < |data.sets|
      modifies this, data
      ensures Performs(AddReservedOp(i, p))
    {
      StepGood(View(), AddReservedOp(i, p));
      if p in reserved[i].nodes {
        return;
      }
      reserved := reserved[i := reserved[i].(nodes := reserved[i].nodes + {p})];
      data.AddNoSlotNode(i, p);
    }

    method OnRemoveReservedPeer(i: nat, p: PeerId, stamp: Instant)
      requires Valid() && i < |data.sets|
      modifies this, data
      ensures Performs(RemoveReservedOp(i, p, stamp))
    {
      StepGood(View(), RemoveReservedOp(i, p, stamp));
      if p !in reserved[i].nodes {
        return;
      }
      reserved := reserved[i := reserved[i].(nodes := reserved[i].nodes - {p})];
      data.RemoveNoSlotNode(i, p);
      if !reserved[i].only {
        return;
      }
      if data.View().Connected(p, i) {
        data.Disconnect(i, p, stamp);
        queue := queue + [Drop(i, p)];
      }
    }

    method AddToPeersSet(i: nat, p: PeerId, stamp: Instant)
      requires Valid() && i < |data.sets|
      modifies this, data
      ensures Performs(AddToSetOp(i, p, stamp))
    {
      StepGood(View(), AddToSetOp(i, p, stamp));
      if data.View().Status(p, i) == NotMember {
        data.Discover(i, p, stamp);
      }
    }

    /** Messages come before the disconnection here, as in the code; the node is then forgotten. */
    method OnRemoveFromPeersSet(i: nat, p: PeerId, stamp: Instant)
      requires Valid() && i < |data.sets|
      modifies this, data
      ensures Performs(RemoveFromSetOp(i, p))
    {
      StepGood(View(), RemoveFromSetOp(i, p));
      if p in reserved[i].nodes {
        return;
      }
      match data.View().Status(p, i)
      case NotMember =>
      case NotConnected(_) => data.ForgetPeer(i, p);
      case _ =>
        ForgetAfterCut(data.View(), p, i, stamp);
        queue := queue + [Drop(i, p)];
        data.Disconnect(i, p, stamp);
        data.ForgetPeer(i, p);
    }

    method OnPeerReputation(p: PeerId) returns (r: int)
      requires Valid()
      modifies this, data
      ensures View() == old(View()) && queue == old(queue) && r == old(data.View()).Score(p)
      ensures Valid()
    {
      QueryGood(View(), QueryOp(p));
      r := data.View().Score(p);
      data.SetReputation(p, r);
    }

    method ConnectToPeer(p: PeerId)
      requires Valid()
      modifies this`queue
      ensures Performs(ConnectOp(p))
    {
      queue := queue + [Connect(0, p)];
    }

    method OnReportPeer(p: PeerId, change: int, now: Instant, stamp: Instant)
      requires Valid() && latest <= now && IsI32(change)
      modifies this, data
      ensures Performs(ReportOp(p, change, now, stamp))
    {
      StepGood(View(), ReportOp(p, change, now, stamp));
      UpdateTime(now);
      var r := SaturatingAdd(data.View().Score(p), change);
      data.SetReputation(p, r);
      if r >= BANNED_THRESHOLD {
        return;
      }
      CutEverywhere(p, stamp);
    }

    method CutEverywhere(p: PeerId, stamp: Instant)
      requires data.Valid()
      modifies this`queue, data
      ensures data.View() == CutBelow(old(data.View()), p, |old(data.sets)|, stamp)
      ensures queue == old(queue) + DropsBelow(old(data.View()), p, |old(data.sets)|)
      ensures data.Valid()
    {
      ghost var d := data.View();
      for i := 0 to |data.sets|
        invariant data.Valid() && |data.sets| == |d.sets|
        invariant data.View() == CutBelow(d, p, i, stamp)
        invariant queue == old(queue) + DropsBelow(d, p, i)
        invariant forall j: nat | i <= j :: data.View().Status(p, j) == d.Status(p, j)
      {
        if data.View().Connected(p, i) {
          data.Disconnect(i, p, stamp);
          queue := queue + [Drop(i, p)];
        }
      }
    }

    method Incoming(i: nat, p: PeerId, index: nat, now: Instant, stamp: Instant)
      requires Valid() && i < |data.sets| && latest <= now
      modifies this, data
      ensures Performs(IncomingOp(i, p, index, now, stamp))
    {
      StepGood(View(), IncomingOp(i, p, index, now, stamp));
      UpdateTime(now);
      if reserved[i].only && p !in reserved[i].nodes {
        queue := queue + [Reject(index)];
        return;
      }
      match data.View().Status(p, i) {
        case In => return;
        case Out => return;
        case NotConnected(_) => data.BumpLastConnected(i, p, stamp);
        case NotMember => data.Discover(i, p, stamp);
      }
      if data.View().Score(p) < BANNED_THRESHOLD {
        queue := queue + [Reject(index)];
        return;
      }
      var ok := data.TryAcceptIncoming(i, p);
      queue := queue + [if ok then Accept(index) else Reject(index)];
    }

    method LoseConnection(i: nat, p: PeerId, stamp: Instant)
      requires Valid() && i < |data.sets|
      modifies data
      ensures View() == Lose(old(View()), i, p, false, stamp).next
      ensures Valid()
    {
      LoseSound(View(), i, p, stamp);
      if data.View().Connected(p, i) {
        var r := SaturatingAdd(data.View().Score(p), DISCONNECT_REPUTATION_CHANGE);
        SetScoreFacts(data.View(), p, r);
        data.SetReputation(p, r);
        data.Disconnect(i, p, stamp);
      }
    }

    method Dropped(i: nat, p: PeerId, refused: bool, now: Instant, stamp: Instant)
      requires Valid() && i < |data.sets| && latest <= now
      modifies this, data
      ensures Performs(DroppedOp(i, p, refused, now, stamp))
    {
      StepGood(View(), DroppedOp(i, p, refused, now, stamp));
      UpdateTime(now);
      LoseConnection(i, p, stamp);
      if refused {
        OnRemoveFromPeersSet(i, p, stamp);
      }
    }

    /** Disconnects the connected nodes of set `i` that are not reserved, in the order in which
        the table yields them. */
    method DropIntruders(i: nat, stamp: Instant) returns (ghost order: seq<PeerId>)
      requires data.Valid() && i < |data.sets| == |reserved|
      modifies this`queue, data
      ensures data.View() == CutAll(old(data.View()), i, order, stamp)
      ensures queue == old(queue) + DropAll(i, order) && data.Valid()
      ensures forall a, b | 0 <= a < b < |order| :: order[a] != order[b]
      ensures forall p :: p in order <==> old(data.View()).Connected(p, i) && p !in reserved[i].nodes
    {
      ghost var d := data.View();
      order := [];
      var todo := set p | p in data.nodes && data.View().Connected(p, i);
      while todo != {}
        invariant data.Valid() && |data.sets| == |d.sets|
        invariant data.View() == CutAll(d, i, order, stamp) && queue == old(queue) + DropAll(i, order)
        invariant forall p | p in todo :: d.Connected(p, i) && p !in order && data.View().Connected(p, i)
        invariant forall p | d.Connected(p, i) && p !in todo :: p in order || p in reserved[i].nodes
        invariant forall p | p in order :: d.Connected(p, i) && p !in reserved[i].nodes
        invariant forall a, b | 0 <= a < b < |order| :: order[a] != order[b]
      {
        var p :| p in todo;
        todo := todo - {p};
        if p !in reserved[i].nodes {
          CutAllSnoc(d, i, order, p, stamp);
          assert DropAll(i, order + [p]) == DropAll(i, order) + [Drop(i, p)];
          data.Disconnect(i, p, stamp);
          queue := queue + [Drop(i, p)];
          order := order + [p];
        }
      }
    }

    method OnSetReservedOnly(i: nat, only: bool, stamp: Instant) returns (ghost order: seq<PeerId>)
      requires Valid() && i < |data.sets|
      modifies this, data
      ensures Legal(old(View()), SetReservedOnlyOp(i, only, order, stamp))
      ensures Performs(SetReservedOnlyOp(i, only, order, stamp))
    {
      ghost var before := View();
      reserved := reserved[i := reserved[i].(only := only)];
      order := [];
      if only {
        order := DropIntruders(i, stamp);
        assert ListsIntruders(before, i, order);
      }
      StepGood(before, SetReservedOnlyOp(i, only, order, stamp));
    }

    /** The object got here from `m`, with `q` queued, by the run `ops`. */
    ghost predicate Reached(m: Manager, q: seq<Message>, ops: seq<Op>)
      reads this, data
    {
      && Sound(m) && LegalRun(m, ops)
      && View() == Exec(m, ops).next && queue == q + Exec(m, ops).out
    }

    /** Only the reserved nodes of set `i` may differ from `r`, and they are `ps`. */
    ghost predicate OnlyReserved(r: seq<Reserved>, i: nat, ps: set<PeerId>)
      requires i < |r|
      reads this
    {
      reserved == r[i := Reserved(ps, r[i].only)]
    }

    method ReserveNext(i: nat, p: PeerId, ghost m: Manager, ghost q: seq<Message>, ghost ops: seq<Op>)
      requires Valid() && i < |data.sets| == m.NumSets() == |m.reserved|
      requires p !in reserved[i].nodes && Reached(m, q, ops) && OnlyReserved(m.reserved, i, reserved[i].nodes)
      modifies this, data
      ensures Reached(m, q, ops + [AddReservedOp(i, p)])
      ensures Valid() && |data.sets| == m.NumSets()
      ensures OnlyReserved(m.reserved, i, old(reserved[i].nodes) + {p})
    {
      ExecSnoc(m, ops, AddReservedOp(i, p));
      OnAddReservedPeer(i, p);
    }

    method UnreserveNext(i: nat, p: PeerId, stamp: Instant, ghost m: Manager, ghost q: seq<Message>, ghost ops: seq<Op>)
      requires Valid() && i < |data.sets| == m.NumSets() == |m.reserved|
      requires p in reserved[i].nodes && Reached(m, q, ops) && OnlyReserved(m.reserved, i, reserved[i].nodes)
      modifies this, data
      ensures Reached(m, q, ops + [RemoveReservedOp(i, p, stamp)])
      ensures Valid() && |data.sets| == m.NumSets()
      ensures OnlyReserved(m.reserved, i, old(reserved[i].nodes) - {p})
    {
      ExecSnoc(m, ops, RemoveReservedOp(i, p, stamp));
      OnRemoveReservedPeer(i, p, stamp);
    }

    method ReserveAll(i: nat, added: set<PeerId>, ghost m: Manager, ghost q: seq<Message>) returns (ghost ops: seq<Op>)
      requires Valid() && i < |data.sets| == m.NumSets() == |m.reserved| && added !! reserved[i].nodes
      requires Reached(m, q, []) && OnlyReserved(m.reserved, i, reserved[i].nodes)
      modifies this, data
      ensures Reached(m, q, ops) && Valid() && |data.sets| == m.NumSets()
      ensures OnlyReserved(m.reserved, i, old(reserved[i].nodes) + added)
      ensures forall op | op in ops :: Changes(op, i, added, {})
    {
      ghost var had := reserved[i].nodes;
      var todo := added;
      ops := [];
      assert had + (added - todo) == had;
      while todo != {}
        invariant Valid() && |data.sets| == m.NumSets() && Reached(m, q, ops) && todo <= added
        invariant OnlyReserved(m.reserved, i, had + (added - todo))
        invariant forall op | op in ops :: Changes(op, i, added, {})
      {
        var p :| p in todo;
        ReserveNext(i, p, m, q, ops);
        assert had + (added - todo) + {p} == had + (added - (todo - {p}));
        ops := ops + [AddReservedOp(i, p)];
        todo := todo - {p};
      }
      assert had + (added - {}) == had + added;
    }

    method UnreserveAll(i: nat, removed: set<PeerId>, stamp: Instant, ghost m: Manager, ghost q: seq<Message>,
                        ghost before: seq<Op>)
      returns (ghost ops: seq<Op>)
      requires Valid() && i < |data.sets| == m.NumSets() == |m.reserved| && removed <= reserved[i].nodes
      requires Reached(m, q, before) && OnlyReserved(m.reserved, i, reserved[i].nodes)
      modifies this, data
      ensures Reached(m, q, before + ops) && Valid() && |data.sets| == m.NumSets()
      ensures OnlyReserved(m.reserved, i, old(reserved[i].nodes) - removed)
      ensures forall op | op in ops :: Changes(op, i, {}, removed)
    {
      ghost var had := reserved[i].nodes;
      var todo := removed;
      ops := [];
      assert before + [] == before && had - (removed - todo) == had;
      while todo != {}
        invariant Valid() && |data.sets| == m.NumSets() && Reached(m, q, before + ops) && todo <= removed
        invariant OnlyReserved(m.reserved, i, had - (removed - todo))
        invariant forall op | op in ops :: Changes(op, i, {}, removed)
      {
        var p :| p in todo;
        UnreserveNext(i, p, stamp, m, q, before + ops);
        assert had - (removed - todo) - {p} == had - (removed - (todo - {p}));
        assert before + ops + [RemoveReservedOp(i, p, stamp)] == before + (ops + [RemoveReservedOp(i, p, stamp)]);
        ops := ops + [RemoveReservedOp(i, p, stamp)];
        todo := todo - {p};
      }
      assert had - (removed - {}) == had - removed;
    }

    /** Ends with exactly the requested reserved nodes, through a run that reserves the missing
        nodes and then unreserves the surplus ones. */
    method OnSetReservedPeers(i: nat, target: set<PeerId>, stamp: Instant) returns (ghost ops: seq<Op>)
      requires Valid() && i < |data.sets|
      modifies this, data
      ensures Reached(old(View()), old(queue), ops)
      ensures Valid() && OnlyReserved(old(reserved), i, target)
      ensures forall op | op in ops :: Changes(op, i, target - old(reserved)[i].nodes, old(reserved)[i].nodes - target)
    {
      ghost var m, q := View(), queue;
      ghost var had := reserved[i].nodes;
      var toInsert := target - reserved[i].nodes;
      var toRemove := reserved[i].nodes - target;
      ghost var reserving := ReserveAll(i, toInsert, m, q);
      ghost var unreserving := UnreserveAll(i, toRemove, stamp, m, q, reserving);
      ops := reserving + unreserving;
      assert (had + toInsert) - toRemove == target;
    }
  }

  /** `op` reserves a node of `added` or unreserves a node of `removed` in set `i`. */
  ghost predicate Changes(op: Op, i: nat, added: set<PeerId>, removed: set<PeerId>) {
    || (op.AddReservedOp? && op.i == i && op.p in added)
    || (op.RemoveReservedOp? && op.i == i && op.p in removed)
  }

  /** `nodes` with the stale memberships of `p` ended in the first `k` sets. */
  function StaleRemoved(nodes: map<PeerId, Node>, p: PeerId, ms: seq<Membership>, now: Instant, k: nat): map<PeerId, Node> {
    var n := Node(ExpireFirst(ms, now, k), 0);
    if n.Blank() then nodes - {p} else nodes[p := n]
  }

  lemma ForgetOneMore(d: Peers, nodes: map<PeerId, Node>, p: PeerId, ms: seq<Membership>, now: Instant, k: nat)
    requires d.Shaped() && k < |ms| == |d.sets|
    requires d.nodes == StaleRemoved(nodes, p, ms, now, k)
    ensures var m := d.Status(p, k);
            StaleRemoved(nodes, p, ms, now, k + 1) ==
            if m.NotConnected? && m.lastConnected + FORGET_AFTER < now then d.Forget(p, k).nodes else d.nodes
    ensures d.Status(p, k).NotConnected? ==> d.Forget(p, k).sets == d.sets
  {
    ExpireOneMore(ms, now, k);
    var n := Node(ExpireFirst(ms, now, k), 0);
    if n.Blank() {
      assert p !in d.nodes;
    } else {
      assert d.nodes[p] == n && d.Status(p, k) == ms[k];
      if Expire(ms[k], now) == ms[k] {
        assert ExpireFirst(ms, now, k + 1) == ExpireFirst(ms, now, k);
      } else {
        var e := d.Move(p, k, NotMember);
        assert e.nodes == nodes[p := Node(ExpireFirst(ms, now, k + 1), 0)];
        assert e.nodes - {p} == nodes - {p};
      }
    }
  }

  lemma {:induction false} TickOnceMore(nodes: map<PeerId, Node>, now: Instant, k: nat)
    ensures TickAllTimes(nodes, now, k + 1) == TickAll(TickAllTimes(nodes, now, k), now)
    decreases k
  {
    if k > 0 {
      TickOnceMore(TickAll(nodes, now), now, k - 1);
    }
  }

  lemma ForgetAfterCut(d: Peers, p: PeerId, i: nat, stamp: Instant)
    requires d.Inv() && i < |d.sets| && d.Connected(p, i)
    ensures d.Move(p, i, NotConnected(stamp)).Shaped()
    ensures d.Move(p, i, NotConnected(stamp)).Forget(p, i) == d.Forget(p, i)
  {
    var e := d.Move(p, i, NotConnected(stamp));
    assert e.Move(p, i, NotMember).nodes[p].sets == d.Move(p, i, NotMember).nodes[p].sets;
    assert e.Move(p, i, NotMember).nodes == d.Move(p, i, NotMember).nodes;
    assert e.Move(p, i, NotMember).sets == d.Move(p, i, NotMember).sets;
  }

  lemma {:induction false} CutAllSnoc(d: Peers, i: nat, order: seq<PeerId>, p: PeerId, stamp: Instant)
    requires d.Shaped() && i < |d.sets|
    ensures CutAll(d, i, order + [p], stamp) == Cut(CutAll(d, i, order, stamp), p, i, stamp)
    decreases |order|
  {
    if order == [] {
      assert [p][1..] == [];
    } else {
      assert (order + [p])[1..] == order[1..] + [p];
      CutAllSnoc(Cut(d, order[0], i, stamp), i, order[1..], p, stamp);
    }
  }

  lemma LoseSound(m: Manager, i: nat, p: PeerId, stamp: Instant)
    requires Sound(m) && i < m.NumSets()
    ensures Sound(Lose(m, i, p, false, stamp).next)
  {
    DroppedGood(m, DroppedOp(i, p, false, m.latest, stamp));
  }

  lemma SameNodes(s: Peers, t: Peers)
    requires s.nodes == t.nodes
    ensures forall p, i :: s.Status(p, i) == t.Status(p, i)
    ensures forall p :: s.Score(p) == t.Score(p)
  {
  }

  function ExpireFirst(ms: seq<Membership>, now: Instant, k: nat): (r: seq<Membership>)
    ensures |r| == |ms|
  {
    seq(|ms|, i requires 0 <= i < |ms| => if i < k then Expire(ms[i], now) else ms[i])
  }

  lemma ExpireOneMore(ms: seq<Membership>, now: Instant, k: nat)
    requires k < |ms|
    ensures ExpireFirst(ms, now, k + 1) == ExpireFirst(ms, now, k)[k := Expire(ms[k], now)]
    ensures Node(ExpireFirst(ms, now, k), 0).Blank() ==> ExpireFirst(ms, now, k + 1) == ExpireFirst(ms, now, k)
  {
    var r := ExpireFirst(ms, now, k);
    assert r[k] == ms[k] && r[k] in r;
  }
}
