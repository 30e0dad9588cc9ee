/** `PeersState` as the mutable table it is, operation by operation. */
module PeersStorage {
  import opened PeersState

  class Storage {
    var nodes: map<PeerId, Node>
    var sets: seq<SetInfo>

    function View(): Peers
      reads this
    {
      Peers(nodes, sets)
    }

    ghost predicate Valid()
      reads this
    {
      View().Inv()
    }

    constructor (limits: seq<(nat, nat)>)
      ensures Valid() && nodes == map[] && |sets| == |limits|
      ensures forall i | 0 <= i < |sets| :: sets[i] == SetInfo(0, 0, limits[i].0, limits[i].1, {})
    {
      nodes := map[];
      sets := seq(|limits|, i requires 0 <= i < |limits| => SetInfo(0, 0, limits[i].0, limits[i].1, {}));
    }

    method AddNoSlotNode(i: nat, p: PeerId)
      requires Valid() && i < |sets|
      modifies this
      ensures View() == old(View()).SetNoSlot(p, i, true)
      ensures Valid()
    {
      SetNoSlotInv(View(), p, i, true);
      var info := sets[i];
      if p in info.noSlot {
        assert info.noSlot + {p} == info.noSlot;
        return;
      }
      OccupantCounted(View(), p, i);
      sets := sets[i := info.(noSlot := info.noSlot + {p})];
      if p in nodes {
        match nodes[p].sets[i]
        case In =>
          assert sets[i].numIn > 0;
          sets := sets[i := sets[i].(numIn := sets[i].numIn - 1)];
        case Out =>
          assert sets[i].numOut > 0;
          sets := sets[i := sets[i].(numOut := sets[i].numOut - 1)];
        case _ =>
      }
    }

    method RemoveNoSlotNode(i: nat, p: PeerId)
      requires Valid() && i < |sets|
      modifies this
      ensures View() == old(View()).SetNoSlot(p, i, false)
      ensures Valid()
    {
      SetNoSlotInv(View(), p, i, false);
      var info := sets[i];
      if p !in info.noSlot {
        assert info.noSlot - {p} == info.noSlot;
        return;
      }
      sets := sets[i := info.(noSlot := info.noSlot - {p})];
      if p in nodes {
        match nodes[p].sets[i]
        case In => sets := sets[i := sets[i].(numIn := sets[i].numIn + 1)];
        case Out => sets := sets[i := sets[i].(numOut := sets[i].numOut + 1)];
        case _ =>
      }
    }

    method PutMembership(i: nat, p: PeerId, m: Membership)
      requires p in nodes && i < |nodes[p].sets|
      modifies this`nodes
      ensures nodes == old(nodes)[p := old(nodes)[p].(sets := old(nodes)[p].sets[i := m])]
    {
      nodes := nodes[p := nodes[p].(sets := nodes[p].sets[i := m])];
    }

    /** The node is connected, so its slot, if it takes one, is counted. */
    method Disconnect(i: nat, p: PeerId, now: Instant)
      requires Valid() && i < |sets| && View().Connected(p, i)
      modifies this
      ensures View() == old(View()).Move(p, i, NotConnected(now))
      ensures Valid()
    {
      MoveInv(View(), p, i, NotConnected(now));
      if p !in sets[i].noSlot {
        OccupantCounted(View(), p, i);
        match nodes[p].sets[i]
        case In =>
          assert sets[i].numIn > 0;
          sets := sets[i := sets[i].(numIn := sets[i].numIn - 1)];
        case Out =>
          assert sets[i].numOut > 0;
          sets := sets[i := sets[i].(numOut := sets[i].numOut - 1)];
        case _ =>
          assert false;
      }
      PutMembership(i, p, NotConnected(now));
    }

    method TryOutgoing(i: nat, p: PeerId) returns (ok: bool)
      requires Valid() && i < |sets| && View().Status(p, i).NotConnected?
      modifies this
      ensures ok <==> old(View()).HasFreeOutgoingSlot(i) || p in old(sets)[i].noSlot
      ensures View() == if ok then old(View()).Move(p, i, Out) else old(View())
      ensures Valid()
    {
      MoveInv(View(), p, i, Out);
      var noSlot := p in sets[i].noSlot;
      if !(sets[i].numOut < sets[i].maxOut) && !noSlot {
        return false;
      }
      PutMembership(i, p, Out);
      if !noSlot {
        sets := sets[i := sets[i].(numOut := sets[i].numOut + 1)];
      }
      return true;
    }

    method TryAcceptIncoming(i: nat, p: PeerId) returns (ok: bool)
      requires Valid() && i < |sets| && View().Status(p, i).NotConnected?
      modifies this
      ensures ok <==> old(View()).CanAccept(p, i)
      ensures View() == if ok then old(View()).Move(p, i, In) else old(View())
      ensures Valid()
    {
      MoveInv(View(), p, i, In);
      var noSlot := p in sets[i].noSlot;
      if sets[i].numIn >= sets[i].maxIn && !noSlot {
        return false;
      }
      PutMembership(i, p, In);
      if !noSlot {
        sets := sets[i := sets[i].(numIn := sets[i].numIn + 1)];
      }
      return true;
    }

    /** Stamps a node known to be disconnected. */
    method BumpLastConnected(i: nat, p: PeerId, now: Instant)
      requires Valid() && i < |sets| && View().Status(p, i).NotConnected?
      modifies this
      ensures View() == old(View()).Discover(p, i, now)
      ensures Valid()
    {
      DiscoverInv(View(), p, i, now);
      PutMembership(i, p, NotConnected(now));
    }

    method Discover(i: nat, p: PeerId, now: Instant)
      requires Valid() && i < |sets| && View().Status(p, i) == NotMember
      modifies this
      ensures View() == old(View()).Discover(p, i, now)
      ensures Valid()
    {
      DiscoverInv(View(), p, i, now);
      if p !in nodes {
        nodes := nodes[p := NewNode(|sets|)];
      }
      PutMembership(i, p, NotConnected(now));
    }

    method RemoveIfBlank(p: PeerId)
      modifies this`nodes
      ensures View() == old(View()).Purge(p)
    {
      if p in nodes && nodes[p].reputation == 0 && forall m | m in nodes[p].sets :: m == NotMember {
        nodes := nodes - {p};
      }
    }

    method ForgetPeer(i: nat, p: PeerId)
      requires Valid() && i < |sets| && View().Status(p, i).NotConnected?
      modifies this
      ensures View() == old(View()).Forget(p, i)
      ensures Valid()
    {
      ForgetInv(View(), p, i);
      PutMembership(i, p, NotMember);
      RemoveIfBlank(p);
    }

    /** Obtains the reputation handle of `p`, writes `r` through it and drops the handle. */
    method SetReputation(p: PeerId, r: int)
      requires Valid()
      modifies this
      ensures View() == old(View()).SetScore(p, r)
      ensures Valid()
    {
      SetScoreInv(View(), p, r);
      if p !in nodes {
        nodes := nodes[p := NewNode(|sets|)];
      }
      nodes := nodes[p := nodes[p].(reputation := r)];
      RemoveIfBlank(p);
    }
  }
}
