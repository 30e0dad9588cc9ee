/** Slot accounting behind the peer set manager: which nodes are known, how each of them
    relates to each set, and how many slots are taken. */
module PeersState {
  type PeerId = nat
  /** A reading of the monotonic clock, in nanoseconds. */
  type Instant = nat

  datatype Membership = NotMember | In | Out | NotConnected(lastConnected: Instant) {
    predicate IsConnected() {
      In? || Out?
    }
  }

  datatype Node = Node(sets: seq<Membership>, reputation: int) {
    /** Nothing worth remembering: no score and no set. */
    predicate Blank() {
      reputation == 0 && forall m | m in sets :: m == NotMember
    }
  }

  datatype SetInfo = SetInfo(numIn: int, numOut: int, maxIn: nat, maxOut: nat, noSlot: set<PeerId>)

  function NewNode(numSets: nat): Node {
    Node(seq(numSets, _ => NotMember), 0)
  }

  /** 1 if a node with membership `m` takes a slot of kind `kind`, else 0. */
  function Takes(m: Membership, kind: Membership, noSlot: bool): int {
    if m == kind && !noSlot then 1 else 0
  }

  /** The contents of `PeersState`. */
  datatype Peers = Peers(nodes: map<PeerId, Node>, sets: seq<SetInfo>) {

    /** Membership of `p` in set `i`; a node never heard of is in no set. */
    function Status(p: PeerId, i: nat): Membership {
      if p in nodes && i < |nodes[p].sets| then nodes[p].sets[i] else NotMember
    }

    function Score(p: PeerId): int {
      if p in nodes then nodes[p].reputation else 0
    }

    predicate Connected(p: PeerId, i: nat) {
      Status(p, i).IsConnected()
    }

    /** The nodes that take a slot of kind `kind` in set `i`. */
    ghost function Occupants(i: nat, kind: Membership): set<PeerId>
      requires i < |sets|
    {
      set p | p in nodes && Status(p, i) == kind && p !in sets[i].noSlot
    }

    predicate Shaped() {
      forall p | p in nodes :: |nodes[p].sets| == |sets|
    }

    /** One membership per set for every node, and counters that agree with the memberships. */
    ghost predicate Inv() {
      && Shaped()
      && forall i | 0 <= i < |sets| ::
        sets[i].numIn == |Occupants(i, In)| && sets[i].numOut == |Occupants(i, Out)|
    }

    /** Gives `p` membership `m` in set `i`; the counters follow the change of occupancy. */
    function Move(p: PeerId, i: nat, m: Membership): Peers
      requires p in nodes && i < |sets| && i < |nodes[p].sets|
    {
      var free := p in sets[i].noSlot;
      var was := nodes[p].sets[i];
      Peers(nodes[p := nodes[p].(sets := nodes[p].sets[i := m])],
            sets[i := sets[i].(numIn := sets[i].numIn - Takes(was, In, free) + Takes(m, In, free),
                               numOut := sets[i].numOut - Takes(was, Out, free) + Takes(m, Out, free))])
    }

    /** Puts `p` on or takes it off the list of nodes that take no slot in set `i`. */
    function SetNoSlot(p: PeerId, i: nat, free: bool): Peers
      requires i < |sets|
    {
      var was := p in sets[i].noSlot;
      var m := Status(p, i);
      this.(sets := sets[i := sets[i].(
                      noSlot := if free then sets[i].noSlot + {p} else sets[i].noSlot - {p},
                      numIn := sets[i].numIn - Takes(m, In, was) + Takes(m, In, free),
                      numOut := sets[i].numOut - Takes(m, Out, was) + Takes(m, Out, free))])
    }

    function Ensure(p: PeerId): Peers {
      if p in nodes then this else this.(nodes := nodes[p := NewNode(|sets|)])
    }

    /** Drops `p` entirely once there is nothing left to remember about it. */
    function Purge(p: PeerId): Peers {
      if p in nodes && nodes[p].Blank() then this.(nodes := nodes - {p}) else this
    }

    function SetScore(p: PeerId, r: int): Peers {
      var t := Ensure(p);
      t.(nodes := t.nodes[p := t.nodes[p].(reputation := r)]).Purge(p)
    }

    function Discover(p: PeerId, i: nat, now: Instant): Peers
      requires Shaped() && i < |sets|
    {
      Ensure(p).Move(p, i, NotConnected(now))
    }

    function Forget(p: PeerId, i: nat): Peers
      requires Shaped() && p in nodes && i < |sets|
    {
      Move(p, i, NotMember).Purge(p)
    }

    function HasFreeOutgoingSlot(i: nat): bool
      requires i < |sets|
    {
      sets[i].numOut < sets[i].maxOut
    }

    function CanAccept(p: PeerId, i: nat): bool
      requires i < |sets|
    {
      sets[i].numIn < sets[i].maxIn || p in sets[i].noSlot
    }
  }

  /** `s` and `t` hold the same nodes, `p` aside. */
  ghost predicate AgreeExcept(s: Peers, t: Peers, p: PeerId) {
    forall q | q != p :: (q in s.nodes <==> q in t.nodes) && (q in s.nodes ==> s.nodes[q] == t.nodes[q])
  }

  ghost predicate SameButFor(a: set<PeerId>, b: set<PeerId>, p: PeerId) {
    forall q | q != p :: q in a <==> q in b
  }

  lemma CardinalityShift(a: set<PeerId>, b: set<PeerId>, p: PeerId)
    requires SameButFor(a, b, p)
    ensures |b| == |a| - (if p in a then 1 else 0) + (if p in b then 1 else 0)
  {
    assert a - {p} == b - {p};
    assert p in a ==> |a - {p}| == |a| - 1;
    assert p in b ==> |b - {p}| == |b| - 1;
    assert p !in a ==> a - {p} == a;
    assert p !in b ==> b - {p} == b;
  }

  lemma OccupancyShift(s: Peers, t: Peers, p: PeerId, j: nat, kind: Membership)
    requires |t.sets| == |s.sets| && j < |s.sets| && kind.IsConnected()
    requires AgreeExcept(s, t, p) && SameButFor(s.sets[j].noSlot, t.sets[j].noSlot, p)
    ensures |t.Occupants(j, kind)| == |s.Occupants(j, kind)|
            - Takes(s.Status(p, j), kind, p in s.sets[j].noSlot)
            + Takes(t.Status(p, j), kind, p in t.sets[j].noSlot)
  {
    CardinalityShift(s.Occupants(j, kind), t.Occupants(j, kind), p);
  }

  /** A change confined to node `p` and set `i` keeps the invariant as soon as the counters
      of `i` move with the occupancy of `p`. */
  lemma LocalChange(s: Peers, t: Peers, p: PeerId, i: nat)
    requires s.Inv() && t.Shaped() && |t.sets| == |s.sets| && i < |s.sets|
    requires AgreeExcept(s, t, p) && SameButFor(s.sets[i].noSlot, t.sets[i].noSlot, p)
    requires forall j | 0 <= j < |s.sets| && j != i :: t.sets[j] == s.sets[j] && t.Status(p, j) == s.Status(p, j)
    requires var was := s.Status(p, i); var m := t.Status(p, i);
             var wasFree := p in s.sets[i].noSlot; var free := p in t.sets[i].noSlot;
             && t.sets[i].numIn == s.sets[i].numIn - Takes(was, In, wasFree) + Takes(m, In, free)
             && t.sets[i].numOut == s.sets[i].numOut - Takes(was, Out, wasFree) + Takes(m, Out, free)
    ensures t.Inv()
  {
    forall j | 0 <= j < |s.sets|
      ensures t.sets[j].numIn == |t.Occupants(j, In)| && t.sets[j].numOut == |t.Occupants(j, Out)|
    {
      OccupancyShift(s, t, p, j, In);
      OccupancyShift(s, t, p, j, Out);
    }
  }

  lemma MoveInv(s: Peers, p: PeerId, i: nat, m: Membership)
    requires s.Inv() && p in s.nodes && i < |s.sets|
    ensures s.Move(p, i, m).Inv()
  {
    LocalChange(s, s.Move(p, i, m), p, i);
  }

  lemma SetNoSlotInv(s: Peers, p: PeerId, i: nat, free: bool)
    requires s.Inv() && i < |s.sets|
    ensures s.SetNoSlot(p, i, free).Inv()
  {
    LocalChange(s, s.SetNoSlot(p, i, free), p, i);
  }

  /** Adding, dropping or rescoring a node that belongs to no set touches no counter. */
  lemma NodeChangeInv(s: Peers, t: Peers, p: PeerId)
    requires s.Inv() && t.Shaped() && t.sets == s.sets
    requires AgreeExcept(s, t, p)
    requires forall i | 0 <= i < |s.sets| :: s.Status(p, i) == t.Status(p, i)
    ensures t.Inv()
  {
    if |s.sets| > 0 {
      LocalChange(s, t, p, 0);
    }
  }

  lemma EnsureInv(s: Peers, p: PeerId)
    requires s.Inv()
    ensures s.Ensure(p).Inv()
  {
    NodeChangeInv(s, s.Ensure(p), p);
  }

  /** Dropping a blank node is invisible: it had no membership and no score. */
  lemma PurgeFacts(s: Peers, p: PeerId)
    ensures forall q, i :: s.Purge(p).Status(q, i) == s.Status(q, i)
    ensures forall q :: s.Purge(p).Score(q) == s.Score(q)
  {
    if p in s.nodes && s.nodes[p].Blank() {
      forall i: nat | i < |s.nodes[p].sets|
        ensures s.Status(p, i) == NotMember
      {
        assert s.nodes[p].sets[i] in s.nodes[p].sets;
      }
    }
  }

  lemma PurgeInv(s: Peers, p: PeerId)
    requires s.Inv()
    ensures s.Purge(p).Inv()
  {
    PurgeFacts(s, p);
    NodeChangeInv(s, s.Purge(p), p);
  }

  lemma SetScoreFacts(s: Peers, p: PeerId, r: int)
    ensures s.SetScore(p, r).sets == s.sets
    ensures s.Shaped() ==> s.SetScore(p, r).Shaped()
    ensures forall q, i :: s.SetScore(p, r).Status(q, i) == s.Status(q, i)
    ensures forall q :: s.SetScore(p, r).Score(q) == if q == p then r else s.Score(q)
  {
    var t := s.Ensure(p);
    PurgeFacts(t.(nodes := t.nodes[p := t.nodes[p].(reputation := r)]), p);
  }

  lemma SetScoreInv(s: Peers, p: PeerId, r: int)
    requires s.Inv()
    ensures s.SetScore(p, r).Inv()
  {
    EnsureInv(s, p);
    var t := s.Ensure(p);
    var u := t.(nodes := t.nodes[p := t.nodes[p].(reputation := r)]);
    NodeChangeInv(t, u, p);
    PurgeInv(u, p);
  }

  lemma DiscoverInv(s: Peers, p: PeerId, i: nat, now: Instant)
    requires s.Inv() && i < |s.sets|
    ensures s.Discover(p, i, now).Inv()
  {
    EnsureInv(s, p);
    MoveInv(s.Ensure(p), p, i, NotConnected(now));
  }

  lemma ForgetInv(s: Peers, p: PeerId, i: nat)
    requires s.Inv() && p in s.nodes && i < |s.sets|
    ensures s.Forget(p, i).Inv()
  {
    MoveInv(s, p, i, NotMember);
    PurgeInv(s.Move(p, i, NotMember), p);
  }

  /** A node that takes a slot is counted, so its counter can be decremented. */
  lemma OccupantCounted(s: Peers, p: PeerId, i: nat)
    requires s.Inv() && i < |s.sets| && p !in s.sets[i].noSlot
    ensures s.Status(p, i) == In ==> s.sets[i].numIn > 0
    ensures s.Status(p, i) == Out ==> s.sets[i].numOut > 0
  {
    if s.Status(p, i) == In {
      assert p in s.Occupants(i, In);
    }
    if s.Status(p, i) == Out {
      assert p in s.Occupants(i, Out);
    }
  }
}
