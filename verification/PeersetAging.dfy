/** What the passage of time does to the peer set manager. */
module PeersetAging {
  import opened Reputation
  import opened PeersState
  import opened PeersetModel

  /** The state invariant of the peer set manager. */
  ghost predicate Ok(m: Manager) {
    m.data.Inv() && Sound(m)
  }

  /** The invariant without the slot counters. */
  ghost predicate Sound(m: Manager) {
    && m.data.Shaped()
    && m.created <= m.latest
    && Mirrored(m)
    && ReservedOnlyHolds(m)
    && Tidy(m.data)
  }

  /** The reserved nodes of each set are exactly its slot-free nodes. */
  ghost predicate Mirrored(m: Manager) {
    && |m.reserved| == m.NumSets()
    && forall i | 0 <= i < m.NumSets() :: m.reserved[i].nodes == m.data.sets[i].noSlot
  }

  /** In a reserved-only set every connected node is reserved. */
  ghost predicate ReservedOnlyHolds(m: Manager)
    requires |m.reserved| == m.NumSets()
  {
    forall p, i | 0 <= i < m.NumSets() && m.reserved[i].only && m.data.Connected(p, i) :: p in m.reserved[i].nodes
  }

  /** Every stored node has a score or a set, and scores fit 32 bits. */
  ghost predicate Tidy(d: Peers) {
    forall p | p in d.nodes :: !d.nodes[p].Blank() && IsI32(d.nodes[p].reputation)
  }

  // ----- the closed form of repeated decay -----------------------------------------------

  /** `k` seconds of decay in one go. */
  function AgedNode(n: Node, now: Instant, k: nat): Node {
    if k == 0 then n
    else
      var r := Ticks(n.reputation, k);
      if r != 0 then n.(reputation := r) else Node(ExpireAll(n.sets, now), 0)
  }

  lemma {:induction false} TicksOfZero(k: nat)
    ensures Ticks(0, k) == 0
    decreases k
  {
    if k > 0 {
      TicksOfZero(k - 1);
    }
  }

  lemma ExpireAllIdempotent(ms: seq<Membership>, now: Instant)
    ensures ExpireAll(ExpireAll(ms, now), now) == ExpireAll(ms, now)
  {
  }

  lemma AgedNodeStep(n: Node, now: Instant, k: nat)
    requires k > 0
    ensures AgedNode(TickNode(n, now), now, k - 1) == AgedNode(n, now, k)
    ensures TickNode(n, now).Blank() ==> AgedNode(n, now, k).Blank()
  {
    var r := Tick(n.reputation);
    assert Ticks(n.reputation, k) == Ticks(r, k - 1);
    if r == 0 {
      TicksOfZero(k - 1);
      ExpireAllIdempotent(n.sets, now);
      assert AgedNode(n, now, k) == TickNode(n, now) == AgedNode(TickNode(n, now), now, k - 1);
    } else {
      assert TickNode(n, now) == n.(reputation := r);
    }
  }

  /** Passing over the whole table once per elapsed second amounts to one closed-form pass:
      the order of seconds and of nodes does not matter. */
  lemma {:induction false} AgingClosedForm(nodes: map<PeerId, Node>, now: Instant, k: nat, p: PeerId)
    requires p in nodes ==> !nodes[p].Blank()
    ensures var aged := TickAllTimes(nodes, now, k);
            && (p in aged <==> p in nodes && !AgedNode(nodes[p], now, k).Blank())
            && (p in aged ==> aged[p] == AgedNode(nodes[p], now, k))
    decreases k
  {
    if k > 0 {
      var next := TickAll(nodes, now);
      AgingClosedForm(next, now, k - 1, p);
      assert TickAllTimes(nodes, now, k) == TickAllTimes(next, now, k - 1);
      if p in nodes {
        AgedNodeStep(nodes[p], now, k);
      }
    }
  }

  /** Membership of one node in one set after `k` seconds. */
  function AgedStatus(m: Membership, score: int, now: Instant, k: nat): Membership {
    if k > 0 && Ticks(score, k) == 0 then Expire(m, now) else m
  }

  lemma BlankStatus(n: Node, i: nat)
    requires n.Blank() && i < |n.sets|
    ensures n.sets[i] == NotMember
  {
    assert n.sets[i] in n.sets;
  }

  lemma AgedPeer(m: Manager, now: Instant, p: PeerId)
    requires Sound(m) && m.latest <= now
    ensures var k := Elapsed(m, now); var a := Age(m, now).data;
            && a.Score(p) == Ticks(m.data.Score(p), k)
            && (p in a.nodes ==> p in m.data.nodes && !a.nodes[p].Blank() && IsI32(a.nodes[p].reputation)
                                 && |a.nodes[p].sets| == |m.data.nodes[p].sets|)
            && forall i :: a.Status(p, i) == AgedStatus(m.data.Status(p, i), m.data.Score(p), now, k)
  {
    var k := Elapsed(m, now);
    var nodes := m.data.nodes;
    AgingClosedForm(nodes, now, k, p);
    assert Age(m, now).data.nodes == TickAllTimes(nodes, now, k);
    TicksOfZero(k);
    if p in nodes {
      TicksShrink(nodes[p].reputation, k);
      var n := AgedNode(nodes[p], now, k);
      forall i: nat
        ensures Age(m, now).data.Status(p, i) == AgedStatus(m.data.Status(p, i), m.data.Score(p), now, k)
      {
        if n.Blank() && i < |n.sets| {
          BlankStatus(n, i);
        }
      }
    }
  }

  /** Time moves every score towards zero by the elapsed whole seconds. It changes no
      connection, no slot counter and no reserved set, and it ends a membership only for a
      node whose score reached zero and that was last seen more than `FORGET_AFTER` ago. */
  lemma AgeFacts(m: Manager, now: Instant)
    requires Sound(m) && m.latest <= now
    ensures var a := Age(m, now); var k := Elapsed(m, now);
            && Sound(a)
            && a.data.sets == m.data.sets && a.reserved == m.reserved
            && (forall p :: a.data.Score(p) == Ticks(m.data.Score(p), k))
            && (forall p, i :: a.data.Status(p, i) == AgedStatus(m.data.Status(p, i), m.data.Score(p), now, k))
            && (forall p, i :: a.data.Connected(p, i) <==> m.data.Connected(p, i))
  {
    AgeShaped(m, now);
    forall p {
      AgedPeer(m, now, p);
    }
  }

  lemma AgeInv(m: Manager, now: Instant)
    requires Ok(m) && m.latest <= now
    ensures Age(m, now).data.Inv()
  {
    var a := Age(m, now);
    AgeFacts(m, now);
    forall i | 0 <= i < m.NumSets()
      ensures a.data.Occupants(i, In) == m.data.Occupants(i, In)
      ensures a.data.Occupants(i, Out) == m.data.Occupants(i, Out)
    {
      SameOccupants(m.data, a.data, i);
    }
  }

  lemma SameOccupants(s: Peers, t: Peers, i: nat)
    requires i < |s.sets| && t.sets == s.sets
    requires forall p :: t.Status(p, i) == s.Status(p, i) || !(t.Connected(p, i) || s.Connected(p, i))
    ensures t.Occupants(i, In) == s.Occupants(i, In)
    ensures t.Occupants(i, Out) == s.Occupants(i, Out)
  {
    forall p
      ensures p in t.Occupants(i, In) <==> p in s.Occupants(i, In)
      ensures p in t.Occupants(i, Out) <==> p in s.Occupants(i, Out)
    {
      assert t.Status(p, i) == In <==> s.Status(p, i) == In;
      assert t.Status(p, i) == Out <==> s.Status(p, i) == Out;
    }
  }
}
