/** What holds over every run of the peer set manager. */
module PeersetRuns {
  import opened Reputation
  import opened PeersState
  import opened PeersetModel
  import opened PeersetAging

  // ----- effects of the building blocks ----------------------------------------------------

  /** `t` is `s` with membership `m` for `p` in set `i`: scores, limits and slot-free lists are
      kept, and only the counters of `i` move. */
  ghost predicate Effect(s: Peers, t: Peers, p: PeerId, i: nat, m: Membership) {
    && t.Shaped() && Tidy(t) && |t.sets| == |s.sets|
    && (forall q, j :: t.Status(q, j) == if q == p && j == i then m else s.Status(q, j))
    && (forall q :: t.Score(q) == s.Score(q))
    && forall j | 0 <= j < |s.sets| ::
      && t.sets[j].noSlot == s.sets[j].noSlot
      && t.sets[j].maxIn == s.sets[j].maxIn && t.sets[j].maxOut == s.sets[j].maxOut
      && t.sets[j].numIn == s.sets[j].numIn
         + if j == i then Takes(m, In, p in s.sets[i].noSlot) - Takes(s.Status(p, i), In, p in s.sets[i].noSlot) else 0
  }

  lemma MemberNotBlank(n: Node, i: nat)
    requires i < |n.sets| && n.sets[i] != NotMember
    ensures !n.Blank()
  {
    assert n.sets[i] in n.sets;
  }

  lemma MoveEffect(s: Peers, p: PeerId, i: nat, m: Membership)
    requires s.Shaped() && Tidy(s) && i < |s.sets| && p in s.nodes && m != NotMember
    ensures Effect(s, s.Move(p, i, m), p, i, m)
  {
    MemberNotBlank(s.Move(p, i, m).nodes[p], i);
  }

  lemma CutEffect(s: Peers, p: PeerId, i: nat, stamp: Instant)
    requires s.Shaped() && Tidy(s) && i < |s.sets|
    ensures Effect(s, Cut(s, p, i, stamp), p, i, if s.Connected(p, i) then NotConnected(stamp) else s.Status(p, i))
  {
    if s.Connected(p, i) {
      MoveEffect(s, p, i, NotConnected(stamp));
    }
  }

  lemma DiscoverEffect(s: Peers, p: PeerId, i: nat, stamp: Instant)
    requires s.Shaped() && Tidy(s) && i < |s.sets|
    ensures Effect(s, s.Discover(p, i, stamp), p, i, NotConnected(stamp))
    ensures p in s.Discover(p, i, stamp).nodes
  {
    MemberNotBlank(s.Discover(p, i, stamp).nodes[p], i);
  }

  lemma ForgetEffect(s: Peers, p: PeerId, i: nat)
    requires s.Shaped() && Tidy(s) && i < |s.sets| && p in s.nodes
    ensures Effect(s, s.Forget(p, i), p, i, NotMember)
  {
    PurgeFacts(s.Move(p, i, NotMember), p);
  }

  lemma SetScoreEffect(s: Peers, p: PeerId, r: int)
    requires s.Shaped() && Tidy(s) && IsI32(r)
    ensures s.SetScore(p, r).Shaped() && Tidy(s.SetScore(p, r)) && s.SetScore(p, r).sets == s.sets
    ensures forall q, j :: s.SetScore(p, r).Status(q, j) == s.Status(q, j)
    ensures forall q :: s.SetScore(p, r).Score(q) == if q == p then r else s.Score(q)
  {
    SetScoreFacts(s, p, r);
  }

  lemma {:induction false} CutAllEffect(s: Peers, i: nat, order: seq<PeerId>, stamp: Instant)
    requires s.Shaped() && Tidy(s) && i < |s.sets|
    ensures var t := CutAll(s, i, order, stamp);
            && t.Shaped() && Tidy(t) && |t.sets| == |s.sets|
            && (forall q, j :: t.Status(q, j) ==
                  if q in order && j == i && s.Connected(q, i) then NotConnected(stamp) else s.Status(q, j))
            && (forall q :: t.Score(q) == s.Score(q))
            && forall j | 0 <= j < |s.sets| ::
              && t.sets[j].noSlot == s.sets[j].noSlot
              && t.sets[j].maxIn == s.sets[j].maxIn && t.sets[j].maxOut == s.sets[j].maxOut
              && t.sets[j].numIn <= s.sets[j].numIn
    decreases |order|
  {
    if order != [] {
      CutEffect(s, order[0], i, stamp);
      CutAllEffect(Cut(s, order[0], i, stamp), i, order[1..], stamp);
    }
  }

  /** `t` is `s` with `p` disconnected from the first `k` sets. */
  ghost predicate CutFrom(s: Peers, t: Peers, p: PeerId, k: nat, stamp: Instant) {
    && t.Shaped() && Tidy(t) && |t.sets| == |s.sets|
    && (forall q, j: nat :: t.Status(q, j) ==
                            if q == p && j < k && s.Connected(p, j) then NotConnected(stamp) else s.Status(q, j))
    && (forall q :: t.Score(q) == s.Score(q))
    && forall j | 0 <= j < |s.sets| ::
      && t.sets[j].noSlot == s.sets[j].noSlot
      && t.sets[j].maxIn == s.sets[j].maxIn && t.sets[j].maxOut == s.sets[j].maxOut
      && t.sets[j].numIn <= s.sets[j].numIn
  }

  lemma CutOneMore(s: Peers, t: Peers, u: Peers, p: PeerId, k: nat, stamp: Instant)
    requires CutFrom(s, t, p, k, stamp)
    requires Effect(t, u, p, k, if t.Connected(p, k) then NotConnected(stamp) else t.Status(p, k))
    ensures CutFrom(s, u, p, k + 1, stamp)
  {
  }

  lemma {:induction false} CutBelowEffect(s: Peers, p: PeerId, k: nat, stamp: Instant)
    requires s.Shaped() && Tidy(s) && k <= |s.sets|
    ensures CutFrom(s, CutBelow(s, p, k, stamp), p, k, stamp)
  {
    if k > 0 {
      var t := CutBelow(s, p, k - 1, stamp);
      CutBelowEffect(s, p, k - 1, stamp);
      CutEffect(t, p, k - 1, stamp);
      CutOneMore(s, t, Cut(t, p, k - 1, stamp), p, k - 1, stamp);
    }
  }

  // ----- runs ------------------------------------------------------------------------------

  /** One call into the manager, with the clock readings it makes. `OnSetReservedPeers` is the
      run of `AddReservedOp`s and `RemoveReservedOp`s it loops through. */
  datatype Op =
    | AddReservedOp(i: nat, p: PeerId)
    | RemoveReservedOp(i: nat, p: PeerId, stamp: Instant)
    | SetReservedOnlyOp(i: nat, only: bool, order: seq<PeerId>, stamp: Instant)
    | AddToSetOp(i: nat, p: PeerId, stamp: Instant)
    | RemoveFromSetOp(i: nat, p: PeerId)
    | ReportOp(p: PeerId, change: int, now: Instant, stamp: Instant)
    | QueryOp(p: PeerId)
    | ConnectOp(p: PeerId)
    | IncomingOp(i: nat, p: PeerId, index: nat, now: Instant, stamp: Instant)
    | DroppedOp(i: nat, p: PeerId, refused: bool, now: Instant, stamp: Instant)
    | TimeOp(now: Instant)

  /** `order` lists, each once, the connected nodes of set `i` that are not reserved. */
  ghost predicate ListsIntruders(m: Manager, i: nat, order: seq<PeerId>)
    requires i < |m.reserved|
  {
    && (forall j, k | 0 <= j < k < |order| :: order[j] != order[k])
    && forall p :: p in order <==> m.data.Connected(p, i) && p !in m.reserved[i].nodes
  }

  ghost predicate Legal(m: Manager, op: Op)
    requires Mirrored(m)
  {
    match op
    case ReportOp(p, change, now, _) => m.latest <= now && IsI32(change)
    case TimeOp(now) => m.latest <= now
    case QueryOp(_) => true
    case ConnectOp(_) => true
    case IncomingOp(i, p, index, now, _) => i < m.NumSets() && m.latest <= now
    case DroppedOp(i, p, refused, now, _) => i < m.NumSets() && m.latest <= now
    case SetReservedOnlyOp(i, only, order, _) =>
      i < m.NumSets() && if only then ListsIntruders(m, i, order) else order == []
    case _ => op.i < m.NumSets()
  }

  /** The state on which `op` acts: scores are brought up to date first where the code does so. */
  ghost function Base(m: Manager, op: Op): Manager
    requires Sound(m) && Legal(m, op)
  {
    match op
    case ReportOp(_, _, now, _) => Age(m, now)
    case IncomingOp(_, _, _, now, _) => Age(m, now)
    case DroppedOp(_, _, _, now, _) => Age(m, now)
    case TimeOp(now) => Age(m, now)
    case _ => m
  }

  /** `op` on a state whose scores are up to date. */
  ghost function Act(m: Manager, op: Op): Outcome
    requires Sound(m)
    requires !(op.ReportOp? || op.QueryOp? || op.ConnectOp? || op.TimeOp?) ==> op.i < m.NumSets()
  {
    match op
    case AddReservedOp(i, p) => AddReserved(m, i, p)
    case RemoveReservedOp(i, p, stamp) => RemoveReserved(m, i, p, stamp)
    case SetReservedOnlyOp(i, only, order, stamp) => SetReservedOnly(m, i, only, order, stamp)
    case AddToSetOp(i, p, stamp) => AddToSet(m, i, p, stamp)
    case RemoveFromSetOp(i, p) => RemoveFromSet(m, i, p)
    case ReportOp(p, change, _, stamp) => Judge(m, p, change, stamp)
    case QueryOp(p) => QueryReputation(m, p)
    case ConnectOp(p) => ConnectTo(m, p)
    case IncomingOp(i, p, index, _, stamp) => Admit(m, i, p, index, stamp)
    case DroppedOp(i, p, refused, _, stamp) => Lose(m, i, p, refused, stamp)
    case TimeOp(_) => Outcome(m, [])
  }

  ghost function Flag(m: Manager, i: nat, p: PeerId): int {
    if m.data.Connected(p, i) then 1 else 0
  }

  /** Accepts that `op` queues for (`i`, `p`), minus the drops it queues, minus one if it is the
      report that the connection was lost. */
  ghost function Delta(m: Manager, op: Op, out: seq<Message>, i: nat, p: PeerId): int {
    var accepts: int := if op.IncomingOp? && op.i == i && op.p == p && Accept(op.index) in out then 1 else 0;
    var drops: int := multiset(out)[Drop(i, p)];
    var lost: int := if op.DroppedOp? && op.i == i && op.p == p && m.data.Connected(p, i) then 1 else 0;
    accepts - drops - lost
  }

  ghost predicate Balanced(m: Manager, op: Op, o: Outcome) {
    forall i, p | 0 <= i < m.NumSets() :: Flag(o.next, i, p) == Flag(m, i, p) + Delta(m, op, o.out, i, p)
  }

  function Max(a: int, b: int): int {
    if a < b then b else a
  }

  /** 1 if `op` takes the slot-free status away from a node connected through an In slot. */
  ghost function Hit(m: Manager, op: Op, i: nat): int
    requires i < |m.reserved|
  {
    if op.RemoveReservedOp? && op.i == i && op.p in m.reserved[i].nodes && m.data.Status(op.p, i) == In then 1 else 0
  }

  ghost predicate Bounded(m: Manager, op: Op, n: Manager)
    requires |m.reserved| == m.NumSets()
  {
    && n.NumSets() == m.NumSets() && n.created == m.created && n.latest >= m.latest
    && forall i | 0 <= i < m.NumSets() ::
      && n.data.sets[i].maxIn == m.data.sets[i].maxIn && n.data.sets[i].maxOut == m.data.sets[i].maxOut
      && n.data.sets[i].numIn <= Max(m.data.sets[i].numIn, m.data.sets[i].maxIn) + Hit(m, op, i)
  }

  ghost predicate NoNewOut(m: Manager, n: Manager) {
    forall i, p | n.data.Status(p, i) == Out :: m.data.Status(p, i) == Out
  }

  ghost predicate ScoresKept(m: Manager, n: Manager) {
    forall p :: n.data.Score(p) == m.data.Score(p)
  }

  // ----- one operation, scores being up to date -------------------------------------------------

  /** Operations that change one membership. */
  lemma OneChange(m: Manager, op: Op, o: Outcome, p: PeerId, i: nat, s: Membership)
    requires Sound(m) && i < m.NumSets() && Effect(m.data, o.next.data, p, i, s)
    requires o.next == m.(data := o.next.data)
    requires s.IsConnected() ==> s == In && !m.data.Connected(p, i) && m.data.CanAccept(p, i)
                                 && (m.reserved[i].only ==> p in m.reserved[i].nodes)
    requires forall j, q | 0 <= j < m.NumSets() ::
               Delta(m, op, o.out, j, q)
               == if j == i && q == p then (if s.IsConnected() then 1 else 0) - Flag(m, i, p) else 0
    ensures Sound(o.next)
    ensures Bounded(m, op, o.next)
    ensures Balanced(m, op, o)
    ensures NoNewOut(m, o.next) && ScoresKept(m, o.next)
  {
  }

  lemma AddReservedGood(m: Manager, op: Op)
    requires Sound(m) && op.AddReservedOp? && op.i < m.NumSets()
    ensures Sound(Act(m, op).next) && Bounded(m, op, Act(m, op).next)
    ensures Balanced(m, op, Act(m, op)) && NoNewOut(m, Act(m, op).next)
    ensures ScoresKept(m, Act(m, op).next)
  {
  }

  lemma UnreservedAndCut(m: Manager, op: Op, n: Manager, d: Peers)
    requires Sound(m) && op.RemoveReservedOp? && op.i < m.NumSets() && op.p in m.reserved[op.i].nodes
    requires d == m.data.SetNoSlot(op.p, op.i, false) && m.data.Connected(op.p, op.i) && m.reserved[op.i].only
    requires Effect(d, n.data, op.p, op.i, NotConnected(op.stamp))
    requires n == m.(data := n.data,
                     reserved := m.reserved[op.i := m.reserved[op.i].(nodes := m.reserved[op.i].nodes - {op.p})])
    ensures Sound(n) && Bounded(m, op, n)
    ensures Balanced(m, op, Outcome(n, [Drop(op.i, op.p)])) && NoNewOut(m, n) && ScoresKept(m, n)
  {
  }

  lemma RemoveReservedGood(m: Manager, op: Op)
    requires Sound(m) && op.RemoveReservedOp? && op.i < m.NumSets()
    ensures Sound(Act(m, op).next) && Bounded(m, op, Act(m, op).next)
    ensures Balanced(m, op, Act(m, op)) && NoNewOut(m, Act(m, op).next)
    ensures ScoresKept(m, Act(m, op).next)
  {
    if op.p in m.reserved[op.i].nodes {
      var d := m.data.SetNoSlot(op.p, op.i, false);
      if m.reserved[op.i].only && d.Connected(op.p, op.i) {
        CutEffect(d, op.p, op.i, op.stamp);
        UnreservedAndCut(m, op, Act(m, op).next, d);
      }
    }
  }

  lemma AddToSetGood(m: Manager, op: Op)
    requires Sound(m) && op.AddToSetOp? && op.i < m.NumSets()
    ensures Sound(Act(m, op).next) && Bounded(m, op, Act(m, op).next)
    ensures Balanced(m, op, Act(m, op)) && NoNewOut(m, Act(m, op).next)
    ensures ScoresKept(m, Act(m, op).next)
  {
    if m.data.Status(op.p, op.i) == NotMember {
      DiscoverEffect(m.data, op.p, op.i, op.stamp);
      OneChange(m, op, Act(m, op), op.p, op.i, NotConnected(op.stamp));
    }
  }

  lemma RemoveFromSetGood(m: Manager, op: Op)
    requires Sound(m) && op.RemoveFromSetOp? && op.i < m.NumSets()
    ensures Sound(Act(m, op).next) && Bounded(m, op, Act(m, op).next)
    ensures Balanced(m, op, Act(m, op)) && NoNewOut(m, Act(m, op).next)
    ensures ScoresKept(m, Act(m, op).next)
  {
    if op.p !in m.reserved[op.i].nodes && m.data.Status(op.p, op.i) != NotMember {
      ForgetEffect(m.data, op.p, op.i);
      OneChange(m, op, Act(m, op), op.p, op.i, NotMember);
    }
  }

  lemma EffectTwice(s: Peers, t: Peers, u: Peers, p: PeerId, i: nat, a: Membership, b: Membership)
    requires Effect(s, t, p, i, a) && Effect(t, u, p, i, b) && i < |s.sets|
    ensures Effect(s, u, p, i, b)
  {
  }

  lemma AdmittedOrNot(m: Manager, op: Op, o: Outcome, s: Membership)
    requires Sound(m) && op.IncomingOp? && op.i < m.NumSets() && !m.data.Connected(op.p, op.i)
    requires m.reserved[op.i].only ==> op.p in m.reserved[op.i].nodes
    requires o.next == m.(data := o.next.data) && Effect(m.data, o.next.data, op.p, op.i, s)
    requires || (s == In && o.out == [Accept(op.index)] && m.data.CanAccept(op.p, op.i))
             || (s.NotConnected? && o.out == [Reject(op.index)])
    ensures Sound(o.next) && Bounded(m, op, o.next)
    ensures Balanced(m, op, o) && NoNewOut(m, o.next) && ScoresKept(m, o.next)
  {
    OneChange(m, op, o, op.p, op.i, s);
  }

  lemma IncomingGood(m: Manager, op: Op)
    requires Sound(m) && op.IncomingOp? && op.i < m.NumSets()
    ensures Sound(Act(m, op).next) && Bounded(m, op, Act(m, op).next)
    ensures Balanced(m, op, Act(m, op)) && NoNewOut(m, Act(m, op).next)
    ensures ScoresKept(m, Act(m, op).next)
  {
    var o := Act(m, op);
    if !(m.reserved[op.i].only && op.p !in m.reserved[op.i].nodes) && !m.data.Connected(op.p, op.i) {
      var d := m.data.Discover(op.p, op.i, op.stamp);
      DiscoverEffect(m.data, op.p, op.i, op.stamp);
      if o.out == [Accept(op.index)] {
        MoveEffect(d, op.p, op.i, In);
        EffectTwice(m.data, d, o.next.data, op.p, op.i, NotConnected(op.stamp), In);
        AdmittedOrNot(m, op, o, In);
      } else {
        AdmittedOrNot(m, op, o, NotConnected(op.stamp));
      }
    }
  }

  lemma {:induction false} DropAllCounts(i: nat, order: seq<PeerId>, j: nat, p: PeerId)
    requires forall a, b | 0 <= a < b < |order| :: order[a] != order[b]
    ensures multiset(DropAll(i, order))[Drop(j, p)] == if i == j && p in order then 1 else 0
    decreases |order|
  {
    if order == [] {
      assert DropAll(i, order) == [];
    } else {
      var last := |order| - 1;
      assert DropAll(i, order) == DropAll(i, order[..last]) + [Drop(i, order[last])];
      DropAllCounts(i, order[..last], j, p);
      assert order == order[..last] + [order[last]];
    }
  }

  lemma SetReservedOnlyGood(m: Manager, op: Op)
    requires Sound(m) && op.SetReservedOnlyOp? && op.i < m.NumSets() && (op.only ==> ListsIntruders(m, op.i, op.order))
    ensures Sound(Act(m, op).next) && Bounded(m, op, Act(m, op).next)
    ensures Balanced(m, op, Act(m, op)) && NoNewOut(m, Act(m, op).next)
    ensures ScoresKept(m, Act(m, op).next)
  {
    if op.only {
      CutAllEffect(m.data, op.i, op.order, op.stamp);
      forall j, p {
        DropAllCounts(op.i, op.order, j, p);
      }
    }
  }

  lemma {:induction false} DropsBelowCounts(d: Peers, p: PeerId, k: nat, j: nat, q: PeerId)
    ensures multiset(DropsBelow(d, p, k))[Drop(j, q)] == if q == p && j < k && d.Connected(p, j) then 1 else 0
  {
    if k > 0 {
      DropsBelowCounts(d, p, k - 1, j, q);
    }
  }

  /** A score set, then perhaps `p` cut off from the first `k` sets. */
  lemma Rescored(m: Manager, op: Op, o: Outcome, d: Peers, p: PeerId, r: int, k: nat)
    requires Sound(m) && op.ReportOp? && IsI32(r) && d == m.data.SetScore(p, r)
    requires o.next == m.(data := o.next.data) && CutFrom(d, o.next.data, p, k, op.stamp) && k <= m.NumSets()
    requires o.out == DropsBelow(d, p, k)
    ensures Sound(o.next)
    ensures Bounded(m, op, o.next)
    ensures Balanced(m, op, o) && NoNewOut(m, o.next)
    ensures forall q :: o.next.data.Score(q) == if q == p then r else m.data.Score(q)
    ensures forall q, j: nat :: o.next.data.Connected(q, j) <==> m.data.Connected(q, j) && !(q == p && j < k)
    ensures forall q, j: nat :: multiset(o.out)[Drop(j, q)] == if q == p && j < k && m.data.Connected(p, j) then 1 else 0
  {
    SetScoreEffect(m.data, p, r);
    RescoredDrops(m, op, o, d, p, k);
  }

  lemma RescoredDrops(m: Manager, op: Op, o: Outcome, d: Peers, p: PeerId, k: nat)
    requires op.ReportOp? && k <= m.NumSets() && |d.sets| == m.NumSets() && o.out == DropsBelow(d, p, k)
    requires forall q, j: nat :: d.Connected(q, j) <==> m.data.Connected(q, j)
    requires forall q, j: nat :: o.next.data.Connected(q, j) <==> m.data.Connected(q, j) && !(q == p && j < k)
    ensures Balanced(m, op, o)
    ensures forall q, j: nat :: multiset(o.out)[Drop(j, q)] == if q == p && j < k && m.data.Connected(p, j) then 1 else 0
  {
    forall j, q {
      DropsBelowCounts(d, p, k, j, q);
    }
  }

  lemma ReportGood(m: Manager, op: Op)
    requires Sound(m) && op.ReportOp?
    ensures Sound(Act(m, op).next) && Bounded(m, op, Act(m, op).next)
    ensures Balanced(m, op, Act(m, op)) && NoNewOut(m, Act(m, op).next)
    ensures var r := SaturatingAdd(m.data.Score(op.p), op.change);
            var k := if r >= BANNED_THRESHOLD then 0 else m.NumSets(); var o := Act(m, op);
            && (forall q :: o.next.data.Score(q) == if q == op.p then r else m.data.Score(q))
            && (forall q, j: nat :: o.next.data.Connected(q, j) <==> m.data.Connected(q, j) && !(q == op.p && j < k))
            && forall q, j: nat ::
              multiset(o.out)[Drop(j, q)] == if q == op.p && j < k && m.data.Connected(op.p, j) then 1 else 0
  {
    var r := SaturatingAdd(m.data.Score(op.p), op.change);
    var d := m.data.SetScore(op.p, r);
    var k := if r >= BANNED_THRESHOLD then 0 else |d.sets|;
    SetScoreEffect(m.data, op.p, r);
    CutBelowEffect(d, op.p, k, op.stamp);
    Rescored(m, op, Act(m, op), d, op.p, r, k);
  }

  /** A lost connection: rescored and cut, then forgotten if it was refused. */
  lemma Lost(m: Manager, op: Op, o: Outcome, d: Peers, s: Membership)
    requires Sound(m) && op.DroppedOp? && op.i < m.NumSets()
    requires d.Shaped() && Tidy(d) && d.sets == m.data.sets
    requires forall q, j :: d.Status(q, j) == m.data.Status(q, j)
    requires o.next == m.(data := o.next.data) && o.out == []
    requires Effect(d, o.next.data, op.p, op.i, s) && !s.IsConnected()
    ensures Sound(o.next)
    ensures Bounded(m, op, o.next)
    ensures Balanced(m, op, o) && NoNewOut(m, o.next)
    ensures forall q :: o.next.data.Score(q) == d.Score(q)
    ensures forall q, j: nat ::
              o.next.data.Connected(q, j) <==> m.data.Connected(q, j) && !(q == op.p && j == op.i)
  {
  }

  lemma EffectNone(s: Peers, p: PeerId, i: nat)
    requires s.Shaped() && Tidy(s)
    ensures Effect(s, s, p, i, s.Status(p, i))
  {
  }

  lemma DroppedGood(m: Manager, op: Op)
    requires Sound(m) && op.DroppedOp? && op.i < m.NumSets()
    ensures Sound(Act(m, op).next) && Bounded(m, op, Act(m, op).next)
    ensures Balanced(m, op, Act(m, op)) && NoNewOut(m, Act(m, op).next)
    ensures forall q :: Act(m, op).next.data.Score(q) ==
                        if q == op.p && m.data.Connected(op.p, op.i)
                        then SaturatingAdd(m.data.Score(q), DISCONNECT_REPUTATION_CHANGE) else m.data.Score(q)
    ensures forall q, j: nat ::
              Act(m, op).next.data.Connected(q, j) <==> m.data.Connected(q, j) && !(q == op.p && j == op.i)
  {
    var d, e := m.data, m.data;
    var s := m.data.Status(op.p, op.i);
    if m.data.Connected(op.p, op.i) {
      var r := SaturatingAdd(m.data.Score(op.p), DISCONNECT_REPUTATION_CHANGE);
      SetScoreEffect(m.data, op.p, r);
      d := m.data.SetScore(op.p, r);
      CutEffect(d, op.p, op.i, op.stamp);
      e, s := Cut(d, op.p, op.i, op.stamp), NotConnected(op.stamp);
    } else {
      EffectNone(d, op.p, op.i);
    }
    if op.refused && op.p !in m.reserved[op.i].nodes && s != NotMember {
      ForgetEffect(e, op.p, op.i);
      EffectTwice(d, e, e.Forget(op.p, op.i), op.p, op.i, s, NotMember);
      s := NotMember;
    }
    Lost(m, op, Act(m, op), d, s);
  }

  lemma QueryGood(m: Manager, op: Op)
    requires Sound(m) && op.QueryOp?
    ensures Act(m, op) == Outcome(m, [])
  {
    SetScoreEffect(m.data, op.p, m.data.Score(op.p));
  }

  // ----- slot counters ---------------------------------------------------------------------------

  lemma CutInv(d: Peers, p: PeerId, i: nat, stamp: Instant)
    requires d.Inv() && i < |d.sets|
    ensures Cut(d, p, i, stamp).Inv()
  {
    if d.Connected(p, i) {
      MoveInv(d, p, i, NotConnected(stamp));
    }
  }

  lemma {:induction false} CutAllInv(d: Peers, i: nat, order: seq<PeerId>, stamp: Instant)
    requires d.Inv() && i < |d.sets|
    ensures CutAll(d, i, order, stamp).Inv()
    decreases |order|
  {
    if order != [] {
      CutInv(d, order[0], i, stamp);
      CutAllInv(Cut(d, order[0], i, stamp), i, order[1..], stamp);
    }
  }

  lemma {:induction false} CutBelowInv(d: Peers, p: PeerId, k: nat, stamp: Instant)
    requires d.Inv() && k <= |d.sets|
    ensures CutBelow(d, p, k, stamp).Inv()
  {
    if k > 0 {
      CutBelowInv(d, p, k - 1, stamp);
      CutInv(CutBelow(d, p, k - 1, stamp), p, k - 1, stamp);
    }
  }

  lemma RemoveFromSetInv(m: Manager, i: nat, p: PeerId)
    requires m.data.Inv() && i < m.NumSets() == |m.reserved|
    ensures RemoveFromSet(m, i, p).next.data.Inv()
  {
    if m.data.Status(p, i) != NotMember {
      ForgetInv(m.data, p, i);
    }
  }

  lemma AdmitInv(m: Manager, i: nat, p: PeerId, index: nat, stamp: Instant)
    requires m.data.Inv() && i < m.NumSets() == |m.reserved|
    ensures Admit(m, i, p, index, stamp).next.data.Inv()
  {
    DiscoverInv(m.data, p, i, stamp);
    MoveInv(m.data.Discover(p, i, stamp), p, i, In);
  }

  lemma LoseInv(m: Manager, i: nat, p: PeerId, refused: bool, stamp: Instant)
    requires m.data.Inv() && i < m.NumSets() == |m.reserved|
    ensures Lose(m, i, p, refused, stamp).next.data.Inv()
  {
    var n := m;
    if m.data.Connected(p, i) {
      var r := SaturatingAdd(m.data.Score(p), DISCONNECT_REPUTATION_CHANGE);
      SetScoreInv(m.data, p, r);
      SetScoreFacts(m.data, p, r);
      CutInv(m.data.SetScore(p, r), p, i, stamp);
      n := m.(data := Cut(m.data.SetScore(p, r), p, i, stamp));
    }
    RemoveFromSetInv(n, i, p);
  }

  lemma JudgeInv(m: Manager, p: PeerId, change: int, stamp: Instant)
    requires m.data.Inv()
    ensures Judge(m, p, change, stamp).next.data.Inv()
  {
    var r := SaturatingAdd(m.data.Score(p), change);
    SetScoreInv(m.data, p, r);
    CutBelowInv(m.data.SetScore(p, r), p, |m.data.SetScore(p, r).sets|, stamp);
  }

  lemma RemoveReservedInv(m: Manager, i: nat, p: PeerId, stamp: Instant)
    requires m.data.Inv() && i < m.NumSets() == |m.reserved|
    ensures RemoveReserved(m, i, p, stamp).next.data.Inv()
  {
    SetNoSlotInv(m.data, p, i, false);
    CutInv(m.data.SetNoSlot(p, i, false), p, i, stamp);
  }

  /** The counters of every set keep agreeing with the memberships. */
  lemma ActInv(m: Manager, op: Op)
    requires m.data.Inv() && Sound(m)
    requires !(op.ReportOp? || op.QueryOp? || op.ConnectOp? || op.TimeOp?) ==> op.i < m.NumSets()
    ensures Act(m, op).next.data.Inv()
  {
    match op
    case AddReservedOp(i, p) => SetNoSlotInv(m.data, p, i, true);
    case RemoveReservedOp(i, p, stamp) => RemoveReservedInv(m, i, p, stamp);
    case SetReservedOnlyOp(i, _, order, stamp) => CutAllInv(m.data, i, order, stamp);
    case AddToSetOp(i, p, stamp) => DiscoverInv(m.data, p, i, stamp);
    case RemoveFromSetOp(i, p) => RemoveFromSetInv(m, i, p);
    case ReportOp(p, change, _, stamp) => JudgeInv(m, p, change, stamp);
    case QueryOp(p) => SetScoreInv(m.data, p, m.data.Score(p));
    case ConnectOp(_) =>
    case IncomingOp(i, p, index, _, stamp) => AdmitInv(m, i, p, index, stamp);
    case DroppedOp(i, p, refused, _, stamp) => LoseInv(m, i, p, refused, stamp);
    case TimeOp(_) =>
  }
}
