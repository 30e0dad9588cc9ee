/** What every operation of the peer set manager makes of every membership, every score, every reserved
    set and the message queue, in terms of the state before the call. */
module PeersetEffects {
  import opened Reputation
  import opened PeersState
  import opened PeersetModel
  import opened PeersetAging
  import opened PeersetRuns
  import opened PeersetTheorems

  /** Operations that bring scores up to date first. */
  predicate Timed(op: Op) {
    op.ReportOp? || op.IncomingOp? || op.DroppedOp? || op.TimeOp?
  }

  /** The score of `q` when the operation proper starts. */
  ghost function ScoreThen(m: Manager, op: Op, q: PeerId): int
    requires Sound(m) && Legal(m, op)
  {
    if Timed(op) then Ticks(m.data.Score(q), Elapsed(m, op.now)) else m.data.Score(q)
  }

  /** The membership of `q` in set `j` when the operation proper starts: time ends those of disconnected
      nodes whose score has decayed to zero and that were last seen more than an hour ago. */
  ghost function StatusThen(m: Manager, op: Op, q: PeerId, j: nat): Membership
    requires Sound(m) && Legal(m, op)
  {
    var s := m.data.Status(q, j);
    if && Timed(op) && Elapsed(m, op.now) > 0 && ScoreThen(m, op, q) == 0
       && s.NotConnected? && op.now - s.lastConnected > 3600 * NANOS
    then NotMember else s
  }

  lemma BaseMeans(m: Manager, op: Op, q: PeerId, j: nat)
    requires Sound(m) && Legal(m, op)
    ensures var a := Base(m, op);
            && a.data.Score(q) == ScoreThen(m, op, q) && a.data.Status(q, j) == StatusThen(m, op, q, j)
            && (a.data.Connected(q, j) <==> m.data.Connected(q, j)) && a.reserved == m.reserved
            && a.data.sets == m.data.sets
  {
    if Timed(op) {
      AgeFacts(m, op.now);
    }
  }

  // ----- memberships --------------------------------------------------------------------------------

  /** Whether an incoming connection is accepted. */
  ghost predicate Accepts(m: Manager, op: Op)
    requires Sound(m) && Legal(m, op) && op.IncomingOp?
  {
    && !m.data.Connected(op.p, op.i)
    && (m.reserved[op.i].only ==> op.p in m.reserved[op.i].nodes)
    && ScoreThen(m, op, op.p) >= BANNED_THRESHOLD
    && (op.p in m.reserved[op.i].nodes || m.data.sets[op.i].numIn < m.data.sets[op.i].maxIn)
  }

  /** The membership of `q` in set `j` after the operation. */
  ghost function StatusAfter(m: Manager, op: Op, q: PeerId, j: nat): Membership
    requires Sound(m) && Legal(m, op) && j < m.NumSets()
  {
    var s := StatusThen(m, op, q, j);
    var connected, reserved := m.data.Connected(q, j), q in m.reserved[j].nodes;
    match op
    case RemoveReservedOp(i, p, stamp) =>
      if q == p && j == i && reserved && m.reserved[j].only && connected then NotConnected(stamp) else s
    case SetReservedOnlyOp(i, only, _, stamp) =>
      if j == i && only && connected && !reserved then NotConnected(stamp) else s
    case AddToSetOp(i, p, stamp) => if q == p && j == i && s == NotMember then NotConnected(stamp) else s
    case RemoveFromSetOp(i, p) => if q == p && j == i && !reserved then NotMember else s
    case ReportOp(p, change, _, stamp) =>
      if q == p && connected && SaturatingAdd(ScoreThen(m, op, p), change) < BANNED_THRESHOLD
      then NotConnected(stamp) else s
    case IncomingOp(i, p, _, _, stamp) =>
      if q != p || j != i || connected || (m.reserved[j].only && !reserved) then s
      else if Accepts(m, op) then In else NotConnected(stamp)
    case DroppedOp(i, p, refused, _, stamp) =>
      if q != p || j != i then s
      else if refused && !reserved then NotMember
      else if connected then NotConnected(stamp) else s
    case _ => s
  }

  lemma SmallStatus(m: Manager, op: Op, q: PeerId, j: nat)
    requires Sound(m) && Legal(m, op) && j < m.NumSets()
    requires op.AddReservedOp? || op.AddToSetOp? || op.RemoveFromSetOp? || op.QueryOp? || op.ConnectOp? || op.TimeOp?
    ensures Step(m, op).next.data.Status(q, j) == StatusAfter(m, op, q, j)
  {
    BaseMeans(m, op, q, j);
    if op.AddToSetOp? && m.data.Status(op.p, op.i) == NotMember {
      DiscoverEffect(m.data, op.p, op.i, op.stamp);
    } else if op.RemoveFromSetOp? && op.p !in m.reserved[op.i].nodes && m.data.Status(op.p, op.i) != NotMember {
      ForgetEffect(m.data, op.p, op.i);
    } else if op.QueryOp? {
      QueryGood(m, op);
    }
  }

  lemma ReservedStatus(m: Manager, op: Op, q: PeerId, j: nat)
    requires Sound(m) && Legal(m, op) && j < m.NumSets() && (op.RemoveReservedOp? || op.SetReservedOnlyOp?)
    ensures Step(m, op).next.data.Status(q, j) == StatusAfter(m, op, q, j)
  {
    if op.SetReservedOnlyOp? {
      CutAllEffect(m.data, op.i, op.order, op.stamp);
    } else if op.p in m.reserved[op.i].nodes {
      CutEffect(m.data.SetNoSlot(op.p, op.i, false), op.p, op.i, op.stamp);
    }
  }

  lemma ReportStatus(m: Manager, op: Op, q: PeerId, j: nat)
    requires Sound(m) && Legal(m, op) && j < m.NumSets() && op.ReportOp?
    ensures Step(m, op).next.data.Status(q, j) == StatusAfter(m, op, q, j)
  {
    BaseFacts(m, op);
    BaseMeans(m, op, op.p, j);
    BaseMeans(m, op, q, j);
    var a := Base(m, op);
    var r := SaturatingAdd(a.data.Score(op.p), op.change);
    SetScoreEffect(a.data, op.p, r);
    CutBelowEffect(a.data.SetScore(op.p, r), op.p, m.NumSets(), op.stamp);
  }

  /** Admission, once scores are up to date. */
  lemma AdmitEffect(a: Manager, op: Op, q: PeerId, j: nat)
    requires Sound(a) && op.IncomingOp? && op.i < a.NumSets() && j < a.NumSets()
    ensures Act(a, op).next.data.Status(q, j) ==
            if || q != op.p || j != op.i || a.data.Connected(op.p, op.i)
               || (a.reserved[op.i].only && op.p !in a.reserved[op.i].nodes)
            then a.data.Status(q, j)
            else if a.data.Score(op.p) >= BANNED_THRESHOLD && a.data.CanAccept(op.p, op.i) then In
            else NotConnected(op.stamp)
  {
    var d := a.data.Discover(op.p, op.i, op.stamp);
    DiscoverEffect(a.data, op.p, op.i, op.stamp);
    MoveEffect(d, op.p, op.i, In);
    if !a.data.Connected(op.p, op.i) {
      assert d.CanAccept(op.p, op.i) == a.data.CanAccept(op.p, op.i);
    }
  }

  /** The losing end of `dropped`: rescored and disconnected if connected. */
  lemma LoseEffect(a: Manager, op: Op, q: PeerId, j: nat)
    requires Sound(a) && op.DroppedOp? && op.i < a.NumSets() && j < a.NumSets()
    ensures Act(a, op).next.data.Status(q, j) ==
            if q != op.p || j != op.i then a.data.Status(q, j)
            else if op.refused && op.p !in a.reserved[op.i].nodes then NotMember
            else if a.data.Connected(op.p, op.i) then NotConnected(op.stamp) else a.data.Status(q, j)
  {
    var e := a.data;
    if a.data.Connected(op.p, op.i) {
      var r := SaturatingAdd(a.data.Score(op.p), DISCONNECT_REPUTATION_CHANGE);
      SetScoreEffect(a.data, op.p, r);
      CutEffect(a.data.SetScore(op.p, r), op.p, op.i, op.stamp);
      e := Cut(a.data.SetScore(op.p, r), op.p, op.i, op.stamp);
    }
    if op.refused && op.p !in a.reserved[op.i].nodes && e.Status(op.p, op.i) != NotMember {
      ForgetEffect(e, op.p, op.i);
    }
  }

  /** For every operation, peer and set: the membership after the call, from the state before it. */
  lemma StepStatus(m: Manager, op: Op, q: PeerId, j: nat)
    requires Sound(m) && Legal(m, op) && j < m.NumSets()
    ensures Step(m, op).next.data.Status(q, j) == StatusAfter(m, op, q, j)
  {
    match op
    case RemoveReservedOp(_, _, _) => ReservedStatus(m, op, q, j);
    case SetReservedOnlyOp(_, _, _, _) => ReservedStatus(m, op, q, j);
    case ReportOp(_, _, _, _) => ReportStatus(m, op, q, j);
    case IncomingOp(_, _, _, _, _) =>
      BaseFacts(m, op);
      BaseMeans(m, op, op.p, op.i);
      BaseMeans(m, op, q, j);
      AdmitEffect(Base(m, op), op, q, j);
    case DroppedOp(_, _, _, _, _) =>
      BaseFacts(m, op);
      BaseMeans(m, op, q, j);
      LoseEffect(Base(m, op), op, q, j);
    case _ => SmallStatus(m, op, q, j);
  }

  // ----- scores and reserved sets ---------------------------------------------------------------------

  /** For every operation and peer: only a report and a lost connection change a score, beyond the passage
      of time, and they change it by what they say, within 32 bits. */
  lemma StepScore(m: Manager, op: Op, q: PeerId)
    requires Sound(m) && Legal(m, op)
    ensures Step(m, op).next.data.Score(q) ==
            (if op.ReportOp? && q == op.p then SaturatingAdd(ScoreThen(m, op, q), op.change)
             else if op.DroppedOp? && q == op.p && m.data.Connected(q, op.i)
             then SaturatingAdd(ScoreThen(m, op, q), DISCONNECT_REPUTATION_CHANGE)
             else ScoreThen(m, op, q))
  {
    BaseFacts(m, op);
    BaseMeans(m, op, q, if op.DroppedOp? then op.i else 0);
    var a := Base(m, op);
    if op.ReportOp? {
      ReportGood(a, op);
    } else if op.DroppedOp? {
      DroppedGood(a, op);
    } else {
      ActScores(a, op);
    }
  }

  /** For every operation and set: who is reserved in it, and whether it admits others, after the call. */
  lemma StepReserved(m: Manager, op: Op, j: nat)
    requires Sound(m) && Legal(m, op) && j < m.NumSets()
    ensures |Step(m, op).next.reserved| == m.NumSets()
    ensures var r := Step(m, op).next.reserved[j];
            && r.nodes == (if op.AddReservedOp? && j == op.i then m.reserved[j].nodes + {op.p}
                           else if op.RemoveReservedOp? && j == op.i then m.reserved[j].nodes - {op.p}
                           else m.reserved[j].nodes)
            && r.only == (if op.SetReservedOnlyOp? && j == op.i then op.only else m.reserved[j].only)
  {
    BaseFacts(m, op);
  }

  // ----- messages ------------------------------------------------------------------------------------------

  lemma {:induction false} OnlyDrops(d: Peers, p: PeerId, k: nat)
    ensures forall x | x in DropsBelow(d, p, k) :: x.Drop? && x.peer == p
  {
    if k > 0 {
      OnlyDrops(d, p, k - 1);
    }
  }

  /** For every operation: the messages it queues. Reports and the switch to reserved-only queue nothing but
      Drops, as many as the balance of messages and connections asks for. */
  lemma StepMessages(m: Manager, op: Op)
    requires Sound(m) && Legal(m, op)
    ensures var out := Step(m, op).out;
            match op
            case RemoveReservedOp(i, p, _) =>
              out == if p in m.reserved[i].nodes && m.reserved[i].only && m.data.Connected(p, i) then [Drop(i, p)] else []
            case RemoveFromSetOp(i, p) =>
              out == if p !in m.reserved[i].nodes && m.data.Connected(p, i) then [Drop(i, p)] else []
            case ConnectOp(p) => out == [Connect(0, p)]
            case IncomingOp(i, p, index, _, _) =>
              out == if m.data.Connected(p, i) then [] else if Accepts(m, op) then [Accept(index)] else [Reject(index)]
            case ReportOp(p, _, _, _) => forall x | x in out :: x.Drop? && x.peer == p
            case SetReservedOnlyOp(i, _, _, _) => forall x | x in out :: x.Drop? && x.set_ == i
            case _ => out == []
  {
    match op
    case IncomingOp(_, _, _, _, _) => IncomingAnswered(m, op);
    case ReportOp(p, change, _, _) =>
      var a := Base(m, op);
      OnlyDrops(a.data.SetScore(p, SaturatingAdd(a.data.Score(p), change)), p, m.NumSets());
    case DroppedOp(i, p, _, _, stamp) =>
      BaseFacts(m, op);
      var a := Base(m, op);
      var r := SaturatingAdd(a.data.Score(p), DISCONNECT_REPUTATION_CHANGE);
      SetScoreEffect(a.data, p, r);
      CutEffect(a.data.SetScore(p, r), p, i, stamp);
    case _ =>
  }
}
