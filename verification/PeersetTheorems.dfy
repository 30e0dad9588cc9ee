/** The main results about the peer set manager, for every operation and every run. */
module PeersetTheorems {
  import opened Reputation
  import opened PeersState
  import opened PeersetModel
  import opened PeersetAging
  import opened PeersetRuns

  /** One operation, on scores brought up to date where it does so. */
  ghost function Step(m: Manager, op: Op): (o: Outcome)
    requires Sound(m) && Legal(m, op)
    ensures Sound(o.next)
  {
    BaseFacts(m, op);
    ActGood(Base(m, op), op);
    Act(Base(m, op), op)
  }

  /** `a` is `m` with scores and memberships aged: same sets, same connections. */
  ghost predicate Aged(m: Manager, a: Manager) {
    && a.reserved == m.reserved && a.data.sets == m.data.sets
    && a.created == m.created && a.latest >= m.latest
    && (forall p, i :: a.data.Connected(p, i) <==> m.data.Connected(p, i))
    && (forall p, i | a.data.Connected(p, i) :: a.data.Status(p, i) == m.data.Status(p, i))
  }

  lemma BaseFacts(m: Manager, op: Op)
    requires Sound(m) && Legal(m, op)
    ensures Sound(Base(m, op)) && Aged(m, Base(m, op)) && Legal(Base(m, op), op)
  {
    if op.ReportOp? || op.IncomingOp? || op.DroppedOp? || op.TimeOp? {
      AgeFacts(m, op.now);
    }
  }

  lemma Rebase(m: Manager, a: Manager, op: Op, o: Outcome)
    requires |m.reserved| == m.NumSets() && Aged(m, a)
    requires Bounded(a, op, o.next) && Balanced(a, op, o) && NoNewOut(a, o.next)
    ensures Bounded(m, op, o.next) && Balanced(m, op, o) && NoNewOut(m, o.next)
  {
    forall i, p | 0 <= i < m.NumSets()
      ensures Flag(m, i, p) == Flag(a, i, p) && Delta(m, op, o.out, i, p) == Delta(a, op, o.out, i, p)
    {
      assert a.data.Connected(p, i) <==> m.data.Connected(p, i);
    }
    forall i | 0 <= i < m.NumSets()
      ensures Hit(m, op, i) == Hit(a, op, i)
    {
      if op.RemoveReservedOp? {
        assert a.data.Connected(op.p, i) <==> m.data.Connected(op.p, i);
      }
    }
  }

  lemma ActGood(m: Manager, op: Op)
    requires Sound(m) && Legal(m, op)
    ensures Sound(Act(m, op).next) && Bounded(m, op, Act(m, op).next)
    ensures Balanced(m, op, Act(m, op)) && NoNewOut(m, Act(m, op).next)
  {
    match op
    case AddReservedOp(_, _) => AddReservedGood(m, op);
    case RemoveReservedOp(_, _, _) => RemoveReservedGood(m, op);
    case SetReservedOnlyOp(_, _, _, _) => SetReservedOnlyGood(m, op);
    case AddToSetOp(_, _, _) => AddToSetGood(m, op);
    case RemoveFromSetOp(_, _) => RemoveFromSetGood(m, op);
    case ReportOp(_, _, _, _) => ReportGood(m, op);
    case QueryOp(_) => QueryGood(m, op);
    case ConnectOp(_) =>
    case IncomingOp(_, _, _, _, _) => IncomingGood(m, op);
    case DroppedOp(_, _, _, _, _) => DroppedGood(m, op);
    case TimeOp(_) =>
  }

  /** Every operation keeps the state invariant, the balance of messages and the slot bound. */
  lemma StepGood(m: Manager, op: Op)
    requires Sound(m) && Legal(m, op)
    ensures Sound(Step(m, op).next)
    ensures Bounded(m, op, Step(m, op).next) && Balanced(m, op, Step(m, op)) && NoNewOut(m, Step(m, op).next)
  {
    BaseFacts(m, op);
    var a := Base(m, op);
    ActGood(a, op);
    Rebase(m, a, op, Act(a, op));
  }

  lemma StepInv(m: Manager, op: Op)
    requires Ok(m) && Legal(m, op)
    ensures Step(m, op).next.data.Inv()
  {
    BaseFacts(m, op);
    if op.ReportOp? || op.IncomingOp? || op.DroppedOp? || op.TimeOp? {
      AgeInv(m, op.now);
    }
    ActInv(Base(m, op), op);
  }

  lemma StepClock(m: Manager, op: Op)
    requires Sound(m) && Legal(m, op)
    ensures Step(m, op).next.latest ==
            if op.ReportOp? || op.IncomingOp? || op.DroppedOp? || op.TimeOp? then op.now else m.latest
  {
  }

  // ----- runs ----------------------------------------------------------------------------------

  ghost predicate LegalRun(m: Manager, ops: seq<Op>)
    requires Sound(m)
    decreases |ops|
  {
    ops == [] || (Legal(m, ops[0]) && LegalRun(Step(m, ops[0]).next, ops[1..]))
  }

  /** The final state of a run and everything it queued. */
  ghost function Exec(m: Manager, ops: seq<Op>): Outcome
    requires Sound(m) && LegalRun(m, ops)
    decreases |ops|
  {
    if ops == [] then Outcome(m, [])
    else
      var o := Step(m, ops[0]);
      var rest := Exec(o.next, ops[1..]);
      Outcome(rest.next, o.out + rest.out)
  }

  /** Accepts minus drops minus reported losses for (`i`, `p`) over a run. */
  ghost function Ledger(m: Manager, ops: seq<Op>, i: nat, p: PeerId): int
    requires Sound(m) && LegalRun(m, ops)
    decreases |ops|
  {
    if ops == [] then 0
    else
      var o := Step(m, ops[0]);
      Delta(m, ops[0], o.out, i, p) + Ledger(o.next, ops[1..], i, p)
  }

  /** How often a run takes the slot-free status from a node connected through an In slot. */
  ghost function Hits(m: Manager, ops: seq<Op>, i: nat): int
    requires Sound(m) && LegalRun(m, ops) && i < m.NumSets()
    decreases |ops|
  {
    if ops == [] then 0
    else
      StepGood(m, ops[0]);
      Hit(m, ops[0], i) + Hits(Step(m, ops[0]).next, ops[1..], i)
  }

  /** Seconds of decay applied over a run. */
  ghost function Decay(m: Manager, ops: seq<Op>): int
    requires Sound(m) && LegalRun(m, ops)
    decreases |ops|
  {
    if ops == [] then 0
    else
      var op := ops[0];
      (if op.ReportOp? || op.IncomingOp? || op.DroppedOp? || op.TimeOp? then Elapsed(m, op.now) else 0)
      + Decay(Step(m, op).next, ops[1..])
  }

  lemma ExecCons(m: Manager, op: Op, ops: seq<Op>)
    requires Sound(m) && Legal(m, op) && LegalRun(Step(m, op).next, ops)
    ensures LegalRun(m, [op] + ops)
    ensures Exec(m, [op] + ops).next == Exec(Step(m, op).next, ops).next
    ensures Exec(m, [op] + ops).out == Step(m, op).out + Exec(Step(m, op).next, ops).out
  {
    assert ([op] + ops)[1..] == ops;
  }

  lemma {:induction false} ExecSnoc(m: Manager, ops: seq<Op>, op: Op)
    requires Sound(m) && LegalRun(m, ops) && Sound(Exec(m, ops).next) && Legal(Exec(m, ops).next, op)
    ensures LegalRun(m, ops + [op])
    ensures Exec(m, ops + [op]).next == Step(Exec(m, ops).next, op).next
    ensures Exec(m, ops + [op]).out == Exec(m, ops).out + Step(Exec(m, ops).next, op).out
    decreases |ops|
  {
    if ops == [] {
      StepGood(m, op);
      ExecCons(m, op, []);
      assert ops + [op] == [op] + [];
    } else {
      assert ops == [ops[0]] + ops[1..] && ops + [op] == [ops[0]] + (ops[1..] + [op]);
      var mid := Step(m, ops[0]).next;
      ExecCons(m, ops[0], ops[1..]);
      ExecSnoc(mid, ops[1..], op);
      ExecCons(m, ops[0], ops[1..] + [op]);
      Regroup(Step(m, ops[0]).out, Exec(mid, ops[1..]).out, Step(Exec(m, ops).next, op).out);
    }
  }

  lemma Regroup(a: seq<Message>, b: seq<Message>, c: seq<Message>)
    ensures a + (b + c) == (a + b) + c
  {
  }

  /** For every run, set and peer: what was accepted and neither dropped nor reported lost is
      exactly what is connected. Started from a state without connections the ledger is
      therefore always 0 or 1, and equals the connected flag. */
  lemma {:induction false} LedgerIsConnectedFlag(m: Manager, ops: seq<Op>, i: nat, p: PeerId)
    requires Sound(m) && LegalRun(m, ops) && i < m.NumSets()
    ensures Exec(m, ops).next.NumSets() == m.NumSets()
    ensures Sound(Exec(m, ops).next)
    ensures Ledger(m, ops, i, p) == Flag(Exec(m, ops).next, i, p) - Flag(m, i, p)
    decreases |ops|
  {
    if ops != [] {
      StepGood(m, ops[0]);
      LedgerIsConnectedFlag(Step(m, ops[0]).next, ops[1..], i, p);
    }
  }

  /** The In slots of a set are exceeded only by nodes that lost their slot-free status while
      connected, and no run ever creates an outgoing connection. */
  lemma {:induction false} SlotsBounded(m: Manager, ops: seq<Op>, i: nat)
    requires Sound(m) && LegalRun(m, ops) && i < m.NumSets()
    ensures var n := Exec(m, ops).next;
            && n.NumSets() == m.NumSets()
            && n.data.sets[i].maxIn == m.data.sets[i].maxIn && n.data.sets[i].maxOut == m.data.sets[i].maxOut
            && n.data.sets[i].numIn <= Max(m.data.sets[i].numIn, m.data.sets[i].maxIn) + Hits(m, ops, i)
            && NoNewOut(m, n)
    decreases |ops|
  {
    if ops != [] {
      StepGood(m, ops[0]);
      SlotsBounded(Step(m, ops[0]).next, ops[1..], i);
    }
  }

  /** The seconds of decay applied over a run add up to the whole seconds since creation: no
      fraction is lost or counted twice, however the clock readings fall. */
  lemma {:induction false} DecayTelescopes(m: Manager, ops: seq<Op>)
    requires Sound(m) && LegalRun(m, ops)
    ensures var n := Exec(m, ops).next;
            && n.created == m.created <= n.latest
            && Decay(m, ops) == n.Seconds(n.latest) - m.Seconds(m.latest)
    decreases |ops|
  {
    if ops != [] {
      StepGood(m, ops[0]);
      StepClock(m, ops[0]);
      DecayTelescopes(Step(m, ops[0]).next, ops[1..]);
    }
  }

  /** In every state a run reaches, each node has one membership per set and the counters of
      every set equal the number of slot-taking nodes connected through it; hence they never
      fall below zero. */
  lemma {:induction false} RunKeepsCounters(m: Manager, ops: seq<Op>)
    requires Ok(m) && LegalRun(m, ops)
    ensures Ok(Exec(m, ops).next)
    decreases |ops|
  {
    if ops != [] {
      StepInv(m, ops[0]);
      RunKeepsCounters(Step(m, ops[0]).next, ops[1..]);
    }
  }

  // ----- answers to incoming connections ---------------------------------------------------------

  /** An incoming connection gets exactly one answer, carrying its own index, unless the peer
      is already connected, in which case it gets none. It is accepted exactly if the set is
      open to the peer, the peer is not banned, and there is a slot for it. */
  lemma IncomingAnswered(m: Manager, op: Op)
    requires Sound(m) && op.IncomingOp? && Legal(m, op)
    ensures var out := Step(m, op).out;
            && (m.data.Connected(op.p, op.i) ==> out == [])
            && (!m.data.Connected(op.p, op.i) ==> out == [Accept(op.index)] || out == [Reject(op.index)])
            && (out == [Accept(op.index)] <==>
                  && !m.data.Connected(op.p, op.i)
                  && (m.reserved[op.i].only ==> op.p in m.reserved[op.i].nodes)
                  && Ticks(m.data.Score(op.p), Elapsed(m, op.now)) >= BANNED_THRESHOLD
                  && (op.p in m.reserved[op.i].nodes || m.data.sets[op.i].numIn < m.data.sets[op.i].maxIn))
  {
    AgeFacts(m, op.now);
    DiscoverEffect(Age(m, op.now).data, op.p, op.i, op.stamp);
  }

  // ----- bans ------------------------------------------------------------------------------------

  /** No connected peer has a score below the ban threshold. */
  ghost predicate NoBannedConnected(m: Manager) {
    forall p, i | 0 <= i < m.NumSets() && m.data.Connected(p, i) :: m.data.Score(p) >= BANNED_THRESHOLD
  }

  /** Only reports and lost connections change scores. */
  lemma ActScores(m: Manager, op: Op)
    requires Sound(m) && Legal(m, op) && !op.ReportOp? && !op.DroppedOp?
    ensures ScoresKept(m, Act(m, op).next)
  {
    match op
    case AddReservedOp(_, _) => AddReservedGood(m, op);
    case RemoveReservedOp(_, _, _) => RemoveReservedGood(m, op);
    case SetReservedOnlyOp(_, _, _, _) => SetReservedOnlyGood(m, op);
    case AddToSetOp(_, _, _) => AddToSetGood(m, op);
    case RemoveFromSetOp(_, _) => RemoveFromSetGood(m, op);
    case QueryOp(_) => QueryGood(m, op);
    case ConnectOp(_) =>
    case IncomingOp(_, _, _, _, _) => IncomingGood(m, op);
    case TimeOp(_) =>
  }

  /** Time alone never bans anyone. */
  lemma AgingKeepsBans(m: Manager, op: Op)
    requires Sound(m) && Legal(m, op) && NoBannedConnected(m)
    ensures NoBannedConnected(Base(m, op))
  {
    if op.ReportOp? || op.IncomingOp? || op.DroppedOp? || op.TimeOp? {
      AgeFacts(m, op.now);
      forall p, i | 0 <= i < m.NumSets() && m.data.Connected(p, i)
        ensures Ticks(m.data.Score(p), Elapsed(m, op.now)) >= BANNED_THRESHOLD
      {
        assert IsI32(m.data.Score(p));
        TicksShrink(m.data.Score(p), Elapsed(m, op.now));
      }
    }
  }

  /** A report that takes a score below the threshold disconnects the peer from every set, with
      one drop for each set it was connected in, and touches no other peer's connections. */
  lemma ReportDisconnects(m: Manager, op: Op)
    requires Sound(m) && op.ReportOp? && Legal(m, op)
    ensures var r := SaturatingAdd(Ticks(m.data.Score(op.p), Elapsed(m, op.now)), op.change); var o := Step(m, op);
            && o.next.data.Score(op.p) == r
            && (forall q | q != op.p :: o.next.data.Score(q) == Ticks(m.data.Score(q), Elapsed(m, op.now)))
            && (forall q, i: nat :: o.next.data.Connected(q, i) <==>
                 m.data.Connected(q, i) && (q == op.p ==> r >= BANNED_THRESHOLD || i >= m.NumSets()))
            && forall q, i: nat :: multiset(o.out)[Drop(i, q)] ==
                 if q == op.p && i < m.NumSets() && r < BANNED_THRESHOLD && m.data.Connected(q, i) then 1 else 0
  {
    AgeFacts(m, op.now);
    ReportGood(Age(m, op.now), op);
  }

  lemma BansKeptByBalance(m: Manager, op: Op, o: Outcome)
    requires NoBannedConnected(m) && Balanced(m, op, o) && o.next.NumSets() == m.NumSets()
    requires ScoresKept(m, o.next)
    requires op.IncomingOp? && Accept(op.index) in o.out ==> m.data.Score(op.p) >= BANNED_THRESHOLD
    ensures NoBannedConnected(o.next)
  {
    forall p, i | 0 <= i < m.NumSets() && o.next.data.Connected(p, i)
      ensures o.next.data.Score(p) >= BANNED_THRESHOLD
    {
      assert Flag(o.next, i, p) == Flag(m, i, p) + Delta(m, op, o.out, i, p);
    }
  }

  lemma ReportKeepsBans(m: Manager, op: Op)
    requires Sound(m) && Legal(m, op) && NoBannedConnected(m) && op.ReportOp?
    ensures NoBannedConnected(Step(m, op).next)
  {
    AgingKeepsBans(m, op);
    AgeFacts(m, op.now);
    ReportDisconnects(m, op);
    StepGood(m, op);
  }

  /** Every operation other than `dropped` keeps banned peers disconnected. */
  lemma BansKept(m: Manager, op: Op)
    requires Sound(m) && Legal(m, op) && NoBannedConnected(m) && !op.DroppedOp?
    ensures NoBannedConnected(Step(m, op).next)
  {
    if op.ReportOp? {
      ReportKeepsBans(m, op);
    } else {
      var a := Base(m, op);
      BaseFacts(m, op);
      AgingKeepsBans(m, op);
      assert Legal(a, op);
      ActScores(a, op);
      ActGood(a, op);
      if op.IncomingOp? {
        AgeFacts(m, op.now);
        IncomingAnswered(m, op);
      }
      BansKeptByBalance(a, op, Act(a, op));
    }
  }

  /** `dropped` leaves a banned peer connected exactly if the penalty takes the score of a peer
      that is still connected through another set below the threshold. */
  lemma DroppedKeepsBansIff(m: Manager, op: Op)
    requires Sound(m) && Legal(m, op) && NoBannedConnected(m) && op.DroppedOp?
    ensures NoBannedConnected(Step(m, op).next) <==>
            !(&& m.data.Connected(op.p, op.i)
              && Ticks(m.data.Score(op.p), Elapsed(m, op.now)) + DISCONNECT_REPUTATION_CHANGE < BANNED_THRESHOLD
              && exists j | 0 <= j < m.NumSets() :: j != op.i && m.data.Connected(op.p, j))
  {
    AgeFacts(m, op.now);
    AgingKeepsBans(m, op);
    var a := Age(m, op.now);
    DroppedGood(a, op);
    assert BANNED_THRESHOLD > I32_MIN + 256;
  }

  /** With one set, or for every peer other than the one that was dropped, `dropped` is safe too. */
  lemma DroppedSafeForOthers(m: Manager, op: Op)
    requires Sound(m) && Legal(m, op) && NoBannedConnected(m) && op.DroppedOp?
    ensures forall p, i | 0 <= i < m.NumSets() && p != op.p && Step(m, op).next.data.Connected(p, i) ::
              Step(m, op).next.data.Score(p) >= BANNED_THRESHOLD
    ensures m.NumSets() == 1 ==> NoBannedConnected(Step(m, op).next)
  {
    AgeFacts(m, op.now);
    AgingKeepsBans(m, op);
    DroppedGood(Age(m, op.now), op);
    DroppedKeepsBansIff(m, op);
  }

  /** Two sets, one peer connected in both at the ban threshold: dropping one connection leaves
      the other connected to a banned peer. */
  lemma DroppedCanLeaveBannedConnected()
    ensures exists m: Manager, op: Op ::
              Ok(m) && op.DroppedOp? && Legal(m, op) && NoBannedConnected(m) && !NoBannedConnected(Step(m, op).next)
  {
    var info := SetInfo(1, 0, 25, 25, {});
    var m := Manager(Peers(map[7 := Node([In, In], BANNED_THRESHOLD)], [info, info]),
                     [Reserved({}, false), Reserved({}, false)], 0, 0);
    var op := DroppedOp(0, 7, false, 0, 0);
    assert m.data.Occupants(0, In) == {7} && m.data.Occupants(1, In) == {7};
    assert m.data.Occupants(0, Out) == {} && m.data.Occupants(1, Out) == {};
    MemberNotBlank(m.data.nodes[7], 0);
    assert Ok(m);
    assert m.data.Connected(7, 1);
    DroppedKeepsBansIff(m, op);
  }
}
