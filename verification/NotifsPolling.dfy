/** What polls get to, what they let go of, and when they hand out messages. */
module NotifsPolling {
  import opened Wrappers
  import opened Counting
  import opened InSubstream
  import opened NotifsHandler
  import opened NotifsRuns

  /** The inbound substream a protocol holds. */
  function Held(st: State): Option<Substream> {
    match st
    case Closed(_) => None
    case OpenDesiredByRemote(sub, _) => Some(sub)
    case Opening(cur) => cur
    case Open(_, cur) => cur
  }

  /** A substream whose poll failed or ended is no longer held afterwards, so it is never polled
      again; any other stays held with its new state. */
  lemma DeadSubstreamReleased(i: nat, st: State, io: Socket)
    requires Disciplined(st) && Held(st).Some?
    ensures var (t, r) := if st.Open? then Next(Held(st).value, io) else Process(Held(st).value, io);
            Held(PollInbound(i, st, io).0) == if r == Failed || r == Ended then None else Some(t)
  {
    PollsKeepHealth(Held(st).value, io);
  }

  // ----- whose turn it is -------------------------------------------------------------------------------------

  lemma {:induction false} PollFromMeans(ps: seq<State>, io: seq<Io>, k: nat, j: nat)
    requires |io| == |ps| && k <= j < |ps|
    ensures var before := forall i | k <= i < j :: !Reports(i, ps[i], io[i]);
            && PollFrom(ps, io, k).0[j] == (if before then PollInbound(j, ps[j], io[j].socket).0 else ps[j])
            && (before && Reports(j, ps[j], io[j]) ==> PollFrom(ps, io, k).1 == PollInbound(j, ps[j], io[j].socket).1)
    decreases |ps| - k
  {
    var (st, ev) := PollInbound(k, ps[k], io[k].socket);
    if ev.None? {
      FirstKept(ps[k := st], io, k, k + 1);
      if k < j {
        PollFromMeans(ps[k := st], io, k + 1, j);
      }
    }
  }

  lemma {:induction false} FirstKept(ps: seq<State>, io: seq<Io>, i: nat, k: nat)
    requires |io| == |ps| && i < k <= |ps|
    ensures PollFrom(ps, io, k).0[i] == ps[i]
    decreases |ps| - k
  {
    if k < |ps| {
      FirstKept(ps[k := PollInbound(k, ps[k], io[k].socket).0], io, i, k + 1);
    }
  }

  /** The inbound side of a protocol is polled exactly in its turn: then its substream moves on, and what it
      reports is the event of the poll; otherwise its inbound side is left as it was. */
  lemma PollMeans(h: Handler, io: seq<Io>, j: nat)
    requires |io| == |h.protocols| && j < |h.protocols|
    ensures var st := h.protocols[j]; var after := Poll(h, io).0.protocols[j];
            && (Turn(h, io, j) ==> after == PollInbound(j, st, io[j].socket).0)
            && (Turn(h, io, j) && Reports(j, st, io[j]) ==> Poll(h, io).1 == PollInbound(j, st, io[j].socket).1)
            && (!Turn(h, io, j) ==> after == st || (st.Open? && after == st.(out := false)))
  {
    var ps := h.protocols;
    ForcedIff(ps, io, 0);
    FlushIff(ps, io, 0);
    if h.queue == [] && !ForcedFrom(ps, io, 0) {
      if FlushFrom(ps, io, 0).1.Some? {
        FlushOnly(ps, io, 0, j);
      } else {
        assert forall i | 0 <= i < |ps| :: !Interrupts(ps[i], io[i]);
        PollFromMeans(ps, io, 0, j);
      }
    }
  }

  lemma {:induction false} FlushOnly(ps: seq<State>, io: seq<Io>, k: nat, j: nat)
    requires |io| == |ps| && k <= |ps| && j < |ps|
    ensures var after := FlushFrom(ps, io, k).0[j]; after == ps[j] || (ps[j].Open? && after == ps[j].(out := false))
    decreases |ps| - k
  {
    if k < |ps| {
      FlushOnly(ps, io, k + 1, j);
    }
  }

  // ----- open without inbound substream -----------------------------------------------------------------------

  /** Open, with no inbound substream. */
  predicate Deaf(st: State) {
    st.Open? && st.inSub == None
  }

  /** A protocol without inbound substream is reported whenever its turn comes, and takes the turn of every
      protocol after it, whatever else is the case. */
  lemma DeafTakesTurns(h: Handler, io: seq<Io>, i: nat)
    requires |io| == |h.protocols| && i < |h.protocols| && Deaf(h.protocols[i])
    ensures Turn(h, io, i) ==> Poll(h, io).1 == Some(CloseDesired(i))
    ensures forall j | i < j < |h.protocols| :: !Turn(h, io, j)
  {
    assert Reports(i, h.protocols[i], io[i]);
    PollMeans(h, io, i);
  }

  /** It stays so until it is closed or gets an inbound substream, and then ends at once. */
  lemma DeafLasts(w: World, s: Step, i: nat)
    requires Inv(w) && Legal(w, s) && i < |w.h.protocols| && Deaf(w.h.protocols[i])
    ensures Deaf(Apply(w, s).h.protocols[i]) <==> s != CmdClose(i) && !(s.Inbound? && s.i == i)
  {
    match s
    case OutboundOk(_) => AnswerExpected(w, s);
    case OutboundErr(_) => AnswerExpected(w, s);
    case CmdOpen(_) => OpenFindsClosed(w, s);
    case PollStep(io) => PollMeans(w.h, io, i);
    case _ =>
  }

  /** In every run: from the moment a protocol is open without inbound substream, and for as long as it is
      neither closed nor given one, no poll gets to any protocol after it. */
  lemma {:induction false} DeafStarvesOthers(n: nat, steps: seq<Step>, m: nat, i: nat, j: nat, io: seq<Io>)
    requires LegalRun(Start(n), steps) && m <= |steps| && i < j < n && |io| == n
    requires LegalRun(Start(n), steps[..m]) && |Exec(Start(n), steps[..m]).h.protocols| == n
    requires Deaf(Exec(Start(n), steps[..m]).h.protocols[i])
    requires forall k | m <= k < |steps| :: steps[k] != CmdClose(i) && !(steps[k].Inbound? && steps[k].i == i)
    ensures var h := Exec(Start(n), steps).h; |h.protocols| == n && Deaf(h.protocols[i]) && !Turn(h, io, j)
    decreases |steps|
  {
    StartKeeps(n);
    RunKeeps(Start(n), steps);
    if m == |steps| {
      assert steps[..m] == steps;
    } else {
      var before := steps[..|steps| - 1];
      assert before[..m] == steps[..m];
      RunKeeps(Start(n), before);
      DeafStarvesOthers(n, before, m, i, j, io);
      DeafLasts(Exec(Start(n), before), steps[|steps| - 1], i);
    }
    DeafTakesTurns(Exec(Start(n), steps).h, io, i);
  }

  /** It is reached by opening a protocol that the remote has not opened. */
  lemma OpensDeaf(n: nat, i: nat, io: seq<Io>)
    requires i < n && |io| == n
    ensures var steps := [CmdOpen(i)] + [PollStep(io)] + [OutboundOk(i)];
            && LegalRun(Start(n), steps) && |Exec(Start(n), steps).h.protocols| == n
            && Deaf(Exec(Start(n), steps).h.protocols[i])
  {
    var s1 := [CmdOpen(i)];
    var s2 := s1 + [PollStep(io)];
    assert s1 == [] + [CmdOpen(i)];
    RunSnoc(Start(n), [], CmdOpen(i));
    var w1 := Exec(Start(n), s1);
    assert w1.h == Handler(Start(n).h.protocols[i := Opening(None)], [SubstreamRequest(i)]);
    RunSnoc(Start(n), s1, PollStep(io));
    var w2 := Exec(Start(n), s2);
    assert w2.h.protocols[i] == Opening(None) && w2.delivered == [SubstreamRequest(i)] && w2.steps == s2;
    OccOne(SubstreamRequest(i), SubstreamRequest(i));
    OccAbsent(s2, OutboundOk(i));
    OccAbsent(s2, OutboundErr(i));
    RunSnoc(Start(n), s2, OutboundOk(i));
  }

  // ----- events -------------------------------------------------------------------------------------------------

  /** What the inbound side of a protocol reports, and when: a lost inbound substream, a frame that was read
      from an open one, or a remote's request that broke down. */
  lemma ReportsMeans(i: nat, st: State, io: Io)
    ensures PollInbound(i, st, io.socket).1 ==
            (match st
             case Open(_, None) => Some(CloseDesired(i))
             case Open(_, Some(sub)) =>
               if Reads(sub, io.socket) && io.socket.next.Frame? then Some(Notification(i, io.socket.next.msg)) else None
             case OpenDesiredByRemote(sub, _) => if Breaks(sub, io.socket) then Some(CloseDesired(i)) else None
             case _ => None)
  {
    if Held(st).Some? {
      NextMeans(Held(st).value, io.socket);
    }
  }

  lemma {:induction false} PollFromSource(ps: seq<State>, io: seq<Io>, k: nat)
    requires |io| == |ps| && k <= |ps|
    ensures PollFrom(ps, io, k).1.Some? ==>
              exists r | k <= r < |ps| ::
                && Reports(r, ps[r], io[r]) && PollFrom(ps, io, k).1 == PollInbound(r, ps[r], io[r].socket).1
                && forall i | k <= i < r :: !Reports(i, ps[i], io[i])
    decreases |ps| - k
  {
    if k < |ps| {
      var (st, ev) := PollInbound(k, ps[k], io[k].socket);
      if ev.Some? {
        assert Reports(k, ps[k], io[k]);
      } else {
        PollFromSource(ps[k := st], io, k + 1);
      }
    }
  }

  /** The outbound side of protocol `k` cannot be flushed. */
  predicate Jams(h: Handler, io: seq<Io>, k: nat)
    requires |io| == |h.protocols|
  {
    k < |io| && HasOut(h.protocols[k]) && io[k].flushFails
  }

  predicate Forces(h: Handler, io: seq<Io>, k: nat)
    requires |io| == |h.protocols|
  {
    k < |io| && HasOut(h.protocols[k]) && io[k].forceClose
  }

  /** The event of a poll: the oldest one queued; else a forced close; else the first failed flush; else what
      the first protocol to report reports in its turn; and none if there is nothing of all this. */
  lemma PollEvent(h: Handler, io: seq<Io>)
    requires |io| == |h.protocols|
    ensures h.queue != [] ==> Poll(h, io).1 == Some(h.queue[0]) && Poll(h, io).0.queue == h.queue[1..]
    ensures h.queue == [] ==> Poll(h, io).0.queue == []
    ensures h.queue == [] && (exists k :: Forces(h, io, k)) ==> Poll(h, io).1 == Some(CloseConnection)
    ensures h.queue == [] && (forall k :: !Forces(h, io, k)) && (exists k :: Jams(h, io, k)) ==>
              exists k: nat :: Poll(h, io).1 == Some(CloseDesired(k)) && Jams(h, io, k) && forall i | 0 <= i < k :: !Jams(h, io, i)
    ensures h.queue == [] && (forall k :: !Forces(h, io, k) && !Jams(h, io, k)) && Poll(h, io).1.Some? ==>
              exists r | 0 <= r < |io| ::
                && Turn(h, io, r) && Reports(r, h.protocols[r], io[r])
                && Poll(h, io).1 == PollInbound(r, h.protocols[r], io[r].socket).1
    ensures Poll(h, io).1.None? ==>
              h.queue == [] && forall k | 0 <= k < |io| ::
                !Forces(h, io, k) && !Jams(h, io, k) && !Reports(k, h.protocols[k], io[k])
  {
    var ps := h.protocols;
    if h.queue == [] {
      ForcedIff(ps, io, 0);
      if ForcedFrom(ps, io, 0) {
        var k :| 0 <= k < |ps| && HasOut(ps[k]) && io[k].forceClose;
        assert Forces(h, io, k);
      } else {
        assert forall k :: !Forces(h, io, k);
        UnforcedEvent(h, io);
      }
    }
  }

  lemma UnforcedEvent(h: Handler, io: seq<Io>)
    requires |io| == |h.protocols| && h.queue == [] && !ForcedFrom(h.protocols, io, 0) && forall k :: !Forces(h, io, k)
    ensures (exists k :: Jams(h, io, k)) ==>
              exists k: nat :: Poll(h, io).1 == Some(CloseDesired(k)) && Jams(h, io, k) && forall i | 0 <= i < k :: !Jams(h, io, i)
    ensures (forall k :: !Jams(h, io, k)) && Poll(h, io).1.Some? ==>
              exists r | 0 <= r < |io| ::
                && Turn(h, io, r) && Reports(r, h.protocols[r], io[r])
                && Poll(h, io).1 == PollInbound(r, h.protocols[r], io[r].socket).1
    ensures Poll(h, io).1.None? ==>
              forall k | 0 <= k < |io| :: !Jams(h, io, k) && !Reports(k, h.protocols[k], io[k])
  {
    var ps := h.protocols;
    FlushIff(ps, io, 0);
    FlushSource(ps, io, 0);
    if FlushFrom(ps, io, 0).1.Some? {
      var k :| && 0 <= k < |ps| && HasOut(ps[k]) && io[k].flushFails && FlushFrom(ps, io, 0).1 == Some(CloseDesired(k))
               && forall i | 0 <= i < k :: !(HasOut(ps[i]) && io[i].flushFails);
      assert Jams(h, io, k) && forall i | 0 <= i < k :: !Jams(h, io, i);
    } else {
      assert forall k :: !Jams(h, io, k);
      assert forall i | 0 <= i < |ps| :: !Interrupts(ps[i], io[i]) by {
        forall i | 0 <= i < |ps|
          ensures !Interrupts(ps[i], io[i])
        {
          assert !Forces(h, io, i) && !Jams(h, io, i);
        }
      }
      PollFromSource(ps, io, 0);
      if Poll(h, io).1.None? {
        forall k | 0 <= k < |io|
          ensures !Reports(k, ps[k], io[k])
        {
          SilentReports(ps, io, 0, k);
        }
      }
    }
  }

  lemma {:induction false} SilentReports(ps: seq<State>, io: seq<Io>, k: nat, j: nat)
    requires |io| == |ps| && k <= j < |ps| && PollFrom(ps, io, k).1.None?
    ensures !Reports(j, ps[j], io[j])
    decreases |ps| - k
  {
    if k < j {
      SilentReports(ps[k := PollInbound(k, ps[k], io[k].socket).0], io, k + 1, j);
    }
  }

  lemma {:induction false} FlushSource(ps: seq<State>, io: seq<Io>, k: nat)
    requires |io| == |ps| && k <= |ps|
    ensures var e := FlushFrom(ps, io, k).1;
            e.Some? ==> exists i | k <= i < |ps| ::
                && HasOut(ps[i]) && io[i].flushFails && e == Some(CloseDesired(i))
                && FlushFrom(ps, io, k).0 == ps[i := ps[i].(out := false)]
                && forall j | k <= j < i :: !(HasOut(ps[j]) && io[j].flushFails)
    decreases |ps| - k
  {
    if k < |ps| {
      FlushSource(ps, io, k + 1);
    }
  }

  // ----- the outbound side ----------------------------------------------------------------------------------------

  /** A poll fails to flush the outbound side of protocol `i`, and gives it up. */
  ghost predicate GivesUp(h: Handler, io: seq<Io>, i: nat)
    requires |io| == |h.protocols|
  {
    && h.queue == [] && (forall k :: !Forces(h, io, k)) && Jams(h, io, i) && forall k | 0 <= k < i :: !Jams(h, io, k)
  }

  lemma PollKeepsOut(h: Handler, io: seq<Io>, i: nat)
    requires |io| == |h.protocols| && i < |io|
    ensures HasOut(Poll(h, io).0.protocols[i]) <==> HasOut(h.protocols[i]) && !GivesUp(h, io, i)
  {
    var ps := h.protocols;
    ForcedIff(ps, io, 0);
    FlushIff(ps, io, 0);
    FlushSource(ps, io, 0);
    if h.queue == [] {
      if ForcedFrom(ps, io, 0) {
        var k :| 0 <= k < |ps| && HasOut(ps[k]) && io[k].forceClose;
        assert Forces(h, io, k);
      } else if FlushFrom(ps, io, 0).1.Some? {
        var k :| && 0 <= k < |ps| && HasOut(ps[k]) && io[k].flushFails && FlushFrom(ps, io, 0).0 == ps[k := ps[k].(out := false)]
                 && forall j | 0 <= j < k :: !(HasOut(ps[j]) && io[j].flushFails);
        assert forall l :: !Forces(h, io, l);
        assert Jams(h, io, k) && forall l | 0 <= l < k :: !Jams(h, io, l);
      } else {
        assert !Jams(h, io, i);
        PollFromMeans(ps, io, 0, i);
      }
    }
  }

  /** For every legal step: an outbound substream is held from the answer that opens the protocol until the
      protocol is closed or a flush fails. */
  lemma OutboundHeld(w: World, s: Step, i: nat)
    requires Inv(w) && Legal(w, s) && i < |w.h.protocols|
    ensures HasOut(Apply(w, s).h.protocols[i]) <==>
            || (s == OutboundOk(i) && w.h.protocols[i].Opening?)
            || (HasOut(w.h.protocols[i]) && s != CmdClose(i) && !(s.PollStep? && GivesUp(w.h, s.io, i)))
  {
    match s
    case PollStep(io) => PollKeepsOut(w.h, io, i);
    case OutboundOk(_) => AnswerExpected(w, s);
    case OutboundErr(_) => AnswerExpected(w, s);
    case CmdOpen(_) => OpenFindsClosed(w, s);
    case _ =>
  }

  /** Protocol `j` is open and this poll reads the frame `msg` from its inbound substream. */
  predicate ReadsFrame(h: Handler, io: seq<Io>, j: nat, msg: Bytes)
    requires |io| == |h.protocols|
  {
    && Turn(h, io, j) && h.protocols[j].Open? && h.protocols[j].inSub.Some?
    && Reads(h.protocols[j].inSub.value, io[j].socket) && io[j].socket.next == Frame(msg)
  }

  /** With nothing queued, a poll reports a message exactly if it reads it: no frame that is read is dropped,
      changed or made up. */
  lemma NotifiesIff(h: Handler, io: seq<Io>, j: nat, msg: Bytes)
    requires |io| == |h.protocols| && h.queue == []
    ensures Poll(h, io).1 == Some(Notification(j, msg)) <==> ReadsFrame(h, io, j, msg)
  {
    if ReadsFrame(h, io, j, msg) {
      ReportsMeans(j, h.protocols[j], io[j]);
      PollMeans(h, io, j);
    }
    if Poll(h, io).1 == Some(Notification(j, msg)) {
      PollEvent(h, io);
      var r :| 0 <= r < |io| && Turn(h, io, r) && Poll(h, io).1 == PollInbound(r, h.protocols[r], io[r].socket).1;
      ReportsMeans(r, h.protocols[r], io[r]);
    }
  }

  // ----- messages over runs --------------------------------------------------------------------------------------

  /** The inbound substream of protocol `i` has had its handshake flushed. */
  predicate Flushed(h: Handler, i: nat) {
    i < |h.protocols| && Held(h.protocols[i]).Some? && Held(h.protocols[i]).value.flushed
  }

  lemma ReadFlushed(w: World, io: seq<Io>, j: nat, msg: Bytes)
    requires Inv(w) && |io| == |w.h.protocols| && ReadsFrame(w.h, io, j, msg)
    ensures Flushed(Poll(w.h, io).0, j)
  {
    var sub := w.h.protocols[j].inSub.value;
    assert Books(w, j);
    PollMeans(w.h, io, j);
    PollsKeepHealth(sub, io[j].socket);
    NextMeans(sub, io[j].socket);
  }

  /** What one step delivers. */
  lemma StepDelivers(w: World, s: Step)
    requires Inv(w) && Legal(w, s)
    ensures var v := Apply(w, s);
            v.delivered == w.delivered ||
            exists e :: && v.delivered == w.delivered + [e]
                        && (e.Notification? ==> s.PollStep? && ReadsFrame(w.h, s.io, e.i, e.msg) && Flushed(v.h, e.i))
  {
    if s.PollStep? {
      var ev := Poll(w.h, s.io).1;
      if w.h.queue != [] {
        assert w.h.queue[0] in w.h.queue;
      }
      if ev.Some? {
        var e := ev.value;
        assert Apply(w, s).delivered == w.delivered + [e];
        if e.Notification? {
          NotifiesIff(w.h, s.io, e.i, e.msg);
          ReadFlushed(w, s.io, e.i, e.msg);
        }
      }
    }
  }

  /** A frame that a poll reads is delivered by it. */
  lemma FrameDelivered(n: nat, steps: seq<Step>, io: seq<Io>, j: nat, msg: Bytes)
    requires LegalRun(Start(n), steps) && Legal(Exec(Start(n), steps), PollStep(io))
    requires ReadsFrame(Exec(Start(n), steps).h, io, j, msg)
    ensures var w := Exec(Start(n), steps); Apply(w, PollStep(io)).delivered == w.delivered + [Notification(j, msg)]
  {
    NotifiesIff(Exec(Start(n), steps).h, io, j, msg);
  }

  /** The notification at position `k` was delivered by a poll that read it as a frame, after which the
      handshake of its substream has been flushed. */
  ghost predicate DeliveredFrame(n: nat, steps: seq<Step>, delivered: seq<Event>, k: nat)
    requires k < |delivered| && delivered[k].Notification?
  {
    exists m | 0 <= m < |steps| :: DeliveredBy(n, steps, delivered, k, m)
  }

  ghost predicate DeliveredBy(n: nat, steps: seq<Step>, delivered: seq<Event>, k: nat, m: nat)
    requires k < |delivered| && delivered[k].Notification? && m < |steps|
  {
    && LegalRun(Start(n), steps[..m]) && Legal(Exec(Start(n), steps[..m]), steps[m]) && steps[m].PollStep?
    && var w := Exec(Start(n), steps[..m]);
    && w.delivered == delivered[..k]
    && ReadsFrame(w.h, steps[m].io, delivered[k].i, delivered[k].msg)
    && Flushed(Apply(w, steps[m]).h, delivered[k].i)
  }

  lemma StillDelivered(n: nat, steps: seq<Step>, then_: seq<Event>, now: seq<Event>, k: nat, m: nat)
    requires m < |steps| - 1 && k < |then_| && then_ <= now && then_[k].Notification?
    requires DeliveredBy(n, steps[..|steps| - 1], then_, k, m)
    ensures DeliveredBy(n, steps, now, k, m)
  {
    assert steps[..|steps| - 1][..m] == steps[..m] && now[..k] == then_[..k];
  }

  /** In every run, every notification is a frame that its poll read, delivered after the handshake of its
      substream was flushed. */
  lemma {:induction false} MessagesAreFrames(n: nat, steps: seq<Step>, k: nat)
    requires LegalRun(Start(n), steps) && k < |Exec(Start(n), steps).delivered|
    requires Exec(Start(n), steps).delivered[k].Notification?
    ensures DeliveredFrame(n, steps, Exec(Start(n), steps).delivered, k)
    decreases |steps|
  {
    var before, s := steps[..|steps| - 1], steps[|steps| - 1];
    var w, v := Exec(Start(n), before), Exec(Start(n), steps);
    StartKeeps(n);
    RunKeeps(Start(n), before);
    StepDelivers(w, s);
    if k < |w.delivered| {
      MessagesAreFrames(n, before, k);
      var m :| 0 <= m < |before| && DeliveredBy(n, before, w.delivered, k, m);
      StillDelivered(n, steps, w.delivered, v.delivered, k, m);
    } else {
      assert v.delivered[..k] == w.delivered;
      assert DeliveredBy(n, steps, v.delivered, k, |steps| - 1);
    }
  }

  // ----- offers of the remote -------------------------------------------------------------------------------------

  /** An inbound substream is kept if none is held: unanswered while the protocol is closed, and with our
      handshake queued if it is opening or open. A second one changes nothing. */
  lemma InboundMeans(i: nat, st: State, received: Bytes, ours: Bytes)
    ensures var (after, es) := OnInbound(i, st, received, ours);
            && Held(after) == (if Held(st).Some? then Held(st)
                               else Some(Substream(if st.Closed? then NotSent else PendingSend(ours), received, false)))
            && (after.Opening? <==> st.Opening?) && (after.Open? <==> st.Open?) && Outstanding(after) == Outstanding(st)
            && es == if st.Closed? then [OpenDesired(i)] else []
  {
  }

  /** How many inbound substreams came for protocol `i` while it was closed. */
  function Offers(w: World, steps: seq<Step>, i: nat): nat
    requires LegalRun(w, steps)
    decreases |steps|
  {
    if steps == [] then 0
    else
      var before, s := steps[..|steps| - 1], steps[|steps| - 1];
      Offers(w, before, i) + if s.Inbound? && s.i == i && Exec(w, before).h.protocols[i].Closed? then 1 else 0
  }

  lemma StepDesires(w: World, s: Step, i: nat)
    requires Inv(w) && Legal(w, s)
    ensures Occ(Apply(w, s).Emitted(), OpenDesired(i)) ==
            Occ(w.Emitted(), OpenDesired(i)) + if s.Inbound? && s.i == i && w.h.protocols[i].Closed? then 1 else 0
  {
    var v := Apply(w, s);
    if s.PollStep? {
      if w.h.queue != [] {
        assert v.Emitted() == w.Emitted();
      } else if Poll(w.h, s.io).1.Some? {
        var e := Poll(w.h, s.io).1.value;
        PollEvent(w.h, s.io);
        if exists r | 0 <= r < |s.io| :: Poll(w.h, s.io).1 == PollInbound(r, w.h.protocols[r], s.io[r].socket).1 {
          var r :| 0 <= r < |s.io| && Poll(w.h, s.io).1 == PollInbound(r, w.h.protocols[r], s.io[r].socket).1;
          ReportsMeans(r, w.h.protocols[r], s.io[r]);
        }
        assert v.Emitted() == w.Emitted() + [e] && !e.OpenDesired?;
        OccAppend(w.Emitted(), [e], OpenDesired(i));
        OccOne(e, OpenDesired(i));
      } else {
        assert v.Emitted() == w.Emitted();
      }
    } else {
      LocalDesires(w, s, i);
    }
  }

  lemma LocalDesires(w: World, s: Step, i: nat)
    requires Legal(w, s) && !s.PollStep?
    ensures Occ(Apply(w, s).Emitted(), OpenDesired(i)) ==
            Occ(w.Emitted(), OpenDesired(i)) + if s.Inbound? && s.i == i && w.h.protocols[i].Closed? then 1 else 0
  {
    var ps := w.h.protocols;
    match s
    case Inbound(k, received, ours) =>
      InboundMeans(k, ps[k], received, ours);
      QueuedDesires(w, Apply(w, s), k, OnInbound(k, ps[k], received, ours).1, i);
    case OutboundOk(k) => QueuedDesires(w, Apply(w, s), k, OnOutbound(k, ps[k], true).1, i);
    case OutboundErr(k) => QueuedDesires(w, Apply(w, s), k, OnOutbound(k, ps[k], false).1, i);
    case CmdOpen(k) => QueuedDesires(w, Apply(w, s), k, OnOpen(k, ps[k]).1, i);
    case CmdClose(k) => QueuedDesires(w, Apply(w, s), k, OnClose(k, ps[k]).1, i);
  }

  lemma QueuedDesires(w: World, v: World, k: nat, es: seq<Event>, i: nat)
    requires v.delivered == w.delivered && v.h.queue == w.h.queue + es
    requires es == [OpenDesired(k)] || forall e | e in es :: !e.OpenDesired?
    ensures Occ(v.Emitted(), OpenDesired(i)) ==
            Occ(w.Emitted(), OpenDesired(i)) + if i == k && es == [OpenDesired(k)] then 1 else 0
  {
    EmittedNext(w, v, es);
    OccAppend(w.Emitted(), es, OpenDesired(i));
    if es == [OpenDesired(k)] {
      OccOne(OpenDesired(k), OpenDesired(i));
    } else {
      OccAbsent(es, OpenDesired(i));
    }
  }

  /** In every run, the owner is told that the remote wants a protocol open exactly once for each inbound
      substream that finds it closed. */
  lemma {:induction false} DesiredPerOffer(n: nat, steps: seq<Step>, i: nat)
    requires LegalRun(Start(n), steps)
    ensures Occ(Exec(Start(n), steps).Emitted(), OpenDesired(i)) == Offers(Start(n), steps, i)
    decreases |steps|
  {
    if steps == [] {
      assert Start(n).Emitted() == [];
    } else {
      var before := steps[..|steps| - 1];
      DesiredPerOffer(n, before, i);
      StartKeeps(n);
      RunKeeps(Start(n), before);
      StepDesires(Exec(Start(n), before), steps[|steps| - 1], i);
    }
  }
}
