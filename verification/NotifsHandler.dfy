/** The connection handler of the notification protocols: one state machine per protocol, a
    shared queue of events, and the polling of substreams. */
module NotifsHandler {
  import opened Wrappers
  import opened InSubstream

  datatype State =
    | Closed(pendingOpening: bool)
    | OpenDesiredByRemote(sub: Substream, pendingOpening: bool)
    | Opening(inSub: Option<Substream>)
    | Open(out: bool, inSub: Option<Substream>)

  datatype Event =
    | SubstreamRequest(i: nat)
    | OpenResultOk(i: nat)
    | OpenResultErr(i: nat)
    | CloseResult(i: nat)
    | OpenDesired(i: nat)
    | CloseDesired(i: nat)
    | Notification(i: nat, msg: Bytes)
    | CloseConnection

  /** What the world answers for one protocol during one poll: a `ForceClose` waiting in the
      sink, a failure to flush the outbound substream, and the inbound socket. */
  datatype Io = Io(forceClose: bool, flushFails: bool, socket: Socket)

  // ----- transitions of one protocol ---------------------------------------------------------

  function OnInbound(i: nat, st: State, received: Bytes, ours: Bytes): (State, seq<Event>) {
    var sub := Negotiated(received);
    match st
    case Closed(pending) => (State.OpenDesiredByRemote(sub, pending), [OpenDesired(i)])
    case OpenDesiredByRemote(_, _) => (st, [])
    case Opening(cur) => if cur.Some? then (st, []) else (Opening(Some(SendHandshake(sub, ours))), [])
    case Open(out, cur) => if cur.Some? then (st, []) else (Open(out, Some(SendHandshake(sub, ours))), [])
  }

  function OnOutbound(i: nat, st: State, ok: bool): (State, seq<Event>) {
    match st
    case Closed(_) => (Closed(false), [])
    case OpenDesiredByRemote(sub, _) => (State.OpenDesiredByRemote(sub, false), [])
    case Open(_, _) => (st, [])
    case Opening(cur) => if ok then (Open(true, cur), [OpenResultOk(i)]) else (Closed(false), [OpenResultErr(i)])
  }

  function OnOpen(i: nat, st: State): (State, seq<Event>) {
    match st
    case Closed(pending) => (Opening(None), if pending then [] else [SubstreamRequest(i)])
    case OpenDesiredByRemote(sub, pending) =>
      (Opening(Some(SendHandshake(sub, sub.received))), if pending then [] else [SubstreamRequest(i)])
    case _ => (st, [])
  }

  function OnClose(i: nat, st: State): (State, seq<Event>) {
    match st
    case Open(_, _) => (Closed(false), [CloseResult(i)])
    case Opening(_) => (Closed(true), [OpenResultErr(i), CloseResult(i)])
    case OpenDesiredByRemote(_, pending) => (Closed(pending), [CloseResult(i)])
    case Closed(_) => (st, [CloseResult(i)])
  }

  /** Polls the inbound substream; a substream that failed or ended is let go of at once. */
  function PollInbound(i: nat, st: State, io: Socket): (State, Option<Event>) {
    match st
    case Closed(_) => (st, None)
    case Opening(None) => (st, None)
    case Open(_, None) => (st, Some(CloseDesired(i)))
    case Open(out, Some(sub)) =>
      var (t, r) := Next(sub, io);
      (match r
       case Pending => (Open(out, Some(t)), None)
       case Message(msg) => (Open(out, Some(t)), Some(Notification(i, msg)))
       case _ => (Open(out, None), None))
    case OpenDesiredByRemote(sub, pending) =>
      var (t, r) := Process(sub, io);
      if r == Pending then (State.OpenDesiredByRemote(t, pending), None) else (Closed(pending), Some(CloseDesired(i)))
    case Opening(Some(sub)) =>
      var (t, r) := Process(sub, io);
      if r == Pending then (Opening(Some(t)), None) else (Opening(None), None)
  }

  // ----- the handler --------------------------------------------------------------------------

  datatype Handler = Handler(protocols: seq<State>, queue: seq<Event>)

  function HasOut(st: State): bool {
    st.Open? && st.out
  }

  /** Protocols from `i` on, looking for a `ForceClose` in a sink. */
  function ForcedFrom(ps: seq<State>, io: seq<Io>, i: nat): bool
    requires |io| == |ps| && i <= |ps|
    decreases |ps| - i
  {
    i < |ps| && ((HasOut(ps[i]) && io[i].forceClose) || ForcedFrom(ps, io, i + 1))
  }

  function FlushFrom(ps: seq<State>, io: seq<Io>, i: nat): (r: (seq<State>, Option<Event>))
    requires |io| == |ps| && i <= |ps|
    ensures |r.0| == |ps|
    decreases |ps| - i
  {
    if i == |ps| then (ps, None)
    else if HasOut(ps[i]) && io[i].flushFails then (ps[i := ps[i].(out := false)], Some(CloseDesired(i)))
    else FlushFrom(ps, io, i + 1)
  }

  function PollFrom(ps: seq<State>, io: seq<Io>, i: nat): (r: (seq<State>, Option<Event>))
    requires |io| == |ps| && i <= |ps|
    ensures |r.0| == |ps|
    decreases |ps| - i
  {
    if i == |ps| then (ps, None)
    else
      var (st, ev) := PollInbound(i, ps[i], io[i].socket);
      if ev.Some? then (ps[i := st], ev) else PollFrom(ps[i := st], io, i + 1)
  }

  /** Queued events first; only then the substreams. */
  function Poll(h: Handler, io: seq<Io>): (r: (Handler, Option<Event>))
    requires |io| == |h.protocols|
    ensures |r.0.protocols| == |h.protocols|
  {
    if h.queue != [] then (h.(queue := h.queue[1..]), Some(h.queue[0]))
    else if ForcedFrom(h.protocols, io, 0) then (h, Some(CloseConnection))
    else
      var (ps, ev) := FlushFrom(h.protocols, io, 0);
      if ev.Some? then (h.(protocols := ps), ev)
      else
        var (qs, ev') := PollFrom(ps, io, 0);
        (h.(protocols := qs), ev')
  }

  // ----- whose turn it is ---------------------------------------------------------------------

  /** Polling the inbound side of protocol `i` yields an event. */
  predicate Reports(i: nat, st: State, io: Io) {
    PollInbound(i, st, io.socket).1.Some?
  }

  /** The outbound side of a protocol ends the poll. */
  predicate Interrupts(st: State, io: Io) {
    HasOut(st) && (io.forceClose || io.flushFails)
  }

  /** A poll gets to the inbound side of protocol `j`: nothing is queued, no outbound side interrupts, and
      no protocol before `j` reports. */
  predicate Turn(h: Handler, io: seq<Io>, j: nat)
    requires |io| == |h.protocols|
  {
    && j < |h.protocols| && h.queue == []
    && (forall i | 0 <= i < |h.protocols| :: !Interrupts(h.protocols[i], io[i]))
    && (forall i | 0 <= i < j :: !Reports(i, h.protocols[i], io[i]))
  }

  lemma {:induction false} ForcedIff(ps: seq<State>, io: seq<Io>, i: nat)
    requires |io| == |ps| && i <= |ps|
    ensures ForcedFrom(ps, io, i) <==> exists k | i <= k < |ps| :: HasOut(ps[k]) && io[k].forceClose
    decreases |ps| - i
  {
    if i < |ps| {
      ForcedIff(ps, io, i + 1);
    }
  }

  lemma {:induction false} FlushIff(ps: seq<State>, io: seq<Io>, i: nat)
    requires |io| == |ps| && i <= |ps|
    ensures FlushFrom(ps, io, i).1.Some? <==> exists k | i <= k < |ps| :: HasOut(ps[k]) && io[k].flushFails
    ensures FlushFrom(ps, io, i).1.Some? ==> FlushFrom(ps, io, i).1.value.CloseDesired?
    ensures FlushFrom(ps, io, i).1.None? ==> FlushFrom(ps, io, i).0 == ps
    decreases |ps| - i
  {
    if i < |ps| {
      FlushIff(ps, io, i + 1);
    }
  }

  /** The handler as the object it is. */
  class NotifsHandler {
    var protocols: seq<State>
    var queue: seq<Event>

    function View(): Handler
      reads this
    {
      Handler(protocols, queue)
    }

    constructor (n: nat)
      ensures protocols == seq(n, _ => Closed(false)) && queue == []
    {
      protocols := seq(n, _ => Closed(false));
      queue := [];
    }

    method FullyNegotiatedInbound(i: nat, received: Bytes, ours: Bytes)
      requires i < |protocols|
      modifies this
      ensures protocols == old(protocols)[i := OnInbound(i, old(protocols)[i], received, ours).0]
      ensures queue == old(queue) + OnInbound(i, old(protocols)[i], received, ours).1
    {
      var sub := Negotiated(received);
      match protocols[i]
      case Closed(pending) =>
        queue := queue + [OpenDesired(i)];
        protocols := protocols[i := State.OpenDesiredByRemote(sub, pending)];
      case OpenDesiredByRemote(_, _) =>
      case Opening(cur) =>
        if cur.Some? {
          return;
        }
        sub := SendHandshake(sub, ours);
        protocols := protocols[i := Opening(Some(sub))];
      case Open(out, cur) =>
        if cur.Some? {
          return;
        }
        sub := SendHandshake(sub, ours);
        protocols := protocols[i := Open(out, Some(sub))];
    }

    /** The assertions in the code fire exactly outside this precondition. */
    method OutboundAnswered(i: nat, ok: bool)
      requires i < |protocols| && Outstanding(protocols[i]) == 1
      modifies this
      ensures protocols == old(protocols)[i := OnOutbound(i, old(protocols)[i], ok).0]
      ensures queue == old(queue) + OnOutbound(i, old(protocols)[i], ok).1
    {
      match protocols[i]
      case Closed(pending) =>
        assert pending;
        protocols := protocols[i := Closed(false)];
      case OpenDesiredByRemote(sub, pending) =>
        assert pending;
        protocols := protocols[i := State.OpenDesiredByRemote(sub, false)];
      case Opening(cur) =>
        if ok {
          protocols := protocols[i := Open(true, cur)];
          queue := queue + [OpenResultOk(i)];
        } else {
          protocols := protocols[i := Closed(false)];
          queue := queue + [OpenResultErr(i)];
        }
      case Open(_, _) =>
        assert false;
    }

    method CommandOpen(i: nat)
      requires i < |protocols| && (protocols[i].Closed? || protocols[i].OpenDesiredByRemote?)
      modifies this
      ensures protocols == old(protocols)[i := OnOpen(i, old(protocols)[i]).0]
      ensures queue == old(queue) + OnOpen(i, old(protocols)[i]).1
    {
      match protocols[i]
      case Closed(pending) =>
        if !pending {
          queue := queue + [SubstreamRequest(i)];
        }
        protocols := protocols[i := Opening(None)];
      case OpenDesiredByRemote(sub, pending) =>
        if !pending {
          queue := queue + [SubstreamRequest(i)];
        }
        protocols := protocols[i := Opening(Some(SendHandshake(sub, sub.received)))];
      case _ =>
        assert false;
    }

    method CommandClose(i: nat)
      requires i < |protocols|
      modifies this
      ensures protocols == old(protocols)[i := OnClose(i, old(protocols)[i]).0]
      ensures queue == old(queue) + OnClose(i, old(protocols)[i]).1
    {
      match protocols[i] {
        case Open(_, _) => protocols := protocols[i := Closed(false)];
        case Opening(_) =>
          protocols := protocols[i := Closed(true)];
          queue := queue + [OpenResultErr(i)];
        case OpenDesiredByRemote(_, pending) => protocols := protocols[i := Closed(pending)];
        case Closed(_) =>
      }
      queue := queue + [CloseResult(i)];
    }

    /** One poll. It gets to the inbound sides of exactly the protocols `polled`. */
    method PollOnce(io: seq<Io>) returns (ev: Option<Event>, ghost polled: set<nat>)
      requires |io| == |protocols|
      modifies this
      ensures (View(), ev) == Poll(old(View()), io)
      ensures forall j :: j in polled <==> Turn(old(View()), io, j)
    {
      polled := {};
      if queue != [] {
        ev := Some(queue[0]);
        queue := queue[1..];
        return;
      }
      var i := 0;
      while i < |protocols|
        invariant 0 <= i <= |protocols| && View() == old(View())
        invariant ForcedFrom(protocols, io, i) == ForcedFrom(protocols, io, 0)
      {
        if HasOut(protocols[i]) && io[i].forceClose {
          assert Interrupts(protocols[i], io[i]);
          return Some(CloseConnection), {};
        }
        i := i + 1;
      }
      i := 0;
      while i < |protocols|
        invariant 0 <= i <= |protocols| && View() == old(View())
        invariant FlushFrom(protocols, io, i) == FlushFrom(protocols, io, 0)
      {
        if HasOut(protocols[i]) && io[i].flushFails {
          assert Interrupts(protocols[i], io[i]);
          protocols := protocols[i := protocols[i].(out := false)];
          return Some(CloseDesired(i)), {};
        }
        i := i + 1;
      }
      i := 0;
      ghost var ps := protocols;
      ForcedIff(ps, io, 0);
      FlushIff(ps, io, 0);
      while i < |protocols|
        invariant 0 <= i <= |protocols| == |io| && |ps| == |io| && queue == []
        invariant PollFrom(protocols, io, i) == PollFrom(ps, io, 0)
        invariant forall j | i <= j < |ps| :: protocols[j] == ps[j]
        invariant forall j | 0 <= j < i :: !Reports(j, ps[j], io[j])
        invariant forall j :: j in polled <==> 0 <= j < i
      {
        assert protocols == protocols[i := protocols[i]];
        polled := polled + {i};
        match protocols[i] {
          case Closed(_) =>
          case Opening(None) =>
          case Open(_, None) =>
            assert Reports(i, ps[i], io[i]);
            return Some(CloseDesired(i)), polled;
          case Open(out, Some(sub)) =>
            var t, r := PollNext(sub, io[i].socket);
            match r {
              case Pending => protocols := protocols[i := Open(out, Some(t))];
              case Message(msg) =>
                protocols := protocols[i := Open(out, Some(t))];
                assert Reports(i, ps[i], io[i]);
                return Some(Notification(i, msg)), polled;
              case _ => protocols := protocols[i := Open(out, None)];
            }
          case OpenDesiredByRemote(sub, pending) =>
            var t, r := PollProcess(sub, io[i].socket);
            if r != Pending {
              protocols := protocols[i := Closed(pending)];
              assert Reports(i, ps[i], io[i]);
              return Some(CloseDesired(i)), polled;
            }
            protocols := protocols[i := State.OpenDesiredByRemote(t, pending)];
          case Opening(Some(sub)) =>
            var t, r := PollProcess(sub, io[i].socket);
            protocols := protocols[i := Opening(if r == Pending then Some(t) else None)];
        }
        i := i + 1;
      }
      return None, polled;
    }
  }

  /** Outbound substream requests of a protocol that still await their answer. */
  function Outstanding(st: State): nat {
    match st
    case Opening(_) => 1
    case Open(_, _) => 0
    case Closed(pending) => if pending then 1 else 0
    case OpenDesiredByRemote(_, pending) => if pending then 1 else 0
  }
}
