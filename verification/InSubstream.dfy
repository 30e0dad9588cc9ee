/** An inbound notification substream and the handshake we owe the remote before reading it. */
module InSubstream {
  type Bytes = seq<bv8>

  datatype Handshake =
    | NotSent
    | PendingSend(msg: Bytes)
    | Flush
    | Sent
    | ClosingInResponseToRemote
    | BothSidesClosed

  datatype Ack = Done | Wait | Broken
  datatype Item = Frame(msg: Bytes) | Garbled | EndOfStream | Nothing

  /** What the socket answers if asked during one poll; each question is asked at most once. */
  datatype Socket = Socket(ready: bool, accepts: bool, flush: Ack, next: Item, close: Ack)

  datatype Progress = Pending | Message(msg: Bytes) | Failed | Ended

  /** `flushed` records that the socket confirmed our handshake; it influences nothing. */
  datatype Substream = Substream(handshake: Handshake, received: Bytes, flushed: bool)

  /** What the upgrade hands over: the remote's handshake is in, ours is not. */
  function Negotiated(received: Bytes): Substream {
    Substream(NotSent, received, false)
  }

  /** Sending twice is refused and changes nothing. */
  function SendHandshake(s: Substream, msg: Bytes): Substream {
    if s.handshake == NotSent then s.(handshake := PendingSend(msg)) else s
  }

  /** Position in the life of a substream. */
  function Rank(h: Handshake): nat {
    match h
    case NotSent => 0
    case PendingSend(_) => 1
    case Flush => 2
    case Sent => 3
    case ClosingInResponseToRemote => 4
    case BothSidesClosed => 5
  }

  // ----- what one poll amounts to -------------------------------------------------------------

  function Flushing(s: Substream, io: Socket): (Substream, Progress) {
    match io.flush
    case Done => (s.(handshake := Sent, flushed := true), Pending)
    case Wait => (s.(handshake := Flush), Pending)
    case Broken => (s.(handshake := Sent), Failed)
  }

  function Sending(s: Substream, io: Socket): (Substream, Progress) {
    if !io.ready then (s, Pending)
    else if !io.accepts then (s.(handshake := Flush), Failed)
    else Flushing(s, io)
  }

  /** Drives the handshake as far as the socket allows, and reads nothing. */
  function Process(s: Substream, io: Socket): (Substream, Progress) {
    match s.handshake
    case PendingSend(_) => Sending(s, io)
    case Flush => Flushing(s, io)
    case _ => (s, Pending)
  }

  function Closing(s: Substream, io: Socket): (Substream, Progress) {
    match io.close
    case Done => (s.(handshake := Sent), Ended)
    case Wait => (s.(handshake := ClosingInResponseToRemote), Pending)
    case Broken => (s.(handshake := Sent), Failed)
  }

  function Reading(s: Substream, io: Socket): (Substream, Progress) {
    match io.next
    case Frame(msg) => (s.(handshake := Sent), Message(msg))
    case Garbled => (s.(handshake := Sent), Failed)
    case Nothing => (s.(handshake := Sent), Pending)
    case EndOfStream => Closing(s, io)
  }

  /** Drives the handshake, then reads. */
  function Next(s: Substream, io: Socket): (Substream, Progress) {
    match s.handshake
    case NotSent => (s, Pending)
    case Sent => Reading(s, io)
    case ClosingInResponseToRemote => Closing(s, io)
    case BothSidesClosed => (s.(handshake := Sent), Ended)
    case _ =>
      var (t, r) := Process(s, io);
      if r == Pending && t.handshake == Sent then Reading(t, io) else (t, r)
  }

  // ----- the polls, as the loops they are ------------------------------------------------------

  /** The loop over the handshake state strictly advances, so it ends. */
  method PollProcess(s: Substream, io: Socket) returns (t: Substream, r: Progress)
    ensures (t, r) == Process(s, io)
  {
    t := s;
    while true
      invariant Rank(s.handshake) <= Rank(t.handshake)
      invariant Process(t, io) == Process(s, io)
      decreases 5 - Rank(t.handshake)
    {
      var taken := t.handshake;
      t := t.(handshake := Sent);
      match taken
      case PendingSend(msg) =>
        if !io.ready {
          t := t.(handshake := PendingSend(msg));
          return t, Pending;
        }
        t := t.(handshake := Flush);
        if !io.accepts {
          return t, Failed;
        }
      case Flush =>
        match io.flush {
          case Broken => return t, Failed;
          case Done => t := t.(handshake := Sent, flushed := true);
          case Wait =>
            t := t.(handshake := Flush);
            return t, Pending;
        }
      case st =>
        t := t.(handshake := st);
        return t, Pending;
    }
  }

  method PollNext(s: Substream, io: Socket) returns (t: Substream, r: Progress)
    ensures (t, r) == Next(s, io)
  {
    t := s;
    while true
      invariant Rank(s.handshake) <= Rank(t.handshake)
      invariant Next(t, io) == Next(s, io)
      decreases 5 - Rank(t.handshake)
    {
      var taken := t.handshake;
      t := t.(handshake := Sent);
      match taken
      case NotSent =>
        t := t.(handshake := NotSent);
        return t, Pending;
      case PendingSend(msg) =>
        if !io.ready {
          t := t.(handshake := PendingSend(msg));
          return t, Pending;
        }
        t := t.(handshake := Flush);
        if !io.accepts {
          return t, Failed;
        }
      case Flush =>
        match io.flush {
          case Broken => return t, Failed;
          case Done => t := t.(handshake := Sent, flushed := true);
          case Wait =>
            t := t.(handshake := Flush);
            return t, Pending;
        }
      case Sent =>
        match io.next {
          case EndOfStream => t := t.(handshake := ClosingInResponseToRemote);
          case Frame(msg) => return t, Message(msg);
          case Garbled => return t, Failed;
          case Nothing => return t, Pending;
        }
      case ClosingInResponseToRemote =>
        match io.close {
          case Broken => return t, Failed;
          case Done => t := t.(handshake := BothSidesClosed);
          case Wait =>
            t := t.(handshake := ClosingInResponseToRemote);
            return t, Pending;
        }
      case BothSidesClosed => return t, Ended;
    }
  }

  // ----- what a poll yields ---------------------------------------------------------------------

  /** Our handshake is on its way out: the socket takes it now, or took it before. */
  predicate Takes(s: Substream, io: Socket) {
    s.handshake == Flush || (s.handshake.PendingSend? && io.ready && io.accepts)
  }

  /** The handshake cannot be sent. */
  predicate Breaks(s: Substream, io: Socket) {
    (s.handshake.PendingSend? && io.ready && !io.accepts) || (Takes(s, io) && io.flush == Broken)
  }

  /** The handshake is out, at the latest in this poll, so the socket is asked for a frame. */
  predicate Reads(s: Substream, io: Socket) {
    s.handshake == Sent || (Takes(s, io) && io.flush == Done)
  }

  /** The remote has closed its side, and we are closing ours. */
  predicate Closes(s: Substream, io: Socket) {
    s.handshake == ClosingInResponseToRemote || (Reads(s, io) && io.next == EndOfStream)
  }

  /** A poll yields a message exactly if it asks for a frame and gets one, and then that one; it ends exactly
      if both sides are closed, and fails exactly if sending, reading or closing does. */
  lemma NextMeans(s: Substream, io: Socket)
    ensures var r := Next(s, io).1;
            && (r.Message? <==> Reads(s, io) && io.next.Frame?) && (r.Message? ==> r.msg == io.next.msg)
            && (r == Ended <==> s.handshake == BothSidesClosed || (Closes(s, io) && io.close == Done))
            && (r == Failed <==> || Breaks(s, io) || (Reads(s, io) && io.next == Garbled)
                                 || (Closes(s, io) && io.close == Broken))
    ensures Process(s, io).1 == if Breaks(s, io) then Failed else Pending
  {
  }

  /** Where a poll that neither fails nor ends leaves the handshake: our message is handed over once, the flush
      is awaited, and then frames are read until the remote closes. */
  lemma HandshakeAfter(s: Substream, io: Socket)
    ensures !Breaks(s, io) ==>
              Process(s, io).0.handshake ==
              if Takes(s, io) then (if io.flush == Done then Sent else Flush) else s.handshake
    ensures Next(s, io).1 == Pending || Next(s, io).1.Message? ==>
              Next(s, io).0.handshake ==
              if Closes(s, io) then ClosingInResponseToRemote
              else if Reads(s, io) then Sent else if Takes(s, io) then Flush else s.handshake
    ensures Process(s, io).0.received == Next(s, io).0.received == s.received
  {
  }

  // ----- reading only after the handshake -------------------------------------------------------

  /** The state says the handshake went out exactly if the socket confirmed it. */
  predicate Healthy(s: Substream) {
    s.flushed <==> Rank(s.handshake) >= Rank(Sent)
  }

  /** While polls neither fail nor end the substream it stays healthy and never falls back,
      and a message is only ever handed out once the handshake was flushed. */
  lemma PollsKeepHealth(s: Substream, io: Socket)
    requires Healthy(s)
    ensures Process(s, io).1 == Pending ==> Healthy(Process(s, io).0)
    ensures Next(s, io).1 == Pending || Next(s, io).1.Message? ==> Healthy(Next(s, io).0)
    ensures Next(s, io).1.Message? ==> Next(s, io).0.flushed
    ensures Rank(Process(s, io).0.handshake) >= Rank(s.handshake)
    ensures Next(s, io).1 == Pending ==> Rank(Next(s, io).0.handshake) >= Rank(s.handshake)
    ensures Process(s, io).1 == Pending || Process(s, io).1 == Failed
    ensures s.handshake == NotSent ==> Process(s, io) == Next(s, io) == (s, Pending)
  {
  }

  /** A failed poll must be the last one: after a broken flush the state reads `Sent`, and the
      next poll would hand out messages although the remote never got our handshake. */
  lemma FailedSubstreamIsUnsafe(s: Substream, broken: Socket, msg: Bytes)
    requires Healthy(s) && s.handshake == Flush && broken.flush == Broken
    ensures Process(s, broken).1 == Failed == Next(s, broken).1
    ensures var t := Next(s, broken).0;
            Next(t, broken.(next := Frame(msg))).1 == Message(msg) && !Next(t, broken.(next := Frame(msg))).0.flushed
  {
  }
}
