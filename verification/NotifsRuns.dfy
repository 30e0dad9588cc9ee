/** What holds over every run of the notifications handler, against an environment that answers
    each delivered substream request once and never opens what it still holds open. */
module NotifsRuns {
  import opened Wrappers
  import opened Counting
  import opened InSubstream
  import opened NotifsHandler

  datatype Step =
    | Inbound(i: nat, received: Bytes, ours: Bytes)
    | OutboundOk(i: nat)
    | OutboundErr(i: nat)
    | CmdOpen(i: nat)
    | CmdClose(i: nat)
    | PollStep(io: seq<Io>)

  /** A handler, the events delivered so far, the steps taken so far, and for each protocol
      whether its owner has reason to believe it open. */
  datatype World = World(h: Handler, delivered: seq<Event>, steps: seq<Step>, believed: seq<bool>) {
    function Emitted(): seq<Event> {
      delivered + h.queue
    }
  }

  function Start(n: nat): World {
    World(Handler(seq(n, _ => Closed(false)), []), [], [], seq(n, _ => false))
  }

  /** What the latest result among `es` says about protocol `i`, starting from `b`. */
  function Belief(b: bool, es: seq<Event>, i: nat): bool
    decreases |es|
  {
    if es == [] then b
    else
      var e := es[|es| - 1];
      if e == OpenResultOk(i) then true
      else if e == OpenResultErr(i) || e == CloseResult(i) then false
      else Belief(b, es[..|es| - 1], i)
  }

  function Answers(steps: seq<Step>, i: nat): nat {
    Occ(steps, OutboundOk(i)) + Occ(steps, OutboundErr(i))
  }

  function Results(es: seq<Event>, i: nat): nat {
    Occ(es, OpenResultOk(i)) + Occ(es, OpenResultErr(i))
  }

  /** The rules the environment obeys, in terms of what it sent and what was delivered to it. */
  predicate Legal(w: World, s: Step) {
    match s
    case Inbound(i, _, _) => i < |w.h.protocols|
    case OutboundOk(i) => i < |w.h.protocols| && Answers(w.steps, i) < Occ(w.delivered, SubstreamRequest(i))
    case OutboundErr(i) => i < |w.h.protocols| && Answers(w.steps, i) < Occ(w.delivered, SubstreamRequest(i))
    case CmdOpen(i) =>
      && i < |w.h.protocols| == |w.believed|
      && Occ(w.steps, CmdOpen(i)) == Results(w.delivered, i) && !w.believed[i]
    case CmdClose(i) => i < |w.h.protocols|
    case PollStep(io) => |io| == |w.h.protocols|
  }

  /** A transition of protocol `i` and the events it queues. */
  function Locally(w: World, s: Step, i: nat, r: (State, seq<Event>)): World
    requires i < |w.h.protocols|
  {
    w.(h := Handler(w.h.protocols[i := r.0], w.h.queue + r.1), steps := w.steps + [s])
  }

  function Learn(believed: seq<bool>, e: Event): seq<bool> {
    match e
    case OpenResultOk(i) => if i < |believed| then believed[i := true] else believed
    case OpenResultErr(i) => if i < |believed| then believed[i := false] else believed
    case CloseResult(i) => if i < |believed| then believed[i := false] else believed
    case _ => believed
  }

  function Apply(w: World, s: Step): World
    requires Legal(w, s)
  {
    var ps := w.h.protocols;
    match s
    case Inbound(i, received, ours) => Locally(w, s, i, OnInbound(i, ps[i], received, ours))
    case OutboundOk(i) => Locally(w, s, i, OnOutbound(i, ps[i], true))
    case OutboundErr(i) => Locally(w, s, i, OnOutbound(i, ps[i], false))
    case CmdOpen(i) => Locally(w, s, i, OnOpen(i, ps[i]))
    case CmdClose(i) =>
      var v := Locally(w, s, i, OnClose(i, ps[i]));
      v.(believed := if i < |w.believed| then w.believed[i := false] else w.believed)
    case PollStep(io) =>
      var (h, ev) := Poll(w.h, io);
      if ev.None? then w.(h := h, steps := w.steps + [s])
      else World(h, w.delivered + [ev.value], w.steps + [s], Learn(w.believed, ev.value))
  }

  // ----- the invariant ----------------------------------------------------------------------------

  /** Where each substream stands in its handshake. */
  predicate Disciplined(st: State) {
    match st
    case Closed(_) => true
    case OpenDesiredByRemote(sub, _) => sub.handshake == NotSent && Healthy(sub)
    case Opening(cur) => cur.Some? ==> cur.value.handshake != NotSent && Healthy(cur.value)
    case Open(_, cur) => cur.Some? ==> cur.value.handshake != NotSent && Healthy(cur.value)
  }

  /** What was emitted and received for one protocol, in numbers. */
  datatype Tally = Tally(requests: nat, answers: nat, opens: nat, results: nat, closes: nat, closeResults: nat)

  function Count(es: seq<Event>, steps: seq<Step>, i: nat): Tally {
    Tally(Occ(es, SubstreamRequest(i)), Answers(steps, i), Occ(steps, CmdOpen(i)), Results(es, i),
          Occ(steps, CmdClose(i)), Occ(es, CloseResult(i)))
  }

  function Plus(a: Tally, b: Tally): Tally {
    Tally(a.requests + b.requests, a.answers + b.answers, a.opens + b.opens, a.results + b.results,
          a.closes + b.closes, a.closeResults + b.closeResults)
  }

  const NOTHING := Tally(0, 0, 0, 0, 0, 0)

  /** Unanswered requests are exactly those the state knows of; every `Open` has its one result
      unless it is still opening; every `Close` has its one result. */
  predicate Balanced(st: State, t: Tally) {
    && t.requests == t.answers + Outstanding(st)
    && t.opens == t.results + (if st.Opening? then 1 else 0)
    && t.closes == t.closeResults
  }

  /** The books of protocol `i`. */
  predicate Books(w: World, i: nat)
    requires i < |w.h.protocols| == |w.believed|
  {
    var st := w.h.protocols[i];
    && Disciplined(st)
    && Balanced(st, Count(w.Emitted(), w.steps, i))
    && (Belief(false, w.Emitted(), i) <==> st.Open?)
    && (Belief(w.believed[i], w.h.queue, i) <==> st.Open?)
  }

  /** Every notification was delivered while the latest delivered result was a success. */
  predicate WellPlaced(es: seq<Event>) {
    forall k | 0 <= k < |es| && es[k].Notification? :: Belief(false, es[..k], es[k].i)
  }

  predicate Inv(w: World) {
    && |w.believed| == |w.h.protocols|
    && (forall i | 0 <= i < |w.h.protocols| :: Books(w, i))
    && WellPlaced(w.delivered)
    && (forall e | e in w.h.queue :: !e.Notification?)
  }

  lemma {:induction false} BeliefAppend(b: bool, es: seq<Event>, fs: seq<Event>, i: nat)
    ensures Belief(b, es + fs, i) == Belief(Belief(b, es, i), fs, i)
    decreases |fs|
  {
    if fs == [] {
      assert es + fs == es;
    } else {
      var n := |fs| - 1;
      assert (es + fs)[..|es + fs| - 1] == es + fs[..n];
      BeliefAppend(b, es, fs[..n], i);
    }
  }

  // ----- commands and connection events -----------------------------------------------------------

  predicate Concerns(es: seq<Event>, i: nat) {
    forall e | e in es :: !e.CloseConnection? && !e.Notification? && e.i == i
  }

  lemma {:induction false} BeliefElsewhere(b: bool, es: seq<Event>, i: nat, j: nat)
    requires Concerns(es, i) && i != j
    ensures Belief(b, es, j) == b
    decreases |es|
  {
    if es != [] {
      assert es[|es| - 1] in es;
      BeliefElsewhere(b, es[..|es| - 1], i, j);
    }
  }

  lemma CountAppend(es: seq<Event>, fs: seq<Event>, steps: seq<Step>, s: Step, i: nat)
    ensures Count(es + fs, steps + [s], i) == Plus(Count(es, steps, i), Count(fs, [s], i))
  {
    OccAppend(es, fs, SubstreamRequest(i));
    OccAppend(es, fs, OpenResultOk(i));
    OccAppend(es, fs, OpenResultErr(i));
    OccAppend(es, fs, CloseResult(i));
    OccAppend(steps, [s], OutboundOk(i));
    OccAppend(steps, [s], OutboundErr(i));
    OccAppend(steps, [s], CmdOpen(i));
    OccAppend(steps, [s], CmdClose(i));
  }

  /** The account of one step and the events `es` it queues. */
  function Account(es: seq<Event>, s: Step, i: nat): Tally {
    Tally(Occ(es, SubstreamRequest(i)), if s == OutboundOk(i) || s == OutboundErr(i) then 1 else 0,
          if s == CmdOpen(i) then 1 else 0, Results(es, i), if s == CmdClose(i) then 1 else 0, Occ(es, CloseResult(i)))
  }

  lemma CountOne(es: seq<Event>, s: Step, i: nat)
    ensures Count(es, [s], i) == Account(es, s, i)
  {
    OccOne(s, OutboundOk(i));
    OccOne(s, OutboundErr(i));
    OccOne(s, CmdOpen(i));
    OccOne(s, CmdClose(i));
  }

  lemma CountElsewhere(es: seq<Event>, s: Step, i: nat, j: nat)
    requires Concerns(es, i) && i != j && (s.PollStep? || s.i == i)
    ensures Count(es, [s], j) == NOTHING
  {
    CountOne(es, s, j);
    OccAbsent(es, SubstreamRequest(j));
    OccAbsent(es, OpenResultOk(j));
    OccAbsent(es, OpenResultErr(j));
    OccAbsent(es, CloseResult(j));
  }

  lemma CountQuiet(es: seq<Event>, s: Step, i: nat)
    requires s.PollStep? || s.Inbound?
    requires forall e | e in es :: e.OpenDesired? || e.CloseDesired? || e.CloseConnection? || e.Notification?
    ensures Count(es, [s], i) == NOTHING
  {
    CountOne(es, s, i);
    OccAbsent(es, SubstreamRequest(i));
    OccAbsent(es, OpenResultOk(i));
    OccAbsent(es, OpenResultErr(i));
    OccAbsent(es, CloseResult(i));
  }

  /** The books of `i` after one step, from the books before and the step's own account. */
  lemma BooksNext(w: World, v: World, s: Step, es: seq<Event>, i: nat)
    requires i < |w.h.protocols| == |w.believed| == |v.h.protocols| == |v.believed| && Books(w, i)
    requires v.Emitted() == w.Emitted() + es && v.steps == w.steps + [s]
    requires Disciplined(v.h.protocols[i])
    requires Balanced(v.h.protocols[i], Plus(Count(w.Emitted(), w.steps, i), Account(es, s, i)))
    requires Belief(w.h.protocols[i].Open?, es, i) == v.h.protocols[i].Open?
    requires Belief(v.believed[i], v.h.queue, i) == v.h.protocols[i].Open?
    ensures Books(v, i)
  {
    CountAppend(w.Emitted(), es, w.steps, s, i);
    CountOne(es, s, i);
    BeliefAppend(false, w.Emitted(), es, i);
  }

  lemma LocalElsewhere(w: World, v: World, s: Step, i: nat, es: seq<Event>, j: nat)
    requires i < |w.h.protocols| == |w.believed| && j < |w.h.protocols| && j != i && Books(w, j)
    requires |v.h.protocols| == |v.believed| == |w.believed|
    requires v.h.protocols[j] == w.h.protocols[j] && v.believed[j] == w.believed[j]
    requires v.delivered == w.delivered && v.h.queue == w.h.queue + es && v.steps == w.steps + [s]
    requires Concerns(es, i) && !s.PollStep? && s.i == i
    ensures Books(v, j)
  {
    assert v.Emitted() == w.Emitted() + es;
    CountAppend(w.Emitted(), es, w.steps, s, j);
    CountElsewhere(es, s, i, j);
    BeliefAppend(false, w.Emitted(), es, j);
    BeliefElsewhere(Belief(false, w.Emitted(), j), es, i, j);
    BeliefAppend(w.believed[j], w.h.queue, es, j);
    BeliefElsewhere(Belief(w.believed[j], w.h.queue, j), es, i, j);
  }

  /** One transition of one protocol keeps all the books, if it keeps its own. */
  lemma LocalStep(w: World, s: Step, i: nat, r: (State, seq<Event>), believed: seq<bool>)
    requires Inv(w) && i < |w.h.protocols| && Disciplined(r.0) && Concerns(r.1, i)
    requires !s.PollStep? && s.i == i
    requires Balanced(r.0, Plus(Count(w.Emitted(), w.steps, i), Account(r.1, s, i)))
    requires believed == w.believed || believed == w.believed[i := false]
    requires Belief(w.h.protocols[i].Open?, r.1, i) == r.0.Open?
    requires Belief(Belief(believed[i], w.h.queue, i), r.1, i) == r.0.Open?
    ensures Inv(Locally(w, s, i, r).(believed := believed))
  {
    var v := Locally(w, s, i, r).(believed := believed);
    forall j | 0 <= j < |w.h.protocols|
      ensures Books(v, j)
    {
      assert Books(w, j);
      if j == i {
        EmittedNext(w, v, r.1);
        LocalBooks(w, v, s, i, r.1);
      } else {
        LocalElsewhere(w, v, s, i, r.1, j);
      }
    }
    assert forall e | e in r.1 :: !e.Notification?;
  }

  lemma EmittedNext(w: World, v: World, es: seq<Event>)
    requires v.delivered == w.delivered && v.h.queue == w.h.queue + es
    ensures v.Emitted() == w.Emitted() + es
  {
  }

  lemma LocalBooks(w: World, v: World, s: Step, i: nat, es: seq<Event>)
    requires i < |w.h.protocols| == |w.believed| == |v.h.protocols| == |v.believed| && Books(w, i)
    requires v.Emitted() == w.Emitted() + es && v.h.queue == w.h.queue + es && v.steps == w.steps + [s]
    requires Disciplined(v.h.protocols[i])
    requires Balanced(v.h.protocols[i], Plus(Count(w.Emitted(), w.steps, i), Account(es, s, i)))
    requires Belief(w.h.protocols[i].Open?, es, i) == v.h.protocols[i].Open?
    requires Belief(Belief(v.believed[i], w.h.queue, i), es, i) == v.h.protocols[i].Open?
    ensures Books(v, i)
  {
    BeliefAppend(v.believed[i], w.h.queue, es, i);
    BooksNext(w, v, s, es, i);
  }

  lemma EventCounts(es: seq<Event>, i: nat)
    requires Concerns(es, i) && |es| <= 2
    ensures es == [] ==> Occ(es, SubstreamRequest(i)) == Results(es, i) == Occ(es, CloseResult(i)) == 0
    ensures |es| == 1 ==>
              && Occ(es, SubstreamRequest(i)) == (if es[0].SubstreamRequest? then 1 else 0)
              && Results(es, i) == (if es[0].OpenResultOk? || es[0].OpenResultErr? then 1 else 0)
              && Occ(es, CloseResult(i)) == (if es[0].CloseResult? then 1 else 0)
    ensures es == [OpenResultErr(i), CloseResult(i)] ==>
              Occ(es, SubstreamRequest(i)) == 0 && Results(es, i) == 1 && Occ(es, CloseResult(i)) == 1
  {
    forall x: Event
      ensures |es| == 1 ==> Occ(es, x) == if es[0] == x then 1 else 0
      ensures |es| == 2 ==> Occ(es, x) == (if es[0] == x then 1 else 0) + (if es[1] == x then 1 else 0)
    {
      if |es| == 1 {
        assert es == [es[0]];
        OccOne(es[0], x);
      }
      if |es| == 2 {
        assert es == [es[0]] + [es[1]];
        OccAppend([es[0]], [es[1]], x);
        OccOne(es[0], x);
        OccOne(es[1], x);
      }
    }
    assert forall e | e in es :: e.i == i;
  }

  lemma InboundStep(w: World, s: Step)
    requires Inv(w) && s.Inbound? && Legal(w, s)
    ensures Inv(Apply(w, s))
  {
    var st := w.h.protocols[s.i];
    var r := OnInbound(s.i, st, s.received, s.ours);
    assert Books(w, s.i);
    InboundAccount(s, st, r);
    QuietResults(st.Open?, r.1, s.i);
    LocalStep(w, s, s.i, r, w.believed);
  }

  lemma InboundAccount(s: Step, st: State, r: (State, seq<Event>))
    requires s.Inbound? && Disciplined(st) && r == OnInbound(s.i, st, s.received, s.ours)
    ensures Account(r.1, s, s.i) == NOTHING && Concerns(r.1, s.i) && Disciplined(r.0)
    ensures Outstanding(r.0) == Outstanding(st) && (r.0.Opening? <==> st.Opening?) && (r.0.Open? <==> st.Open?)
    ensures r.1 == [] || r.1 == [OpenDesired(s.i)]
  {
    EventCounts(r.1, s.i);
  }

  /** An answer finds its request: the protocol is opening, or still marks it as pending. */
  lemma AnswerExpected(w: World, s: Step)
    requires Inv(w) && (s.OutboundOk? || s.OutboundErr?) && Legal(w, s)
    ensures Outstanding(w.h.protocols[s.i]) == 1
  {
    assert Books(w, s.i);
    OccAppend(w.delivered, w.h.queue, SubstreamRequest(s.i));
  }

  lemma OutboundStep(w: World, s: Step)
    requires Inv(w) && (s.OutboundOk? || s.OutboundErr?) && Legal(w, s)
    ensures Inv(Apply(w, s))
  {
    AnswerExpected(w, s);
    var st := w.h.protocols[s.i];
    var r := OnOutbound(s.i, st, s.OutboundOk?);
    assert Books(w, s.i);
    AnswerAccount(s, st, r);
    AnswerBelief(r.1, s.i, r.0.Open?);
    LocalStep(w, s, s.i, r, w.believed);
  }

  lemma AnswerAccount(s: Step, st: State, r: (State, seq<Event>))
    requires (s.OutboundOk? || s.OutboundErr?) && Outstanding(st) == 1 && Disciplined(st)
    requires r == OnOutbound(s.i, st, s.OutboundOk?)
    ensures Account(r.1, s, s.i) == Tally(0, 1, 0, |r.1|, 0, 0) && Concerns(r.1, s.i)
    ensures Disciplined(r.0) && Outstanding(r.0) == 0 && !r.0.Opening? && |r.1| == if st.Opening? then 1 else 0
    ensures r.1 == if !st.Opening? then [] else if s.OutboundOk? then [OpenResultOk(s.i)] else [OpenResultErr(s.i)]
    ensures r.0.Open? <==> r.1 == [OpenResultOk(s.i)]
  {
    EventCounts(r.1, s.i);
  }

  lemma AnswerBelief(es: seq<Event>, i: nat, open: bool)
    requires es == [] || es == [OpenResultOk(i)] || es == [OpenResultErr(i)]
    requires open <==> es == [OpenResultOk(i)]
    ensures Belief(false, es, i) == open
  {
    if es != [] {
      assert es[..0] == [];
    }
  }

  /** A legal `Open` finds the protocol closed: not opening, since every earlier `Open` has been
      answered and the answer delivered, and not open, since its owner would know. */
  lemma OpenFindsClosed(w: World, s: Step)
    requires Inv(w) && s.CmdOpen? && Legal(w, s)
    ensures w.h.protocols[s.i].Closed? || w.h.protocols[s.i].OpenDesiredByRemote?
  {
    var q := w.h.queue;
    assert Books(w, s.i);
    OccAppend(w.delivered, q, OpenResultOk(s.i));
    OccAppend(w.delivered, q, OpenResultErr(s.i));
    assert Occ(q, OpenResultOk(s.i)) == 0;
    NoSuccessNoBelief(q, s.i);
  }

  lemma {:induction false} NoSuccessNoBelief(es: seq<Event>, i: nat)
    requires Occ(es, OpenResultOk(i)) == 0
    ensures !Belief(false, es, i)
    decreases |es|
  {
    if es != [] {
      var n := |es| - 1;
      NoSuccessNoBelief(es[..n], i);
    }
  }

  lemma OpenStep(w: World, s: Step)
    requires Inv(w) && s.CmdOpen? && Legal(w, s)
    ensures Inv(Apply(w, s))
  {
    OpenFindsClosed(w, s);
    var st := w.h.protocols[s.i];
    var r := OnOpen(s.i, st);
    assert Books(w, s.i);
    OpenAccount(s, st, r);
    QuietResults(st.Open?, r.1, s.i);
    QuietResults(Belief(w.believed[s.i], w.h.queue, s.i), r.1, s.i);
    LocalStep(w, s, s.i, r, w.believed);
  }

  lemma OpenAccount(s: Step, st: State, r: (State, seq<Event>))
    requires s.CmdOpen? && (st.Closed? || st.OpenDesiredByRemote?) && Disciplined(st) && r == OnOpen(s.i, st)
    ensures Account(r.1, s, s.i) == Tally(|r.1|, 0, 1, 0, 0, 0) && Concerns(r.1, s.i)
    ensures Disciplined(r.0) && r.0.Opening? && |r.1| + Outstanding(st) == 1
    ensures r.1 == [] || r.1 == [SubstreamRequest(s.i)]
  {
    EventCounts(r.1, s.i);
  }

  lemma QuietResults(b: bool, es: seq<Event>, i: nat)
    requires es == [] || es == [SubstreamRequest(i)] || es == [OpenDesired(i)]
    ensures Belief(b, es, i) == b
  {
    if es != [] {
      assert es[..0] == [];
    }
  }

  lemma CloseStep(w: World, s: Step)
    requires Inv(w) && s.CmdClose? && Legal(w, s)
    ensures Inv(Apply(w, s))
  {
    var st := w.h.protocols[s.i];
    var r := OnClose(s.i, st);
    assert Books(w, s.i);
    CloseAccount(s, st, r);
    ClosedBelief(st.Open?, r.1, s.i);
    ClosedBelief(Belief(false, w.h.queue, s.i), r.1, s.i);
    LocalStep(w, s, s.i, r, w.believed[s.i := false]);
  }

  lemma CloseAccount(s: Step, st: State, r: (State, seq<Event>))
    requires s.CmdClose? && r == OnClose(s.i, st)
    ensures Account(r.1, s, s.i) == Tally(0, 0, 0, if st.Opening? then 1 else 0, 1, 1) && Concerns(r.1, s.i)
    ensures r.0.Closed? && Disciplined(r.0) && Outstanding(r.0) == Outstanding(st)
    ensures r.1 == [CloseResult(s.i)] || r.1 == [OpenResultErr(s.i), CloseResult(s.i)]
  {
    EventCounts(r.1, s.i);
  }

  lemma ClosedBelief(b: bool, es: seq<Event>, i: nat)
    requires es == [CloseResult(i)] || es == [OpenResultErr(i), CloseResult(i)]
    ensures !Belief(b, es, i)
  {
  }

  // ----- polling --------------------------------------------------------------------------------------

  /** Polling may advance or lose a substream, but it moves no protocol between its states other
      than from desired-by-remote back to closed. */
  predicate Kept(a: State, b: State) {
    && Disciplined(b) && Outstanding(a) == Outstanding(b)
    && (a.Opening? <==> b.Opening?) && (a.Open? <==> b.Open?)
  }

  predicate KeptAll(ps: seq<State>, qs: seq<State>) {
    |qs| == |ps| && forall j | 0 <= j < |ps| :: Kept(ps[j], qs[j])
  }

  /** What polling may report directly. */
  predicate Direct(qs: seq<State>, ev: Option<Event>) {
    && (ev.Some? ==> ev.value.CloseDesired? || ev.value.CloseConnection? || ev.value.Notification?)
    && (ev.Some? && ev.value.Notification? ==> ev.value.i < |qs| && qs[ev.value.i].Open?)
  }

  lemma PollInboundKeeps(i: nat, st: State, io: Socket)
    requires Disciplined(st)
    ensures Kept(st, PollInbound(i, st, io).0)
    ensures var ev := PollInbound(i, st, io).1;
            ev.Some? ==> ev.value == CloseDesired(i) || (ev.value.Notification? && ev.value.i == i && st.Open?)
  {
    match st
    case OpenDesiredByRemote(sub, _) => PollsKeepHealth(sub, io);
    case Opening(Some(sub)) => PollsKeepHealth(sub, io);
    case Open(_, Some(sub)) => PollsKeepHealth(sub, io);
    case _ =>
  }

  lemma {:induction false} PollFromKeeps(ps: seq<State>, io: seq<Io>, i: nat)
    requires |io| == |ps| && i <= |ps| && forall j | 0 <= j < |ps| :: Disciplined(ps[j])
    ensures KeptAll(ps, PollFrom(ps, io, i).0) && Direct(PollFrom(ps, io, i).0, PollFrom(ps, io, i).1)
    decreases |ps| - i
  {
    if i < |ps| {
      PollInboundKeeps(i, ps[i], io[i].socket);
      var st := PollInbound(i, ps[i], io[i].socket).0;
      PollFromKeeps(ps[i := st], io, i + 1);
    }
  }

  lemma {:induction false} FlushFromKeeps(ps: seq<State>, io: seq<Io>, i: nat)
    requires |io| == |ps| && i <= |ps| && forall j | 0 <= j < |ps| :: Disciplined(ps[j])
    ensures KeptAll(ps, FlushFrom(ps, io, i).0) && Direct(FlushFrom(ps, io, i).0, FlushFrom(ps, io, i).1)
    decreases |ps| - i
  {
    if i < |ps| {
      FlushFromKeeps(ps, io, i + 1);
    }
  }

  lemma QuietBelief(b: bool, es: seq<Event>, i: nat)
    requires |es| <= 1 && forall e | e in es :: e.CloseDesired? || e.CloseConnection? || e.Notification?
    ensures Belief(b, es, i) == b
  {
    if es != [] {
      assert es[0] in es && es[..0] == [];
    }
  }

  lemma DirectBooks(w: World, v: World, s: Step, es: seq<Event>, i: nat)
    requires i < |w.h.protocols| == |w.believed| == |v.h.protocols| == |v.believed| && Books(w, i)
    requires v.believed == w.believed && w.h.queue == v.h.queue == [] && s.PollStep?
    requires v.delivered == w.delivered + es && v.steps == w.steps + [s] && |es| <= 1
    requires forall e | e in es :: e.CloseDesired? || e.CloseConnection? || e.Notification?
    requires Kept(w.h.protocols[i], v.h.protocols[i])
    ensures Books(v, i)
  {
    assert w.Emitted() == w.delivered && v.Emitted() == v.delivered;
    CountQuiet(es, s, i);
    CountOne(es, s, i);
    QuietBelief(w.h.protocols[i].Open?, es, i);
    BooksNext(w, v, s, es, i);
  }

  lemma DeliverDirect(w: World, s: Step, qs: seq<State>, ev: Option<Event>)
    requires Inv(w) && s.PollStep? && w.h.queue == [] && KeptAll(w.h.protocols, qs) && Direct(qs, ev)
    ensures ev.None? ==> Inv(w.(h := w.h.(protocols := qs), steps := w.steps + [s]))
    ensures ev.Some? ==> Inv(World(w.h.(protocols := qs), w.delivered + [ev.value], w.steps + [s], Learn(w.believed, ev.value)))
  {
    var es := if ev.Some? then [ev.value] else [];
    var v := World(w.h.(protocols := qs), w.delivered + es, w.steps + [s], w.believed);
    assert ev.None? ==> v.delivered == w.delivered;
    DirectPlaced(w, qs, es);
    DirectAll(w, v, s, es);
  }

  lemma DirectPlaced(w: World, qs: seq<State>, es: seq<Event>)
    requires Inv(w) && w.h.queue == [] && |es| <= 1 && KeptAll(w.h.protocols, qs)
    requires forall e | e in es && e.Notification? :: e.i < |qs| && qs[e.i].Open?
    ensures WellPlaced(w.delivered + es)
  {
    if es != [] && es[0].Notification? {
      assert es[0] in es;
      assert Books(w, es[0].i) && Kept(w.h.protocols[es[0].i], qs[es[0].i]);
      assert w.Emitted() == w.delivered;
    }
    PlacedNext(w.delivered, es);
  }

  lemma DirectAll(w: World, v: World, s: Step, es: seq<Event>)
    requires Inv(w) && s.PollStep? && w.h.queue == v.h.queue == [] && KeptAll(w.h.protocols, v.h.protocols)
    requires v.believed == w.believed && v.delivered == w.delivered + es && v.steps == w.steps + [s] && |es| <= 1
    requires forall e | e in es :: e.CloseDesired? || e.CloseConnection? || e.Notification?
    ensures forall i | 0 <= i < |v.h.protocols| :: Books(v, i)
  {
    forall i | 0 <= i < |v.h.protocols|
      ensures Books(v, i)
    {
      assert Books(w, i) && Kept(w.h.protocols[i], v.h.protocols[i]);
      DirectBooks(w, v, s, es, i);
    }
  }

  lemma PlacedNext(es: seq<Event>, fs: seq<Event>)
    requires WellPlaced(es) && |fs| <= 1
    requires forall e | e in fs && e.Notification? :: Belief(false, es, e.i)
    ensures WellPlaced(es + fs)
  {
    forall k | 0 <= k < |es + fs| && (es + fs)[k].Notification?
      ensures Belief(false, (es + fs)[..k], (es + fs)[k].i)
    {
      assert (es + fs)[..k] == es[..k];
      assert k == |es| ==> es[..k] == es;
    }
  }

  lemma DeliverQueued(w: World, s: Step)
    requires Inv(w) && s.PollStep? && Legal(w, s) && w.h.queue != []
    ensures Inv(Apply(w, s))
  {
    var e := w.h.queue[0];
    var v := Apply(w, s);
    assert e in w.h.queue && w.h.queue == [e] + w.h.queue[1..];
    assert v.Emitted() == w.Emitted();
    PlacedNext(w.delivered, [e]);
    forall i | 0 <= i < |w.h.protocols|
      ensures Books(v, i)
    {
      assert Books(w, i);
      QueuedBooks(w, v, s, e, i);
    }
  }

  lemma QueuedBooks(w: World, v: World, s: Step, e: Event, i: nat)
    requires i < |w.h.protocols| == |w.believed| && Books(w, i) && s.PollStep?
    requires v.h.protocols == w.h.protocols && w.h.queue == [e] + v.h.queue
    requires v.delivered == w.delivered + [e] && v.steps == w.steps + [s] && v.believed == Learn(w.believed, e)
    ensures Books(v, i)
  {
    assert v.Emitted() == w.Emitted() + [];
    CountQuiet([], s, i);
    CountOne([], s, i);
    BeliefAppend(w.believed[i], [e], v.h.queue, i);
    assert [e][..0] == [];
    assert Belief(w.believed[i], [e], i) == v.believed[i];
    BooksNext(w, v, s, [], i);
  }

  lemma PollStepKeeps(w: World, s: Step)
    requires Inv(w) && s.PollStep? && Legal(w, s)
    ensures Inv(Apply(w, s))
  {
    if w.h.queue != [] {
      DeliverQueued(w, s);
    } else {
      var ps := w.h.protocols;
      forall j | 0 <= j < |ps|
        ensures Disciplined(ps[j])
      {
        assert Books(w, j);
      }
      FlushFromKeeps(ps, s.io, 0);
      PollFromKeeps(ps, s.io, 0);
      FlushIff(ps, s.io, 0);
      var (h, ev) := Poll(w.h, s.io);
      DeliverDirect(w, s, h.protocols, ev);
    }
  }

  // ----- every run ---------------------------------------------------------------------------------------

  predicate LegalRun(w: World, steps: seq<Step>)
    decreases |steps|, 0
  {
    steps == [] || (LegalRun(w, steps[..|steps| - 1]) && Legal(Exec(w, steps[..|steps| - 1]), steps[|steps| - 1]))
  }

  function Exec(w: World, steps: seq<Step>): World
    requires LegalRun(w, steps)
    decreases |steps|, 1
  {
    if steps == [] then w else Apply(Exec(w, steps[..|steps| - 1]), steps[|steps| - 1])
  }

  lemma RunSnoc(w: World, steps: seq<Step>, s: Step)
    requires LegalRun(w, steps) && Legal(Exec(w, steps), s)
    ensures LegalRun(w, steps + [s]) && Exec(w, steps + [s]) == Apply(Exec(w, steps), s)
  {
    assert (steps + [s])[..|steps|] == steps;
  }

  lemma StepKeeps(w: World, s: Step)
    requires Inv(w) && Legal(w, s)
    ensures Inv(Apply(w, s))
  {
    match s
    case Inbound(_, _, _) => InboundStep(w, s);
    case OutboundOk(_) => OutboundStep(w, s);
    case OutboundErr(_) => OutboundStep(w, s);
    case CmdOpen(_) => OpenStep(w, s);
    case CmdClose(_) => CloseStep(w, s);
    case PollStep(_) => PollStepKeeps(w, s);
  }

  lemma {:induction false} RunKeeps(w: World, steps: seq<Step>)
    requires Inv(w) && LegalRun(w, steps)
    ensures Inv(Exec(w, steps)) && |Exec(w, steps).h.protocols| == |w.h.protocols|
    ensures Exec(w, steps).steps == w.steps + steps
    decreases |steps|
  {
    if steps != [] {
      var before, s := steps[..|steps| - 1], steps[|steps| - 1];
      RunKeeps(w, before);
      StepKeeps(Exec(w, before), s);
      assert w.steps + before + [s] == w.steps + steps;
    }
  }

  lemma StartKeeps(n: nat)
    ensures Inv(Start(n))
  {
    var w := Start(n);
    assert w.Emitted() == [];
    forall i | 0 <= i < n
      ensures Books(w, i)
    {
      assert w.h.protocols[i] == Closed(false) && !w.believed[i];
      assert Count([], [], i) == NOTHING;
    }
  }

  /** Every run of a handler, for every protocol: the unanswered substream requests are one
      exactly while opening or marked pending; `Open`s received equal results produced, plus one
      while opening; every `Close` is answered once; notifications are delivered only after a
      delivered success that no later delivered result revokes; and substreams held are never
      polled out of turn. */
  lemma EveryRun(n: nat, steps: seq<Step>, i: nat)
    requires LegalRun(Start(n), steps) && i < n
    ensures var w := Exec(Start(n), steps);
            && |w.h.protocols| == n
            && Occ(w.Emitted(), SubstreamRequest(i)) == Answers(steps, i) + Outstanding(w.h.protocols[i])
            && Occ(steps, CmdOpen(i)) == Results(w.Emitted(), i) + (if w.h.protocols[i].Opening? then 1 else 0)
            && Occ(steps, CmdClose(i)) == Occ(w.Emitted(), CloseResult(i))
            && WellPlaced(w.delivered)
            && Disciplined(w.h.protocols[i])
  {
    StartKeeps(n);
    RunKeeps(Start(n), steps);
    assert [] + steps == steps;
    assert Books(Exec(Start(n), steps), i);
  }

  /** After every run, whatever the environment may legally do next meets the conditions that the
      code asserts: answers are expected, and `Open` finds the protocol closed. */
  lemma NoAssertionFires(n: nat, steps: seq<Step>, s: Step)
    requires LegalRun(Start(n), steps) && Legal(Exec(Start(n), steps), s)
    ensures var ps := Exec(Start(n), steps).h.protocols;
            && (s.OutboundOk? || s.OutboundErr? ==> Outstanding(ps[s.i]) == 1 && !ps[s.i].Open?)
            && (s.CmdOpen? ==> ps[s.i].Closed? || ps[s.i].OpenDesiredByRemote?)
  {
    StartKeeps(n);
    RunKeeps(Start(n), steps);
    var w := Exec(Start(n), steps);
    if s.OutboundOk? || s.OutboundErr? {
      AnswerExpected(w, s);
    }
    if s.CmdOpen? {
      OpenFindsClosed(w, s);
    }
  }

  /** Accepting a remote's request sends its own handshake back: the substream has not sent one
      yet, so the message is not silently discarded. */
  lemma AcceptEchoesHandshake(i: nat, st: State)
    requires Disciplined(st) && st.OpenDesiredByRemote?
    ensures OnOpen(i, st).0 == Opening(Some(Substream(PendingSend(st.sub.received), st.sub.received, false)))
    ensures Disciplined(OnOpen(i, st).0)
  {
  }
}
