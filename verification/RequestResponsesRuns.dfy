/** What holds of the request-response bookkeeping over every run and every sequence of calls. */
module RequestResponsesRuns {
  import opened Wrappers
  import opened Reputation
  import opened RequestResponses

  predicate LegalRun(w: World, ss: seq<Step>)
    decreases |ss|
  {
    ss == [] || (Legal(w, ss[0]) && LegalRun(Apply(w, ss[0]), ss[1..]))
  }

  function Exec(w: World, ss: seq<Step>): World
    decreases |ss|
  {
    if ss == [] then w else Exec(Apply(w, ss[0]), ss[1..])
  }

  lemma {:induction false} RunKeeps(w: World, ss: seq<Step>)
    requires OutboundBooks(w) && LegalRun(w, ss)
    ensures OutboundBooks(Exec(w, ss))
    decreases |ss|
  {
    if ss != [] {
      OutboundKept(w, ss[0]);
      RunKeeps(Apply(w, ss[0]), ss[1..]);
    }
  }

  /** For every run: each channel handed to `send_request` is answered at most once, and only with
      what became of its own request; it is unanswered exactly while its request is accepted and
      unfinished. Once libp2p has finished every accepted request, all are answered exactly once. */
  lemma AnsweredExactlyOnce(protocols: set<ProtocolName>, ss: seq<Step>, c: Channel)
    requires LegalRun(Fresh(protocols), ss)
    ensures var w := Exec(Fresh(protocols), ss);
            && Replies(w.t.answers, c) <= 1
            && (c in w.env.sends ==>
                  (Replies(w.t.answers, c) == 0 <==>
                   exists k | k in w.env.open && k in w.env.owner :: w.env.owner[k] == c))
            && (w.env.open == {} && c in w.env.sends ==> Replies(w.t.answers, c) == 1)
            && Attributed(w)
            && w.t.pending.Keys == w.env.open
  {
    FreshKeeps(protocols);
    RunKeeps(Fresh(protocols), ss);
    var w := Exec(Fresh(protocols), ss);
    if Awaits(w.t, c) {
      var k :| k in w.t.pending && w.t.pending[k] == c;
      assert k in w.env.open && w.env.owner[k] == c;
    } else if c in w.env.sends {
      forall k | k in w.env.open && k in w.env.owner
        ensures w.env.owner[k] != c
      {
        assert k in w.t.pending;
      }
    }
  }

  // ----- polls -------------------------------------------------------------------------------------------

  /** A run each of whose steps is legal and taken at the right time. */
  predicate GatedRun(w: World, ss: seq<Step>)
    decreases |ss|
  {
    ss == [] || (Legal(w, ss[0]) && Gated(w, ss[0]) && GatedRun(Apply(w, ss[0]), ss[1..]))
  }

  lemma GatedCons(w: World, s: Step, ss: seq<Step>)
    requires Legal(w, s) && Gated(w, s) && GatedRun(Apply(w, s), ss)
    ensures GatedRun(w, [s] + ss) && Exec(w, [s] + ss) == Exec(Apply(w, s), ss)
  {
    assert ([s] + ss)[1..] == ss;
  }

  /** A poll is a run, and takes no step at the wrong time: the loop asks for the next event only when the
      slot is empty, so it never overwrites a request in it. */
  lemma {:induction false} PollIsGated(w: World, q: Ready)
    requires Inv(w) && LawfulAll(w.env, q.events)
    ensures GatedRun(w, PollOf(w, q).steps) && Exec(w, PollOf(w, q).steps) == PollOf(w, q).w
    decreases |q.scores| + |q.outcomes| + |q.events|
  {
    if w.t.slot.Some? {
      if q.scores != [] {
        StepKeeps(w, Reputed(q.scores[0]));
        PollIsGated(OnReputation(w, q.scores[0]), q.(scores := q.scores[1..]));
        GatedCons(w, Reputed(q.scores[0]), PollOf(OnReputation(w, q.scores[0]), q.(scores := q.scores[1..])).steps);
      }
    } else if q.outcomes != [] {
      var o := q.outcomes[0];
      StepKeeps(w, Answered(o));
      GatedCons(w, Answered(o), []);
      if !o.changes {
        PollIsGated(OnOutcome(w, o), q.(outcomes := q.outcomes[1..]));
        GatedCons(w, Answered(o), PollOf(OnOutcome(w, o), q.(outcomes := q.outcomes[1..])).steps);
      }
    } else if q.events != [] {
      var e := q.events[0];
      StepKeeps(w, Happened(e));
      EventEnv(w, e);
      GatedCons(w, Happened(e), []);
      if e.RequestArrived? {
        PollIsGated(OnEvent(w, e), q.(events := q.events[1..]));
        GatedCons(w, Happened(e), PollOf(OnEvent(w, e), q.(events := q.events[1..])).steps);
      }
    }
  }

  function Scores(ss: seq<Step>): seq<int> {
    if ss == [] then [] else (if ss[0].Reputed? then [ss[0].score] else []) + Scores(ss[1..])
  }

  function Outcomes(ss: seq<Step>): seq<Outcome> {
    if ss == [] then [] else (if ss[0].Answered? then [ss[0].o] else []) + Outcomes(ss[1..])
  }

  function Events(ss: seq<Step>): seq<Event> {
    if ss == [] then [] else (if ss[0].Happened? then [ss[0].e] else []) + Events(ss[1..])
  }

  /** What a poll reports is its last step. */
  predicate Reports(r: PollResult, ss: seq<Step>) {
    r.Pending? ||
    (&& ss != [] && var s := ss[|ss| - 1];
     match r
     case ReputationChanges => s.Answered? && s.o.changes
     case RequestFinished(k) => s.Happened? && (s.e.ResponseArrived? || s.e.OutboundFailure?) && s.e.key == k
     case InboundSettled(k) => s.Happened? && (s.e.InboundFailure? || s.e.ResponseSent?) && s.e.key == k
     case Pending => true)
  }

  /** What `ss` takes of what is ready is taken in order, and if `p` waits, all that it may take is taken. */
  predicate Takes(q: Ready, p: Polled) {
    && Scores(p.steps) <= q.scores && Outcomes(p.steps) <= q.outcomes && Events(p.steps) <= q.events
    && (p.r == Pending ==>
          if p.w.t.slot.Some? then Scores(p.steps) == q.scores
          else Outcomes(p.steps) == q.outcomes && Events(p.steps) == q.events)
  }

  lemma TakesCons(q: Ready, s: Step, rest: Ready, p: Polled)
    requires Takes(rest, p) && Reports(p.r, p.steps) && !s.Send?
    requires q == match s
                  case Reputed(x) => rest.(scores := [x] + rest.scores)
                  case Answered(o) => rest.(outcomes := [o] + rest.outcomes)
                  case Happened(e) => rest.(events := [e] + rest.events)
                  case _ => rest
    ensures Takes(q, After([s], p)) && Reports(p.r, [s] + p.steps)
  {
    assert ([s] + p.steps)[1..] == p.steps;
    assert [] + Scores(p.steps) == Scores(p.steps) && [] + Outcomes(p.steps) == Outcomes(p.steps)
           && [] + Events(p.steps) == Events(p.steps);
  }

  lemma TakesOne(q: Ready, s: Step, w: World, r: PollResult)
    requires r != Pending && Reports(r, [s])
    requires s.Answered? ==> q.outcomes != [] && s.o == q.outcomes[0]
    requires s.Happened? ==> q.events != [] && s.e == q.events[0]
    ensures Takes(q, Polled(w, r, [s]))
  {
    assert [s][1..] == [];
  }

  /** A poll takes what is ready in order. It waits only when the slot is full and no reputation is left, or
      when all outcomes and events are used up; otherwise it reports its last step. */
  lemma {:induction false} PollTakesInOrder(w: World, q: Ready)
    ensures Takes(q, PollOf(w, q)) && Reports(PollOf(w, q).r, PollOf(w, q).steps)
    decreases |q.scores| + |q.outcomes| + |q.events|
  {
    if w.t.slot.Some? {
      if q.scores != [] {
        var rest := q.(scores := q.scores[1..]);
        PollTakesInOrder(OnReputation(w, q.scores[0]), rest);
        assert q.scores == [q.scores[0]] + rest.scores;
        TakesCons(q, Reputed(q.scores[0]), rest, PollOf(OnReputation(w, q.scores[0]), rest));
      }
    } else if q.outcomes != [] {
      var o, rest := q.outcomes[0], q.(outcomes := q.outcomes[1..]);
      if o.changes {
        TakesOne(q, Answered(o), OnOutcome(w, o), ReputationChanges);
      } else {
        PollTakesInOrder(OnOutcome(w, o), rest);
        assert q.outcomes == [o] + rest.outcomes;
        TakesCons(q, Answered(o), rest, PollOf(OnOutcome(w, o), rest));
      }
    } else if q.events != [] {
      var e, rest := q.events[0], q.(events := q.events[1..]);
      if e.RequestArrived? {
        PollTakesInOrder(OnEvent(w, e), rest);
        assert q.events == [e] + rest.events;
        TakesCons(q, Happened(e), rest, PollOf(OnEvent(w, e), rest));
      } else {
        TakesOne(q, Happened(e), OnEvent(w, e), Report(e));
      }
    }
  }

  // ----- every sequence of calls --------------------------------------------------------------------

  datatype Call = SendCall(protocol: ProtocolName, channel: Channel, reachable: bool, id: nat) | PollCall(q: Ready)

  /** Callers use each channel once, and libp2p keeps its word; nothing is asked about the slot. */
  predicate LegalCall(w: World, c: Call) {
    match c
    case SendCall(protocol, channel, reachable, id) => Legal(w, Send(protocol, channel, reachable, id))
    case PollCall(q) => LawfulAll(w.env, q.events)
  }

  function Made(w: World, c: Call): Polled {
    match c
    case SendCall(protocol, channel, reachable, id) =>
      Polled(SendRequest(w, protocol, channel, reachable, id), Pending, [Send(protocol, channel, reachable, id)])
    case PollCall(q) => PollOf(w, q)
  }

  predicate LegalCalls(w: World, cs: seq<Call>)
    decreases |cs|
  {
    cs == [] || (LegalCall(w, cs[0]) && LegalCalls(Made(w, cs[0]).w, cs[1..]))
  }

  /** The steps of all calls. */
  function Trace(w: World, cs: seq<Call>): seq<Step>
    decreases |cs|
  {
    if cs == [] then [] else Made(w, cs[0]).steps + Trace(Made(w, cs[0]).w, cs[1..])
  }

  lemma CallIsGated(w: World, c: Call)
    requires Inv(w) && LegalCall(w, c)
    ensures GatedRun(w, Made(w, c).steps) && Exec(w, Made(w, c).steps) == Made(w, c).w
  {
    match c
    case SendCall(protocol, channel, reachable, id) => GatedCons(w, Send(protocol, channel, reachable, id), []);
    case PollCall(q) => PollIsGated(w, q);
  }

  lemma {:induction false} GatedRunKeeps(w: World, ss: seq<Step>)
    requires Inv(w) && GatedRun(w, ss)
    ensures Inv(Exec(w, ss))
    decreases |ss|
  {
    if ss != [] {
      StepKeeps(w, ss[0]);
      GatedRunKeeps(Apply(w, ss[0]), ss[1..]);
    }
  }

  lemma {:induction false} GatedAppend(w: World, ss: seq<Step>, ts: seq<Step>)
    requires GatedRun(w, ss) && GatedRun(Exec(w, ss), ts)
    ensures GatedRun(w, ss + ts)
    decreases |ss|
  {
    if ss == [] {
      assert ss + ts == ts;
    } else {
      GatedAppend(Apply(w, ss[0]), ss[1..], ts);
      assert ss + ts == [ss[0]] + (ss[1..] + ts);
      GatedCons(w, ss[0], ss[1..] + ts);
    }
  }

  lemma {:induction false} TraceIsGated(w: World, cs: seq<Call>)
    requires Inv(w) && LegalCalls(w, cs)
    ensures GatedRun(w, Trace(w, cs))
    decreases |cs|
  {
    if cs != [] {
      var v := Made(w, cs[0]).w;
      CallIsGated(w, cs[0]);
      GatedRunKeeps(w, Made(w, cs[0]).steps);
      TraceIsGated(v, cs[1..]);
      GatedAppend(w, Made(w, cs[0]).steps, Trace(v, cs[1..]));
    }
  }

  lemma {:induction false} GatedAt(w: World, ss: seq<Step>, k: nat)
    requires Inv(w) && GatedRun(w, ss) && k < |ss|
    ensures var v := Exec(w, ss[..k]); Inv(v) && Legal(v, ss[k]) && Gated(v, ss[k])
    decreases k
  {
    if k > 0 {
      StepKeeps(w, ss[0]);
      GatedAt(Apply(w, ss[0]), ss[1..], k - 1);
      assert ss[..k][1..] == ss[1..][..k - 1];
    }
  }

  /** For every sequence of calls, at every point: the requests that came in, in order, are those handed on
      or discarded, followed by the one in the slot; an incoming request finds the slot empty and has no
      arrival time yet; a response that was sent finds its arrival time; and a new request never
      overwrites a pending one. */
  lemma NoRequestLost(protocols: set<ProtocolName>, cs: seq<Call>, k: nat)
    requires LegalCalls(Fresh(protocols), cs) && k <= |Trace(Fresh(protocols), cs)|
    ensures var ss := Trace(Fresh(protocols), cs); var w := Exec(Fresh(protocols), ss[..k]);
            && w.env.seen == Keys(w.t.fates) + Parked(w.t)
            && (k < |ss| && ss[k].Happened? && ss[k].e.RequestArrived? ==>
                  w.t.slot.None? && ss[k].e.key !in w.t.arrivals)
            && (k < |ss| && ss[k].Happened? && ss[k].e.ResponseSent? ==> ss[k].e.key in w.t.arrivals)
            && (k < |ss| && ss[k].Send? ==> Key(ss[k].protocol, ss[k].id) !in w.t.pending)
  {
    var ss := Trace(Fresh(protocols), cs);
    FreshKeeps(protocols);
    TraceIsGated(Fresh(protocols), cs);
    if k < |ss| {
      GatedAt(Fresh(protocols), ss, k);
    } else {
      assert ss[..k] == ss;
      GatedRunKeeps(Fresh(protocols), ss);
    }
  }

  // ----- what became of each request ------------------------------------------------------------------

  lemma {:induction false} FatesFollowScores(w: World, ss: seq<Step>)
    requires GatedRun(w, ss)
    ensures var old_, new_, scores := w.t.fates, Exec(w, ss).t.fates, Scores(ss);
            && |new_| == |old_| + |scores| && new_[..|old_|] == old_
            && forall i | 0 <= i < |scores| :: new_[|old_| + i].Discarded? <==> scores[i] < BANNED_THRESHOLD
    decreases |ss|
  {
    if ss != [] {
      var v := Apply(w, ss[0]);
      FatesFollowScores(v, ss[1..]);
      var old_, mid, new_ := w.t.fates, v.t.fates, Exec(w, ss).t.fates;
      assert new_[..|old_|] == new_[..|mid|][..|old_|];
      if ss[0].Reputed? {
        assert new_[|old_|] == new_[..|mid|][|old_|] == mid[|old_|];
        assert forall i | 0 < i < |Scores(ss)| :: Scores(ss)[i] == Scores(ss[1..])[i - 1];
      } else {
        assert mid == old_ && Scores(ss) == Scores(ss[1..]);
      }
    }
  }

  /** For every sequence of calls: the `i`-th request that came in is discarded exactly if the `i`-th
      reputation that came is below the ban threshold, and handed on otherwise. */
  lemma FateByReputation(protocols: set<ProtocolName>, cs: seq<Call>, i: nat)
    requires LegalCalls(Fresh(protocols), cs) && i < |Scores(Trace(Fresh(protocols), cs))|
    ensures var ss := Trace(Fresh(protocols), cs); var w := Exec(Fresh(protocols), ss);
            && |w.t.fates| == |Scores(ss)| <= |w.env.seen|
            && w.t.fates[i] == if Scores(ss)[i] < BANNED_THRESHOLD then Discarded(w.env.seen[i]) else HandedOn(w.env.seen[i])
  {
    var ss := Trace(Fresh(protocols), cs);
    FreshKeeps(protocols);
    TraceIsGated(Fresh(protocols), cs);
    GatedRunKeeps(Fresh(protocols), ss);
    FatesFollowScores(Fresh(protocols), ss);
    var w := Exec(Fresh(protocols), ss);
    assert Keys(w.t.fates)[i] == w.env.seen[i] == w.t.fates[i].key;
  }

  /** The replies that a step calls for: what libp2p reports goes, unchanged, to the channel whose request it
      is about; a request that cannot be made is answered on the spot. */
  function Due(w: World, s: Step): seq<Answer> {
    match s
    case Send(protocol, c, reachable, _) =>
      if protocol !in w.t.protocols then [Answer(c, UnknownProtocol)]
      else if !reachable then [Answer(c, NotConnected)] else []
    case Happened(ResponseArrived(k, response)) =>
      if k !in w.env.owner then []
      else [Answer(w.env.owner[k], if response.Some? then Response(k, response.value) else Refused(k))]
    case Happened(OutboundFailure(k)) => if k !in w.env.owner then [] else [Answer(w.env.owner[k], Network(k))]
    case _ => []
  }

  function DueAll(w: World, ss: seq<Step>): seq<Answer>
    decreases |ss|
  {
    if ss == [] then [] else Due(w, ss[0]) + DueAll(Apply(w, ss[0]), ss[1..])
  }

  lemma StepDue(w: World, s: Step)
    requires OutboundBooks(w) && Legal(w, s)
    ensures Apply(w, s).t.answers == w.t.answers + Due(w, s)
  {
  }

  lemma {:induction false} AnswersFrom(w: World, ss: seq<Step>)
    requires OutboundBooks(w) && LegalRun(w, ss)
    ensures Exec(w, ss).t.answers == w.t.answers + DueAll(w, ss)
    decreases |ss|
  {
    if ss != [] {
      var v := Apply(w, ss[0]);
      OutboundKept(w, ss[0]);
      StepDue(w, ss[0]);
      AnswersFrom(v, ss[1..]);
      assert w.t.answers + (Due(w, ss[0]) + DueAll(v, ss[1..])) == v.t.answers + DueAll(v, ss[1..]);
    }
  }

  /** For every run: the replies sent are, in order, those that its steps call for. */
  lemma AnswersAreDue(protocols: set<ProtocolName>, ss: seq<Step>)
    requires LegalRun(Fresh(protocols), ss)
    ensures Exec(Fresh(protocols), ss).t.answers == DueAll(Fresh(protocols), ss)
  {
    FreshKeeps(protocols);
    AnswersFrom(Fresh(protocols), ss);
  }

  // ----- feedback to handlers ---------------------------------------------------------------------------

  lemma {:induction false} RunSnoc(w: World, ss: seq<Step>, s: Step)
    ensures Exec(w, ss + [s]) == Apply(Exec(w, ss), s)
    decreases |ss|
  {
    if ss == [] {
      assert ([] + [s])[1..] == [];
    } else {
      assert (ss + [s])[1..] == ss[1..] + [s];
      RunSnoc(Apply(w, ss[0]), ss[1..], s);
    }
  }

  /** The channel to signal when the response to `k` has been sent: that of the last answer to `k` that
      libp2p took, unless the request was settled since. */
  function Listener(protocols: set<ProtocolName>, ss: seq<Step>, k: Key): Option<Channel>
    decreases |ss|
  {
    if ss == [] then None
    else
      var before := ss[..|ss| - 1];
      match ss[|ss| - 1]
      case Answered(o) =>
        if o.key == k && o.ok && o.sent && k.protocol in protocols && o.feedback.Some? then o.feedback
        else Listener(protocols, before, k)
      case Happened(ResponseSent(l)) => if l == k then None else Listener(protocols, before, k)
      case Happened(InboundFailure(l)) => if l == k then None else Listener(protocols, before, k)
      case _ => Listener(protocols, before, k)
  }

  /** The signals that the steps of a run call for. */
  function Signals(protocols: set<ProtocolName>, ss: seq<Step>): seq<Channel>
    decreases |ss|
  {
    if ss == [] then []
    else
      var before, s := ss[..|ss| - 1], ss[|ss| - 1];
      Signals(protocols, before) +
      if s.Happened? && s.e.ResponseSent? && Listener(protocols, before, s.e.key).Some?
      then [Listener(protocols, before, s.e.key).value] else []
  }

  /** For every run: handlers are signalled exactly when the response they gave has been sent. */
  lemma {:induction false} SignalsAreDue(protocols: set<ProtocolName>, ss: seq<Step>, k: Key)
    ensures var t := Exec(Fresh(protocols), ss).t;
            && t.protocols == protocols && t.signals == Signals(protocols, ss)
            && Listener(protocols, ss, k) == if k in t.feedback then Some(t.feedback[k]) else None
    decreases |ss|
  {
    if ss != [] {
      var before, s := ss[..|ss| - 1], ss[|ss| - 1];
      assert before + [s] == ss;
      RunSnoc(Fresh(protocols), before, s);
      SignalsAreDue(protocols, before, k);
      if s.Happened? {
        SignalsAreDue(protocols, before, s.e.key);
      }
      SignalStep(Exec(Fresh(protocols), before), s, k);
    }
  }

  lemma SignalStep(w: World, s: Step, k: Key)
    ensures var t := Apply(w, s).t;
            && t.protocols == w.t.protocols
            && t.signals == w.t.signals + (if s.Happened? && s.e.ResponseSent? && s.e.key in w.t.feedback
                                           then [w.t.feedback[s.e.key]] else [])
            && (if s.Answered? && s.o.key == k && s.o.ok && s.o.sent && k.protocol in w.t.protocols && s.o.feedback.Some?
                then k in t.feedback && t.feedback[k] == s.o.feedback.value
                else if s.Happened? && (s.e.ResponseSent? || s.e.InboundFailure?) && s.e.key == k then k !in t.feedback
                else (k in t.feedback <==> k in w.t.feedback) && (k in t.feedback ==> t.feedback[k] == w.t.feedback[k]))
  {
  }
}
