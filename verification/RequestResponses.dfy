/** The bookkeeping of the request-response protocols: which reply channel belongs to which
    outgoing request, and which incoming requests are on their way to a handler. */
module RequestResponses {
  import opened Wrappers
  import opened Reputation

  type ProtocolName = nat
  type Bytes = seq<bv8>

  /** Request ids are only unique within their protocol. */
  datatype Key = Key(protocol: ProtocolName, id: nat)

  /** A reply channel, as handed in by the caller of `send_request`. */
  type Channel = nat

  datatype Reply = Response(key: Key, payload: Bytes) | Refused(key: Key) | Network(key: Key)
                 | NotConnected | UnknownProtocol

  datatype Answer = Answer(channel: Channel, reply: Reply)

  /** An incoming request passed to its handler, or discarded for its sender's low reputation. */
  datatype Fate = HandedOn(key: Key) | Discarded(key: Key)

  /** The behaviour's own state and output. `slot` is the request whose sender's reputation is awaited,
      `answers` the replies it sent, `fates` what it did with the requests that came in, and `signals`
      the handlers it told that their response was sent. */
  datatype Table = Table(protocols: set<ProtocolName>, pending: map<Key, Channel>, arrivals: set<Key>,
                         feedback: map<Key, Channel>, slot: Option<Key>,
                         answers: seq<Answer>, fates: seq<Fate>, signals: seq<Channel>)

  /** What libp2p and the callers did so far: `owner` maps every accepted outgoing request to its
      channel, `open` holds those not finished yet; `seen` lists the requests that came in,
      `unsettled` holds those not finished yet; `sends` lists the channels of all calls. */
  datatype Env = Env(owner: map<Key, Channel>, open: set<Key>, seen: seq<Key>, unsettled: set<Key>,
                     sends: seq<Channel>)

  datatype World = World(t: Table, env: Env)

  /** Events of the underlying libp2p behaviours. */
  datatype Event =
    | RequestArrived(key: Key)
    | ResponseArrived(key: Key, response: Option<Bytes>)
    | OutboundFailure(key: Key)
    | InboundFailure(key: Key)
    | ResponseSent(key: Key)

  /** A handler's answer to an incoming request: `sent` says whether libp2p took the response. */
  datatype Outcome = Outcome(key: Key, ok: bool, sent: bool, feedback: Option<Channel>, changes: bool)

  datatype Step =
    | Send(protocol: ProtocolName, channel: Channel, reachable: bool, id: nat)
    | Reputed(score: int)
    | Answered(o: Outcome)
    | Happened(e: Event)

  // ----- effects ------------------------------------------------------------------------------------

  function Replied(t: Table, c: Channel, r: Reply): Table {
    t.(answers := t.answers + [Answer(c, r)])
  }

  function SendRequest(w: World, protocol: ProtocolName, c: Channel, reachable: bool, id: nat): World {
    var env := w.env.(sends := w.env.sends + [c]);
    var k := Key(protocol, id);
    if protocol !in w.t.protocols then World(Replied(w.t, c, UnknownProtocol), env)
    else if !reachable then World(Replied(w.t, c, NotConnected), env)
    else World(w.t.(pending := w.t.pending[k := c]), env.(owner := env.owner[k := c], open := env.open + {k}))
  }

  function Finish(w: World, k: Key, r: Reply): World {
    if k !in w.t.pending then w
    else World(Replied(w.t, w.t.pending[k], r).(pending := w.t.pending - {k}), w.env.(open := w.env.open - {k}))
  }

  function OnEvent(w: World, e: Event): World {
    match e
    case RequestArrived(k) =>
      World(w.t.(arrivals := w.t.arrivals + {k}, slot := Some(k)),
            w.env.(seen := w.env.seen + [k], unsettled := w.env.unsettled + {k}))
    case ResponseArrived(k, response) =>
      Finish(w, k, if response.Some? then Response(k, response.value) else Refused(k))
    case OutboundFailure(k) => Finish(w, k, Network(k))
    case InboundFailure(k) =>
      World(w.t.(arrivals := w.t.arrivals - {k}, feedback := w.t.feedback - {k}),
            w.env.(unsettled := w.env.unsettled - {k}))
    case ResponseSent(k) =>
      World(w.t.(arrivals := w.t.arrivals - {k}, feedback := w.t.feedback - {k},
                 signals := w.t.signals + if k in w.t.feedback then [w.t.feedback[k]] else []),
            w.env.(unsettled := w.env.unsettled - {k}))
  }

  function OnReputation(w: World, score: int): World {
    if w.t.slot.None? then w
    else
      var k := w.t.slot.value;
      w.(t := w.t.(slot := None,
                   fates := w.t.fates + [if score < BANNED_THRESHOLD then Discarded(k) else HandedOn(k)]))
  }

  function OnOutcome(w: World, o: Outcome): World {
    if o.ok && o.key.protocol in w.t.protocols && o.sent && o.feedback.Some?
    then w.(t := w.t.(feedback := w.t.feedback[o.key := o.feedback.value])) else w
  }

  function Apply(w: World, s: Step): World {
    match s
    case Send(protocol, c, reachable, id) => SendRequest(w, protocol, c, reachable, id)
    case Reputed(score) => OnReputation(w, score)
    case Answered(o) => OnOutcome(w, o)
    case Happened(e) => OnEvent(w, e)
  }

  /** libp2p never repeats an id within a protocol and finishes each request at most once. */
  predicate Lawful(env: Env, e: Event) {
    match e
    case RequestArrived(k) => k !in env.seen
    case ResponseArrived(k, _) => k in env.open
    case OutboundFailure(k) => k in env.open
    case InboundFailure(_) => true
    case ResponseSent(k) => k in env.unsettled
  }

  /** Callers use each channel once, and libp2p keeps its word. */
  predicate Legal(w: World, s: Step) {
    match s
    case Send(protocol, c, _, id) => c !in w.env.sends && Key(protocol, id) !in w.env.owner
    case Reputed(_) => true
    case Answered(_) => true
    case Happened(e) => Lawful(w.env, e)
  }

  // ----- what every step keeps ----------------------------------------------------------------------

  /** How many replies channel `c` got. */
  function Replies(answers: seq<Answer>, c: Channel): nat {
    if answers == [] then 0
    else Replies(answers[..|answers| - 1], c) + if answers[|answers| - 1].channel == c then 1 else 0
  }

  ghost predicate Awaits(t: Table, c: Channel) {
    exists k :: k in t.pending && t.pending[k] == c
  }

  /** The request a reply is about. */
  function About(r: Reply): Option<Key> {
    match r
    case Response(k, _) => Some(k)
    case Refused(k) => Some(k)
    case Network(k) => Some(k)
    case _ => None
  }

  /** Pending requests are the accepted, unfinished ones, each with its own channel. */
  ghost predicate Owned(w: World) {
    && w.t.pending.Keys == w.env.open
    && (forall k | k in w.t.pending :: k in w.env.owner && w.t.pending[k] == w.env.owner[k])
    && (forall k, l | k in w.env.owner && l in w.env.owner && w.env.owner[k] == w.env.owner[l] :: k == l)
    && (forall k | k in w.env.owner :: w.env.owner[k] in w.env.sends)
  }

  /** A channel that was handed in either awaits its reply or got it, once. */
  ghost predicate RepliedOnce(w: World) {
    forall c :: Replies(w.t.answers, c) == if c in w.env.sends && !Awaits(w.t, c) then 1 else 0
  }

  /** Replies go to the channel of the request they are about. */
  ghost predicate Attributed(w: World) {
    forall a | a in w.t.answers && About(a.reply).Some? ::
      About(a.reply).value in w.env.owner && w.env.owner[About(a.reply).value] == a.channel
  }

  function Keys(fates: seq<Fate>): seq<Key> {
    seq(|fates|, i requires 0 <= i < |fates| => fates[i].key)
  }

  function Parked(t: Table): seq<Key> {
    if t.slot.Some? then [t.slot.value] else []
  }

  /** The requests that came in, in their order, are those whose fate is decided, followed by the one
      in the slot; arrival times are kept exactly for the unsettled ones. */
  ghost predicate InboundBooks(w: World) {
    && w.env.seen == Keys(w.t.fates) + Parked(w.t)
    && w.t.arrivals == w.env.unsettled && forall k | k in w.env.unsettled :: k in w.env.seen
  }

  ghost predicate OutboundBooks(w: World) {
    Owned(w) && RepliedOnce(w) && Attributed(w)
  }

  ghost predicate Inv(w: World) {
    OutboundBooks(w) && InboundBooks(w)
  }

  lemma RepliesNext(answers: seq<Answer>, a: Answer, c: Channel)
    ensures Replies(answers + [a], c) == Replies(answers, c) + if a.channel == c then 1 else 0
  {
    assert (answers + [a])[..|answers|] == answers;
  }

  /** A new channel that is answered on the spot. */
  lemma RefusedSend(w: World, v: World, c: Channel, r: Reply)
    requires Owned(w) && RepliedOnce(w) && c !in w.env.sends && v.t.pending == w.t.pending
    requires v.env.sends == w.env.sends + [c] && v.t.answers == w.t.answers + [Answer(c, r)]
    ensures RepliedOnce(v)
  {
    forall d
      ensures Replies(v.t.answers, d) == if d in v.env.sends && !Awaits(v.t, d) then 1 else 0
    {
      RepliesNext(w.t.answers, Answer(c, r), d);
      assert Awaits(v.t, d) <==> Awaits(w.t, d);
      assert Awaits(w.t, d) ==> d in w.env.sends;
    }
  }

  /** A new channel that waits for the request just made. */
  lemma AcceptedSend(w: World, v: World, c: Channel, k: Key)
    requires Owned(w) && RepliedOnce(w) && c !in w.env.sends && k !in w.t.pending
    requires v.t.pending == w.t.pending[k := c]
    requires v.env.sends == w.env.sends + [c] && v.t.answers == w.t.answers
    ensures RepliedOnce(v)
  {
    forall d
      ensures Replies(v.t.answers, d) == if d in v.env.sends && !Awaits(v.t, d) then 1 else 0
    {
      assert k in v.t.pending && v.t.pending[k] == c;
      assert forall l | l in w.t.pending :: l in v.t.pending && v.t.pending[l] == w.t.pending[l];
      assert d != c ==> (Awaits(v.t, d) <==> Awaits(w.t, d));
    }
  }

  lemma SendKeeps(w: World, s: Step)
    requires OutboundBooks(w) && s.Send? && Legal(w, s)
    ensures OutboundBooks(Apply(w, s))
  {
    var v := Apply(w, s);
    var k := Key(s.protocol, s.id);
    if s.protocol in w.t.protocols && s.reachable {
      AcceptedSend(w, v, s.channel, k);
      SentOwned(w, v, s.channel, k);
    } else {
      RefusedSend(w, v, s.channel, if s.protocol in w.t.protocols then NotConnected else UnknownProtocol);
    }
  }

  lemma SentOwned(w: World, v: World, c: Channel, k: Key)
    requires Owned(w) && Attributed(w) && c !in w.env.sends && k !in w.env.owner
    requires v.t.pending == w.t.pending[k := c] && v.env.sends == w.env.sends + [c] && v.t.answers == w.t.answers
    requires v.env.owner == w.env.owner[k := c] && v.env.open == w.env.open + {k}
    ensures Owned(v) && Attributed(v)
  {
  }

  lemma FinishReplies(w: World, v: World, k: Key, c: Channel, r: Reply)
    requires Owned(w) && RepliedOnce(w) && k in w.t.pending && w.t.pending[k] == c
    requires v.t.pending == w.t.pending - {k}
    requires v.env.sends == w.env.sends && v.t.answers == w.t.answers + [Answer(c, r)]
    ensures RepliedOnce(v)
  {
    forall d
      ensures Replies(v.t.answers, d) == if d in v.env.sends && !Awaits(v.t, d) then 1 else 0
    {
      RepliesNext(w.t.answers, Answer(c, r), d);
      assert Awaits(w.t, c) && c in w.env.sends;
      if d != c {
        assert forall l | l in w.t.pending && l != k :: l in v.t.pending && v.t.pending[l] == w.t.pending[l];
        assert Awaits(v.t, d) <==> Awaits(w.t, d);
      } else {
        assert !Awaits(v.t, c);
      }
    }
  }

  lemma FinishKeeps(w: World, k: Key, r: Reply)
    requires OutboundBooks(w) && k in w.env.open && About(r) == Some(k)
    ensures OutboundBooks(Finish(w, k, r))
  {
    FinishReplies(w, Finish(w, k, r), k, w.t.pending[k], r);
  }

  /** Every step keeps the books of outgoing requests. */
  lemma OutboundKept(w: World, s: Step)
    requires OutboundBooks(w) && Legal(w, s)
    ensures OutboundBooks(Apply(w, s))
  {
    match s
    case Send(_, _, _, _) => SendKeeps(w, s);
    case Happened(e) =>
      match e {
        case ResponseArrived(k, response) =>
          FinishKeeps(w, k, if response.Some? then Response(k, response.value) else Refused(k));
        case OutboundFailure(k) => FinishKeeps(w, k, Network(k));
        case _ => SamePending(w, Apply(w, s));
      }
    case Reputed(_) => SamePending(w, Apply(w, s));
    case Answered(_) => SamePending(w, Apply(w, s));
  }

  /** A reputation is taken while the slot is full, and outcomes and events while it is empty. */
  predicate Gated(w: World, s: Step) {
    match s
    case Send(_, _, _, _) => true
    case Reputed(_) => w.t.slot.Some?
    case Answered(_) => w.t.slot.None?
    case Happened(_) => w.t.slot.None?
  }

  /** A step taken at the right time keeps the books of incoming requests. */
  lemma InboundKept(w: World, s: Step)
    requires InboundBooks(w) && Legal(w, s) && Gated(w, s)
    ensures InboundBooks(Apply(w, s))
  {
    if s.Reputed? {
      FateDecided(w, s.score);
    }
  }

  lemma StepKeeps(w: World, s: Step)
    requires Inv(w) && Legal(w, s) && Gated(w, s)
    ensures Inv(Apply(w, s))
  {
    OutboundKept(w, s);
    InboundKept(w, s);
  }

  lemma FateDecided(w: World, score: int)
    requires InboundBooks(w) && w.t.slot.Some?
    ensures InboundBooks(OnReputation(w, score))
  {
    var v := OnReputation(w, score);
    assert Keys(v.t.fates) == Keys(w.t.fates) + [w.t.slot.value];
  }

  lemma SamePending(w: World, v: World)
    requires v.t.pending == w.t.pending
    ensures forall c :: Awaits(v.t, c) == Awaits(w.t, c)
  {
    forall c
      ensures Awaits(v.t, c) == Awaits(w.t, c)
    {
    }
  }

  /** Nothing sent, nothing received. */
  function Fresh(protocols: set<ProtocolName>): World {
    World(Table(protocols, map[], {}, map[], None, [], [], []), Env(map[], {}, [], {}, []))
  }

  lemma FreshKeeps(protocols: set<ProtocolName>)
    ensures Inv(Fresh(protocols))
  {
  }

  // ----- the poll loop ------------------------------------------------------------------------------

  datatype PollResult = Pending | ReputationChanges | RequestFinished(key: Key) | InboundSettled(key: Key)

  /** The reputations, handler outcomes and libp2p events that are ready, in the order in which they come. */
  datatype Ready = Ready(scores: seq<int>, outcomes: seq<Outcome>, events: seq<Event>)

  /** How a poll leaves the world, what it reports, and the steps it took. */
  datatype Polled = Polled(w: World, r: PollResult, steps: seq<Step>)

  function After(ss: seq<Step>, p: Polled): Polled {
    p.(steps := ss + p.steps)
  }

  function Report(e: Event): PollResult {
    if e.ResponseArrived? || e.OutboundFailure? then RequestFinished(e.key) else InboundSettled(e.key)
  }

  /** One call of the poll loop: a full slot is resolved before anything else, and each incoming request
      starts the loop over. */
  function PollOf(w: World, q: Ready): Polled
    decreases |q.scores| + |q.outcomes| + |q.events|
  {
    if w.t.slot.Some? then
      if q.scores == [] then Polled(w, Pending, [])
      else After([Reputed(q.scores[0])], PollOf(OnReputation(w, q.scores[0]), q.(scores := q.scores[1..])))
    else if q.outcomes != [] then
      var o := q.outcomes[0];
      if o.changes then Polled(OnOutcome(w, o), ReputationChanges, [Answered(o)])
      else After([Answered(o)], PollOf(OnOutcome(w, o), q.(outcomes := q.outcomes[1..])))
    else if q.events == [] then Polled(w, Pending, [])
    else
      var e := q.events[0];
      if e.RequestArrived? then After([Happened(e)], PollOf(OnEvent(w, e), q.(events := q.events[1..])))
      else Polled(OnEvent(w, e), Report(e), [Happened(e)])
  }

  /** Events that are lawful one after the other. */
  predicate LawfulAll(env: Env, es: seq<Event>)
    decreases |es|
  {
    es == [] || (Lawful(env, es[0]) && LawfulAll(Libp2p(env, es[0]), es[1..]))
  }

  /** What an event means for the two sides' open requests. */
  function Libp2p(env: Env, e: Event): Env {
    match e
    case RequestArrived(k) => env.(seen := env.seen + [k], unsettled := env.unsettled + {k})
    case ResponseArrived(k, _) => env.(open := env.open - {k})
    case OutboundFailure(k) => env.(open := env.open - {k})
    case InboundFailure(k) => env.(unsettled := env.unsettled - {k})
    case ResponseSent(k) => env.(unsettled := env.unsettled - {k})
  }

  lemma EventEnv(w: World, e: Event)
    requires Owned(w) && Lawful(w.env, e)
    ensures OnEvent(w, e).env == Libp2p(w.env, e)
  {
  }

  // ----- the behaviour as an object -----------------------------------------------------------------

  lemma Regroup(ss: seq<Step>, s: Step, p: Polled)
    ensures After(ss, After([s], p)) == After(ss + [s], p)
  {
  }

  class Behaviour {
    var protocols: set<ProtocolName>
    var pending: map<Key, Channel>
    var arrivals: set<Key>
    var feedback: map<Key, Channel>
    var slot: Option<Key>
    var answers: seq<Answer>
    var fates: seq<Fate>
    var signals: seq<Channel>
    ghost var env: Env

    ghost function View(): World
      reads this
    {
      World(Table(protocols, pending, arrivals, feedback, slot, answers, fates, signals), env)
    }

    ghost predicate Valid()
      reads this
    {
      Inv(View())
    }

    constructor (names: set<ProtocolName>)
      ensures View() == Fresh(names)
      ensures Valid()
    {
      protocols, pending, arrivals, feedback, slot := names, map[], {}, map[], None;
      answers, fates, signals := [], [], [];
      env := Fresh(names).env;
      new;
      FreshKeeps(names);
    }

    /** `reachable` is whether the peer is connected or may be dialed; `id` is libp2p's choice. */
    method SendRequest(protocol: ProtocolName, c: Channel, reachable: bool, id: nat)
      requires Valid() && Legal(View(), Send(protocol, c, reachable, id))
      modifies this
      ensures View() == Apply(old(View()), Send(protocol, c, reachable, id))
      ensures Valid()
    {
      StepKeeps(View(), Send(protocol, c, reachable, id));
      ghost var next := Apply(View(), Send(protocol, c, reachable, id)).env;
      if protocol in protocols {
        if reachable {
          assert Key(protocol, id) !in pending;
          pending := pending[Key(protocol, id) := c];
        } else {
          answers := answers + [Answer(c, NotConnected)];
        }
      } else {
        answers := answers + [Answer(c, UnknownProtocol)];
      }
      env := next;
    }

    /** Handles one event of libp2p; `None` means that the loop goes on. */
    method HandleEvent(e: Event) returns (r: Option<PollResult>)
      requires Valid() && slot == None && Legal(View(), Happened(e))
      modifies this
      ensures View() == Apply(old(View()), Happened(e))
      ensures Valid()
      ensures r == None <==> e.RequestArrived?
      ensures r.Some? ==> r.value == Report(e)
    {
      StepKeeps(View(), Happened(e));
      ghost var next := Apply(View(), Happened(e)).env;
      match e {
        case RequestArrived(k) =>
          arrivals := arrivals + {k};
          assert slot == None;
          slot := Some(k);
          r := None;
        case ResponseArrived(k, response) =>
          assert k in pending;
          var c := pending[k];
          pending := pending - {k};
          answers := answers + [Answer(c, if response.Some? then Response(k, response.value) else Refused(k))];
          r := Some(RequestFinished(k));
        case OutboundFailure(k) =>
          assert k in pending;
          var c := pending[k];
          pending := pending - {k};
          answers := answers + [Answer(c, Network(k))];
          r := Some(RequestFinished(k));
        case InboundFailure(k) =>
          arrivals := arrivals - {k};
          feedback := feedback - {k};
          r := Some(InboundSettled(k));
        case ResponseSent(k) =>
          assert k in arrivals;
          arrivals := arrivals - {k};
          if k in feedback {
            signals := signals + [feedback[k]];
          }
          feedback := feedback - {k};
          r := Some(InboundSettled(k));
      }
      env := next;
    }

    /** The poll loop, given what is ready. */
    method Poll(scores: seq<int>, outcomes: seq<Outcome>, events: seq<Event>)
      returns (r: PollResult, ghost ss: seq<Step>)
      requires Valid() && LawfulAll(env, events)
      modifies this
      ensures Polled(View(), r, ss) == PollOf(old(View()), Ready(scores, outcomes, events))
      ensures Valid()
    {
      ghost var goal := PollOf(View(), Ready(scores, outcomes, events));
      var rest, todo, left := scores, outcomes, events;
      ss := [];
      while true
        invariant Valid() && LawfulAll(env, left)
        invariant goal == After(ss, PollOf(View(), Ready(rest, todo, left)))
        decreases |rest| + |todo| + |left|
      {
        if slot.Some? {
          if rest == [] {
            return Pending, ss;
          }
          Regroup(ss, Reputed(rest[0]), PollOf(OnReputation(View(), rest[0]), Ready(rest[1..], todo, left)));
          ss := ss + [Reputed(rest[0])];
          ResolveSlot(rest[0]);
          rest := rest[1..];
          continue;
        }
        var stop;
        stop, todo, ss := SendReady(todo, goal, ss, rest, left);
        if stop {
          return ReputationChanges, ss;
        }
        if left == [] {
          return Pending, ss;
        }
        EventEnv(View(), left[0]);
        Regroup(ss, Happened(left[0]), PollOf(OnEvent(View(), left[0]), Ready(rest, todo, left[1..])));
        ss := ss + [Happened(left[0])];
        var result := HandleEvent(left[0]);
        left := left[1..];
        if result.Some? {
          return result.value, ss;
        }
      }
    }

    /** The inner loop: the handlers' answers, up to the first that reports reputation changes. */
    method SendReady(outcomes: seq<Outcome>, ghost goal: Polled, ghost before: seq<Step>,
                     ghost scores: seq<int>, ghost events: seq<Event>)
      returns (stop: bool, left: seq<Outcome>, ghost ss: seq<Step>)
      requires Valid() && slot == None
      requires goal == After(before, PollOf(View(), Ready(scores, outcomes, events)))
      modifies this`feedback
      ensures Valid() && |left| <= |outcomes|
      ensures stop ==> goal == Polled(View(), ReputationChanges, ss)
      ensures !stop ==> left == [] && goal == After(ss, PollOf(View(), Ready(scores, [], events)))
    {
      left, ss := outcomes, before;
      while left != []
        invariant Valid() && |left| <= |outcomes|
        invariant goal == After(ss, PollOf(View(), Ready(scores, left, events)))
        decreases |left|
      {
        var o := left[0];
        Regroup(ss, Answered(o), PollOf(OnOutcome(View(), o), Ready(scores, left[1..], events)));
        ss := ss + [Answered(o)];
        HandleOutcome(o);
        left := left[1..];
        if o.changes {
          return true, left, ss;
        }
      }
      return false, left, ss;
    }

    method ResolveSlot(score: int)
      requires Valid() && slot.Some?
      modifies this
      ensures View() == Apply(old(View()), Reputed(score))
      ensures Valid() && slot == None
    {
      StepKeeps(View(), Reputed(score));
      var k := slot.value;
      slot := None;
      if score < BANNED_THRESHOLD {
        fates := fates + [Discarded(k)];
      } else {
        fates := fates + [HandedOn(k)];
      }
    }

    method HandleOutcome(o: Outcome)
      requires Valid() && slot == None
      modifies this`feedback
      ensures View() == Apply(old(View()), Answered(o))
      ensures Valid()
    {
      StepKeeps(View(), Answered(o));
      if o.ok && o.key.protocol in protocols && o.sent && o.feedback.Some? {
        feedback := feedback[o.key := o.feedback.value];
      }
    }
  }
}
