/** What holds over every run of a filter and the network service below it, with messages in flight
    between the two. */
module FilterServiceRuns {
  import opened FilterService

  /** `up` and `down` are the channels between service and filter. `sender` and `request` record who
      sent each request and what it was; `latest` is the last request delivered from each peer. */
  datatype World = World(f: Filter, s: Service, up: seq<(Peer, RequestId)>, down: seq<Command>,
                         sender: map<RequestId, Peer>, request: map<RequestId, Pending>,
                         latest: map<Peer, RequestId>, outputs: seq<Output>)

  const START := World(Filter({}, map[]), Service(0, map[], map[]), [], [], map[], map[], map[], [])

  datatype Step =
    | Arrive(peer: Peer, digest: Digest, channel: Channel)
    | Deliver(x: Executed)
    | Register(peer: Peer, x: Executed)
    | Unregister(peer: Peer, x: Executed)
    | Tick(x: Executed)
    | Execute

  predicate Legal(w: World, s: Step) {
    match s
    case Deliver(_) => w.up != []
    case Execute => w.down != []
    case _ => true
  }

  function Filtered(w: World, r: Processed): World {
    w.(f := r.f, down := w.down + r.out)
  }

  function Apply(w: World, s: Step): World
    requires Legal(w, s)
  {
    match s
    case Arrive(p, d, c) =>
      var id := w.s.next;
      var (t, out) := OnRequest(w.s, p, d, c);
      w.(s := t, up := w.up + [(p, id)], sender := w.sender[id := p], request := w.request[id := Pending(d, c)],
         outputs := w.outputs + out)
    case Deliver(x) =>
      var (p, id) := w.up[0];
      Filtered(w.(up := w.up[1..], latest := w.latest[p := id]), InjectRequest(w.f, p, id, x))
    case Register(p, x) => Filtered(w, RegisterPeer(w.f, p, x))
    case Unregister(p, x) => Filtered(w, UnregisterPeer(w.f, p, x))
    case Tick(x) => Filtered(w, AfterExecutor(w.f, x))
    case Execute =>
      var (t, out) := OnCommand(w.s, w.down[0]);
      w.(s := t, down := w.down[1..], outputs := w.outputs + out)
  }

  // ----- the invariant -------------------------------------------------------------------------------

  /** `id` is an unanswered request of `p`. */
  predicate Waiting(w: World, p: Peer, id: RequestId) {
    id in w.s.pending && id in w.sender && w.sender[id] == p
  }

  predicate Issued(w: World) {
    && w.request.Keys == w.sender.Keys && (forall id | id in w.sender :: id < w.s.next)
    && (forall id | id in w.s.pending :: id in w.sender && id in w.request && w.s.pending[id] == w.request[id])
  }

  /** Requests on their way up, in the order of their ids. */
  predicate Upward(w: World) {
    && (forall j | 0 <= j < |w.up| :: Waiting(w, w.up[j].0, w.up[j].1))
    && (forall i, j | 0 <= i < j < |w.up| :: w.up[i].1 < w.up[j].1)
  }

  predicate Below(w: World, id: RequestId) {
    forall j | 0 <= j < |w.up| :: id < w.up[j].1
  }

  /** Requests the filter holds: one per peer, the latest one delivered. */
  predicate Held(w: World) {
    forall p | p in w.f.inbound ::
      && Waiting(w, p, w.f.inbound[p]) && Below(w, w.f.inbound[p])
      && p in w.latest && w.latest[p] == w.f.inbound[p]
  }

  /** Responses on their way down, each to a request that is waiting and no longer held. */
  predicate Downward(w: World) {
    && (forall k | 0 <= k < |w.down| && w.down[k].Respond? :: Free(w, w.down[k].peer, w.down[k].id))
    && (forall k, l | 0 <= k < l < |w.down| && w.down[k].Respond? && w.down[l].Respond? :: w.down[k].id != w.down[l].id)
  }

  predicate Free(w: World, p: Peer, id: RequestId) {
    Waiting(w, p, id) && Below(w, id) && (p in w.f.inbound ==> w.f.inbound[p] != id)
  }

  predicate Answers(o: Output, id: RequestId) {
    o.Answered? && o.id == id
  }

  ghost predicate WasAnswered(w: World, id: RequestId) {
    exists k | 0 <= k < |w.outputs| :: Answers(w.outputs[k], id)
  }

  /** A request that is no longer pending was answered. */
  ghost predicate Settled(w: World) {
    forall id | id in w.sender && id !in w.s.pending :: WasAnswered(w, id)
  }

  /** Answers went to requests that are no longer pending, on their own channels, and to none twice. */
  predicate AnsweredOnce(w: World) {
    && (forall k | 0 <= k < |w.outputs| && w.outputs[k].Answered? ::
          var o := w.outputs[k];
          o.id in w.sender && o.id !in w.s.pending && o.id in w.request && w.request[o.id].channel == o.channel)
    && (forall k, l | 0 <= k < l < |w.outputs| && w.outputs[k].Answered? && w.outputs[l].Answered? ::
          w.outputs[k].id != w.outputs[l].id)
  }

  /** The payload of the last response among `os` to a request with digest `d`. */
  function LastResponse(os: seq<Output>, request: map<RequestId, Pending>, d: Digest): seq<Bytes>
    decreases |os|
  {
    if os == [] then []
    else
      var o := os[|os| - 1];
      if o.Answered? && o.id in request && request[o.id].digest == d then [o.payload]
      else LastResponse(os[..|os| - 1], request, d)
  }

  /** The cache holds for each digest the last response given to a request with that digest. */
  predicate CacheAgrees(w: World, d: Digest) {
    LastResponse(w.outputs, w.request, d) == if d in w.s.cached then [w.s.cached[d]] else []
  }

  ghost predicate Inv(w: World) {
    && Issued(w) && Upward(w) && Held(w) && Downward(w) && AnsweredOnce(w) && Settled(w)
    && forall d :: CacheAgrees(w, d)
  }

  // ----- the filter ------------------------------------------------------------------------------------

  /** The part of the invariant the filter can touch. */
  predicate Routed(w: World) {
    Held(w) && Downward(w)
  }

  lemma NotifyAllOnly(f: Filter, ps: seq<Peer>)
    ensures forall c | c in NotifyAll(f, ps) :: c.Notify?
    decreases |ps|
  {
    if ps != [] {
      NotifyAllOnly(f, ps[1..]);
    }
  }

  lemma ProcessOneKeeps(w: World, e: ExecutorEvent)
    requires Routed(w)
    ensures Routed(Filtered(w, ProcessOne(w.f, e)))
  {
    var r := ProcessOne(w.f, e);
    var v := Filtered(w, r);
    if e.Forward? {
      NotifyAllOnly(w.f, e.peers);
      assert forall k | |w.down| <= k < |v.down| :: v.down[k] in r.out;
    }
  }

  lemma {:induction false} ProcessKeeps(w: World, es: seq<ExecutorEvent>)
    requires Routed(w)
    ensures Routed(Filtered(w, Process(w.f, es)))
    decreases |es|
  {
    if es == [] {
      assert w.down + [] == w.down;
    } else {
      var a := ProcessOne(w.f, es[0]);
      ProcessOneKeeps(w, es[0]);
      if a.ok {
        var v := Filtered(w, a);
        ProcessKeeps(v, es[1..]);
        assert w.down + (a.out + Process(a.f, es[1..]).out) == v.down + Process(a.f, es[1..]).out;
      }
    }
  }

  lemma AfterExecutorKeeps(w: World, x: Executed)
    requires Routed(w)
    ensures Routed(Filtered(w, AfterExecutor(w.f, x)))
  {
    if x.Failed? {
      assert w.down + [] == w.down;
    } else {
      ProcessKeeps(w, x.events);
    }
  }

  /** New outputs settle what has left the table of pending requests. */
  lemma SettledNext(w: World, v: World, out: seq<Output>)
    requires Settled(w) && v.outputs == w.outputs + out
    requires forall id | id in v.sender && id !in v.s.pending ::
               (id in w.sender && id !in w.s.pending) || (out != [] && Answers(out[0], id))
    ensures Settled(v)
  {
    forall id | id in v.sender && id !in v.s.pending
      ensures WasAnswered(v, id)
    {
      if id in w.sender && id !in w.s.pending {
        assert WasAnswered(w, id);
        var k :| 0 <= k < |w.outputs| && Answers(w.outputs[k], id);
        assert v.outputs[k] == w.outputs[k];
      } else {
        assert v.outputs[|w.outputs|] == out[0];
      }
    }
  }

  lemma FilterOnly(w: World, v: World)
    requires Inv(w) && Routed(v) && v == w.(f := v.f, down := v.down)
    ensures Inv(v)
  {
    assert v.outputs == w.outputs + [];
    SettledNext(w, v, []);
    forall d
      ensures CacheAgrees(v, d)
    {
      assert CacheAgrees(w, d);
    }
  }

  lemma RegisterKeeps(w: World, p: Peer, x: Executed)
    requires Inv(w)
    ensures Inv(Filtered(w, RegisterPeer(w.f, p, x)))
  {
    if p in w.f.peers || x.Failed? {
      assert w.down + [] == w.down;
    } else {
      var v := w.(f := w.f.(peers := w.f.peers + {p}));
      ProcessKeeps(v, x.events);
    }
    FilterOnly(w, Filtered(w, RegisterPeer(w.f, p, x)));
  }

  lemma UnregisterKeeps(w: World, p: Peer, x: Executed)
    requires Inv(w)
    ensures Inv(Filtered(w, UnregisterPeer(w.f, p, x)))
  {
    if p !in w.f.peers {
      assert w.down + [] == w.down;
    } else {
      var v := w.(f := w.f.(peers := w.f.peers - {p}));
      AfterExecutorKeeps(v, x);
    }
    FilterOnly(w, Filtered(w, UnregisterPeer(w.f, p, x)));
  }

  lemma DeliverKeeps(w: World, s: Step)
    requires Inv(w) && s.Deliver? && Legal(w, s)
    ensures Inv(Apply(w, s))
  {
    var (p, id) := w.up[0];
    var u := w.(up := w.up[1..], latest := w.latest[p := id], f := w.f.(inbound := w.f.inbound[p := id]));
    assert Waiting(w, w.up[0].0, w.up[0].1);
    assert Held(u);
    assert Downward(u) by {
      forall k | 0 <= k < |u.down| && u.down[k].Respond?
        ensures Free(u, u.down[k].peer, u.down[k].id)
      {
        assert Free(w, w.down[k].peer, w.down[k].id);
        assert w.down[k].id < w.up[0].1;
      }
    }
    AfterExecutorKeeps(u, s.x);
    assert u.outputs == w.outputs + [];
    SettledNext(w, u, []);
    assert Upward(u) && Issued(u) && AnsweredOnce(u);
    forall d
      ensures CacheAgrees(u, d)
    {
      assert CacheAgrees(w, d);
    }
    FilterOnly(u, Apply(w, s));
  }

  // ----- the service --------------------------------------------------------------------------------------

  lemma LastResponseSame(os: seq<Output>, request: map<RequestId, Pending>, id: RequestId, q: Pending, d: Digest)
    requires id !in request && forall k | 0 <= k < |os| && os[k].Answered? :: os[k].id in request
    ensures LastResponse(os, request[id := q], d) == LastResponse(os, request, d)
    decreases |os|
  {
    if os != [] {
      LastResponseSame(os[..|os| - 1], request, id, q, d);
    }
  }

  lemma LastResponseNext(os: seq<Output>, o: Output, request: map<RequestId, Pending>, d: Digest)
    ensures LastResponse(os + [o], request, d) ==
            if o.Answered? && o.id in request && request[o.id].digest == d then [o.payload]
            else LastResponse(os, request, d)
  {
    assert (os + [o])[..|os|] == os;
  }

  lemma ArriveCaches(w: World, s: Step, d: Digest)
    requires Inv(w) && s.Arrive?
    ensures CacheAgrees(Apply(w, s), d)
  {
    var id := w.s.next;
    assert id !in w.sender && CacheAgrees(w, d);
    LastResponseSame(w.outputs, w.request, id, Pending(s.digest, s.channel), d);
    LastResponseNext(w.outputs, RequestReceived(s.peer, id), Apply(w, s).request, d);
  }

  lemma ArriveRoutes(w: World, v: World, id: RequestId)
    requires Issued(w) && Held(w) && Downward(w) && id == w.s.next
    requires v.f == w.f && v.down == w.down && v.latest == w.latest && |v.up| == |w.up| + 1 && v.up[..|w.up|] == w.up
    requires v.up[|w.up|].1 == id && id in v.s.pending && id in v.sender
    requires forall k | k in w.s.pending :: k in v.s.pending
    requires forall k | k in w.sender :: k in v.sender && v.sender[k] == w.sender[k]
    ensures Held(v) && Downward(v)
  {
    assert forall j | 0 <= j < |w.up| :: v.up[j] == v.up[..|w.up|][j];
    forall p | p in v.f.inbound
      ensures Waiting(v, p, v.f.inbound[p]) && Below(v, v.f.inbound[p])
    {
      assert Waiting(w, p, w.f.inbound[p]) && Below(w, w.f.inbound[p]);
    }
    forall k | 0 <= k < |v.down| && v.down[k].Respond?
      ensures Free(v, v.down[k].peer, v.down[k].id)
    {
      assert Free(w, w.down[k].peer, w.down[k].id);
    }
  }

  lemma ArriveKeeps(w: World, s: Step)
    requires Inv(w) && s.Arrive?
    ensures Inv(Apply(w, s))
  {
    var v := Apply(w, s);
    var id := w.s.next;
    assert id !in w.sender;
    forall d
      ensures CacheAgrees(v, d)
    {
      ArriveCaches(w, s, d);
    }
    SettledNext(w, v, [RequestReceived(s.peer, id)]);
    assert Upward(v) && Issued(v) && AnsweredOnce(v);
    ArriveRoutes(w, v, id);
  }

  /** A command that answers no request leaves all answers alone. */
  lemma QuietCommandKeeps(w: World, s: Step)
    requires Inv(w) && s.Execute? && Legal(w, s) && !w.down[0].Respond?
    ensures Inv(Apply(w, s))
  {
    var v := Apply(w, s);
    var out := OnCommand(w.s, w.down[0]).1;
    forall d
      ensures CacheAgrees(v, d)
    {
      assert CacheAgrees(w, d);
      if out == [] {
        assert v.outputs == w.outputs;
      } else {
        LastResponseNext(w.outputs, out[0], w.request, d);
        assert v.outputs == w.outputs + [out[0]];
      }
    }
    SettledNext(w, v, out);
    assert AnsweredOnce(v);
    DownOne(w, v);
  }

  /** Dropping the head of the downward channel. */
  lemma DownOne(w: World, v: World)
    requires Issued(w) && Upward(w) && Held(w) && Downward(w) && w.down != [] && v.down == w.down[1..]
    requires v.up == w.up && v.f == w.f && v.sender == w.sender && v.request == w.request && v.latest == w.latest
    requires v.s.pending == w.s.pending && v.s.next >= w.s.next
    ensures Issued(v) && Upward(v) && Held(v) && Downward(v)
  {
    forall k | 0 <= k < |v.down| && v.down[k].Respond?
      ensures Free(v, v.down[k].peer, v.down[k].id)
    {
      assert Free(w, w.down[k + 1].peer, w.down[k + 1].id);
    }
  }

  lemma ResponseFindsRequest(w: World)
    requires Inv(w) && w.down != [] && w.down[0].Respond?
    ensures Waiting(w, w.down[0].peer, w.down[0].id)
  {
    assert Free(w, w.down[0].peer, w.down[0].id);
  }

  lemma RespondRoutes(w: World, v: World, id: RequestId)
    requires Issued(w) && Upward(w) && Held(w) && Downward(w)
    requires w.down != [] && w.down[0].Respond? && w.down[0].id == id
    requires v.down == w.down[1..] && v.s.pending == w.s.pending - {id} && v.s.next == w.s.next
    requires v.up == w.up && v.f == w.f && v.sender == w.sender && v.request == w.request && v.latest == w.latest
    ensures Issued(v) && Upward(v) && Held(v) && Downward(v)
  {
    assert Free(w, w.down[0].peer, id);
    forall p | p in w.f.inbound
      ensures w.f.inbound[p] != id
    {
      assert Waiting(w, p, w.f.inbound[p]);
    }
    forall k | 0 <= k < |v.down| && v.down[k].Respond?
      ensures Free(v, v.down[k].peer, v.down[k].id)
    {
      assert Free(w, w.down[k + 1].peer, w.down[k + 1].id);
      assert w.down[0].id != w.down[k + 1].id;
    }
  }

  lemma RespondKeeps(w: World, s: Step)
    requires Inv(w) && s.Execute? && Legal(w, s) && w.down[0].Respond?
    ensures Inv(Apply(w, s))
  {
    ResponseFindsRequest(w);
    var v := Apply(w, s);
    var id := w.down[0].id;
    var o := Answered(id, w.s.pending[id].channel, w.down[0].payload);
    assert v.outputs == w.outputs + [o];
    forall d
      ensures CacheAgrees(v, d)
    {
      assert CacheAgrees(w, d);
      LastResponseNext(w.outputs, o, w.request, d);
    }
    SettledNext(w, v, [o]);
    assert AnsweredOnce(v);
    RespondRoutes(w, v, id);
  }

  // ----- every run ---------------------------------------------------------------------------------------------

  lemma StepKeeps(w: World, s: Step)
    requires Inv(w) && Legal(w, s)
    ensures Inv(Apply(w, s))
  {
    match s
    case Arrive(_, _, _) => ArriveKeeps(w, s);
    case Deliver(_) => DeliverKeeps(w, s);
    case Register(p, x) => RegisterKeeps(w, p, x);
    case Unregister(p, x) => UnregisterKeeps(w, p, x);
    case Tick(x) =>
      AfterExecutorKeeps(w, x);
      FilterOnly(w, Apply(w, s));
    case Execute =>
      if w.down[0].Respond? {
        RespondKeeps(w, s);
      } else {
        QuietCommandKeeps(w, s);
      }
  }

  predicate LegalRun(w: World, ss: seq<Step>)
    decreases |ss|
  {
    ss == [] || (Legal(w, ss[0]) && LegalRun(Apply(w, ss[0]), ss[1..]))
  }

  function Exec(w: World, ss: seq<Step>): World
    requires LegalRun(w, ss)
    decreases |ss|
  {
    if ss == [] then w else Exec(Apply(w, ss[0]), ss[1..])
  }

  lemma {:induction false} RunKeeps(w: World, ss: seq<Step>)
    requires Inv(w) && LegalRun(w, ss)
    ensures Inv(Exec(w, ss))
    decreases |ss|
  {
    if ss != [] {
      StepKeeps(w, ss[0]);
      RunKeeps(Apply(w, ss[0]), ss[1..]);
    }
  }

  lemma StartKeeps()
    ensures Inv(START)
  {
  }

  /** For every run: every incoming request is answered at most once, exactly if it is no longer
      pending, on the channel it came with, and only by a response the filter sent for the peer it came from; what the filter holds for a
      peer is that peer's latest delivered request, still unanswered; every response sent down
      finds its request; and the cache holds for each digest the last response given to it. */
  lemma EveryRun(ss: seq<Step>, d: Digest)
    requires LegalRun(START, ss)
    ensures var w := Exec(START, ss);
            && AnsweredOnce(w)
            && (forall id | id in w.sender :: WasAnswered(w, id) <==> id !in w.s.pending)
            && Held(w)
            && Downward(w)
            && CacheAgrees(w, d)
  {
    StartKeeps();
    RunKeeps(START, ss);
  }

  /** A request served from the cache gets the last response given to a request with its digest. */
  lemma CacheServesLastResponse(ss: seq<Step>)
    requires LegalRun(START, ss) && Exec(START, ss).down != [] && Exec(START, ss).down[0].Ask?
    ensures var w := Exec(START, ss); var d := w.down[0].digest; var last := LastResponse(w.outputs, w.request, d);
            OnCommand(w.s, w.down[0]).1 ==
            [if last == [] then FromNetwork(w.s.next, d) else FromCache(w.s.next, d, last[0])]
  {
    StartKeeps();
    RunKeeps(START, ss);
    var w := Exec(START, ss);
    assert CacheAgrees(w, w.down[0].digest);
  }

  // ----- ids -------------------------------------------------------------------------------------------------------

  /** Outputs that announce a new id, for a request from a peer or for one of our own. */
  predicate Issues(o: Output) {
    !o.Answered?
  }

  /** Ids were issued in increasing order. */
  predicate Increasing(w: World) {
    && (forall k | 0 <= k < |w.outputs| && Issues(w.outputs[k]) :: w.outputs[k].id < w.s.next)
    && (forall k, l | 0 <= k < l < |w.outputs| && Issues(w.outputs[k]) && Issues(w.outputs[l]) ::
          w.outputs[k].id < w.outputs[l].id)
  }

  lemma IdsStep(w: World, s: Step)
    requires Increasing(w) && Legal(w, s)
    ensures Increasing(Apply(w, s))
  {
  }

  lemma {:induction false} IdsRun(w: World, ss: seq<Step>)
    requires Increasing(w) && LegalRun(w, ss)
    ensures Increasing(Exec(w, ss))
    decreases |ss|
  {
    if ss != [] {
      IdsStep(w, ss[0]);
      IdsRun(Apply(w, ss[0]), ss[1..]);
    }
  }

  /** For every run: no id is issued twice, neither to a request that came in nor to one sent out. */
  lemma IdsIssuedOnce(ss: seq<Step>, k: nat, l: nat)
    requires LegalRun(START, ss) && k < l < |Exec(START, ss).outputs|
    requires Issues(Exec(START, ss).outputs[k]) && Issues(Exec(START, ss).outputs[l])
    ensures Exec(START, ss).outputs[k].id < Exec(START, ss).outputs[l].id
  {
    IdsRun(START, ss);
  }
}
