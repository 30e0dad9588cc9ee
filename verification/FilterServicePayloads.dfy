/** Which commands a batch of executor events amounts to, and where the payload of an answer comes from. */
module FilterServicePayloads {
  import opened Counting
  import opened FilterService
  import opened FilterServiceRuns
  import opened FilterServiceLosses

  // ----- one batch ------------------------------------------------------------------------------------------

  /** A forwarded notification goes to the registered ones of its peers, as often as each is listed. */
  lemma {:induction false} NotifiedPeers(f: Filter, ps: seq<Peer>, p: Peer)
    ensures Occ(NotifyAll(f, ps), Notify(p)) == if p in f.peers then Occ(ps, p) else 0
    ensures forall c | c in NotifyAll(f, ps) :: c.Notify?
    decreases |ps|
  {
    if ps != [] {
      NotifiedPeers(f, ps[1..], p);
      assert ps == [ps[0]] + ps[1..];
      OccAppend([ps[0]], ps[1..], p);
      OccOne(ps[0], p);
      var first := if ps[0] in f.peers then [Notify(ps[0])] else [];
      OccAppend(first, NotifyAll(f, ps[1..]), Notify(p));
      OccOne(Notify(ps[0]), Notify(p));
    }
  }

  /** A response to `p` is among the first `n` events. */
  predicate Responded(es: seq<ExecutorEvent>, n: nat, p: Peer)
    requires n <= |es|
  {
    exists j | 0 <= j < n :: es[j].SendResponse? && es[j].peer == p
  }

  /** The commands that event `k` of a batch gives rise to, in terms of the filter before the batch: only the
      first response to a peer answers the request held for it. */
  function Emits(f: Filter, es: seq<ExecutorEvent>, k: nat): seq<Command>
    requires k < |es|
  {
    match es[k]
    case Connect(_) => []
    case Forward(ps) => NotifyAll(f, ps)
    case SendRequest(p, d) => [Ask(p, d)]
    case SendResponse(p, payload) =>
      if p in f.inbound && !Responded(es, k, p) then [Respond(p, f.inbound[p], payload)] else []
  }

  function EmitsUpTo(f: Filter, es: seq<ExecutorEvent>, n: nat): seq<Command>
    requires n <= |es|
  {
    if n == 0 then [] else EmitsUpTo(f, es, n - 1) + Emits(f, es, n - 1)
  }

  lemma {:induction false} ProcessSnoc(f: Filter, es: seq<ExecutorEvent>, e: ExecutorEvent)
    requires Process(f, es).ok
    ensures var a := Process(f, es); var b := ProcessOne(a.f, e);
            Process(f, es + [e]) == Processed(b.f, a.out + b.out, b.ok)
    decreases |es|
  {
    if es == [] {
      assert ([] + [e])[1..] == [];
    } else {
      var a := ProcessOne(f, es[0]);
      ProcessSnoc(a.f, es[1..], e);
      assert (es + [e])[1..] == es[1..] + [e];
      var rest := Process(a.f, es[1..]);
      assert a.out + (rest.out + ProcessOne(rest.f, e).out) == (a.out + rest.out) + ProcessOne(rest.f, e).out;
    }
  }

  lemma {:induction false} ProcessStops(f: Filter, es: seq<ExecutorEvent>, ds: seq<ExecutorEvent>)
    requires !Process(f, es).ok
    ensures Process(f, es + ds) == Process(f, es)
    decreases |es|
  {
    assert (es + ds)[0] == es[0] && (es + ds)[1..] == es[1..] + ds;
    var a := ProcessOne(f, es[0]);
    if a.ok {
      ProcessStops(a.f, es[1..], ds);
    }
  }

  /** `g` is `f` without the requests answered by the first `n` events. */
  ghost predicate Less(f: Filter, g: Filter, es: seq<ExecutorEvent>, n: nat)
    requires n <= |es|
  {
    && g.peers == f.peers
    && forall p :: && (p in g.inbound <==> p in f.inbound && !Responded(es, n, p))
                   && (p in g.inbound ==> g.inbound[p] == f.inbound[p])
  }

  lemma {:induction false} NotifySame(f: Filter, g: Filter, ps: seq<Peer>)
    requires f.peers == g.peers
    ensures NotifyAll(f, ps) == NotifyAll(g, ps)
    decreases |ps|
  {
    if ps != [] {
      NotifySame(f, g, ps[1..]);
    }
  }

  /** Event `n` on a filter that has seen the first `n` events. */
  lemma OneOfBatch(f: Filter, g: Filter, es: seq<ExecutorEvent>, n: nat)
    requires n < |es| && Less(f, g, es, n)
    ensures Less(f, ProcessOne(g, es[n]).f, es, n + 1)
    ensures Fails(f, es[n]) && !(es[n].SendResponse? && Responded(es, n, es[n].peer)) ==>
              !ProcessOne(g, es[n]).ok && ProcessOne(g, es[n]).out == []
    ensures !Fails(f, es[n]) ==> ProcessOne(g, es[n]).ok && ProcessOne(g, es[n]).out == Emits(f, es, n)
  {
    if es[n].Forward? {
      NotifySame(f, g, es[n].peers);
    }
  }

  lemma {:induction false} BatchPrefix(f: Filter, es: seq<ExecutorEvent>, n: nat)
    requires n <= |es| && forall j | 0 <= j < n :: !Fails(f, es[j])
    ensures var r := Process(f, es[..n]); r.ok && r.out == EmitsUpTo(f, es, n) && Less(f, r.f, es, n)
    decreases n
  {
    if n > 0 {
      BatchPrefix(f, es, n - 1);
      ProcessSnoc(f, es[..n - 1], es[n - 1]);
      assert es[..n] == es[..n - 1] + [es[n - 1]];
      NextOfBatch(f, Process(f, es[..n - 1]), es, n - 1);
    }
  }

  lemma NextOfBatch(f: Filter, a: Processed, es: seq<ExecutorEvent>, n: nat)
    requires n < |es| && !Fails(f, es[n]) && a.out == EmitsUpTo(f, es, n) && Less(f, a.f, es, n)
    ensures var b := ProcessOne(a.f, es[n]); b.ok && a.out + b.out == EmitsUpTo(f, es, n + 1) && Less(f, b.f, es, n + 1)
  {
    OneOfBatch(f, a.f, es, n);
  }

  /** Event `n` is the first that fails, if there is one; otherwise `n` is the number of events. */
  predicate Stops(f: Filter, es: seq<ExecutorEvent>, n: nat) {
    n <= |es| && (forall j | 0 <= j < n :: !Fails(f, es[j])) && (n < |es| ==> Fails(f, es[n]))
  }

  /** A batch amounts to the commands of its events up to the first that fails, each with what that event
      says, and takes out of the filter the requests that these events and the failing one answer. */
  lemma BatchMeans(f: Filter, es: seq<ExecutorEvent>, n: nat)
    requires Stops(f, es, n)
    ensures var r := Process(f, es);
            && r.out == EmitsUpTo(f, es, n) && (r.ok <==> n == |es|)
            && Less(f, r.f, es, if n < |es| then n + 1 else n)
  {
    BatchPrefix(f, es, n);
    if n == |es| {
      assert es[..n] == es;
    } else {
      var g := Process(f, es[..n]).f;
      NotYetResponded(f, es, n);
      OneOfBatch(f, g, es, n);
      ProcessSnoc(f, es[..n], es[n]);
      assert es == (es[..n] + [es[n]]) + es[n + 1..];
      ProcessStops(f, es[..n] + [es[n]], es[n + 1..]);
      assert EmitsUpTo(f, es, n) + [] == EmitsUpTo(f, es, n);
    }
  }

  /** A failing response is the first one to its peer: an earlier one would have failed. */
  lemma NotYetResponded(f: Filter, es: seq<ExecutorEvent>, n: nat)
    requires Stops(f, es, n) && n < |es|
    ensures !(es[n].SendResponse? && Responded(es, n, es[n].peer))
  {
  }

  lemma {:induction false} Stop(f: Filter, es: seq<ExecutorEvent>, k: nat) returns (n: nat)
    requires k <= |es| && forall j | 0 <= j < k :: !Fails(f, es[j])
    ensures Stops(f, es, n)
    decreases |es| - k
  {
    if k < |es| && !Fails(f, es[k]) {
      n := Stop(f, es, k + 1);
    } else {
      n := k;
    }
  }

  // ----- where an answer comes from -----------------------------------------------------------------------------

  /** Event `k` of a batch answers the request `id` that the filter holds for the registered peer `p`. */
  predicate Replies(f: Filter, es: seq<ExecutorEvent>, k: nat, p: Peer, id: RequestId, payload: Bytes) {
    && k < |es| && es[k] == SendResponse(p, payload) && p in f.inbound && f.inbound[p] == id && p in f.peers
    && !Responded(es, k, p) && forall j | 0 <= j < k :: !Fails(f, es[j])
  }

  lemma {:induction false} EmittedBy(f: Filter, es: seq<ExecutorEvent>, n: nat, c: Command) returns (k: nat)
    requires n <= |es| && c in EmitsUpTo(f, es, n)
    ensures k < n && c in Emits(f, es, k)
    decreases n
  {
    assert c in EmitsUpTo(f, es, n - 1) || c in Emits(f, es, n - 1);
    if c in Emits(f, es, n - 1) {
      k := n - 1;
    } else {
      k := EmittedBy(f, es, n - 1, c);
    }
  }

  /** A response command stems from the event that says so, and the request it answers leaves the filter. */
  lemma ResponseSource(f: Filter, es: seq<ExecutorEvent>, p: Peer, id: RequestId, payload: Bytes)
    requires Respond(p, id, payload) in Process(f, es).out
    ensures (exists k :: Replies(f, es, k, p, id, payload)) && p !in Process(f, es).f.inbound
  {
    var n := Stop(f, es, 0);
    BatchMeans(f, es, n);
    var k := EmittedBy(f, es, n, Respond(p, id, payload));
    if es[k].Forward? {
      NotifiedPeers(f, es[k].peers, p);
    }
    assert !Fails(f, es[k]);
    assert Replies(f, es, k, p, id, payload);
    assert Responded(es, n, p);
  }

  /** An earlier step processed a response with this payload to the peer `p` while the filter held `id` for
      it, which took `id` out of the filter. */
  ghost predicate Caused(ss: seq<Step>, p: Peer, id: RequestId, payload: Bytes) {
    exists m | 0 <= m < |ss| :: CausedBy(ss, m, p, id, payload)
  }

  ghost predicate CausedBy(ss: seq<Step>, m: nat, p: Peer, id: RequestId, payload: Bytes)
    requires m < |ss|
  {
    && LegalRun(START, ss[..m]) && Legal(Exec(START, ss[..m]), ss[m])
    && var w := Exec(START, ss[..m]); var (f, es) := Entry(w, ss[m]);
    && (exists k :: Replies(f, es, k, p, id, payload)) && p !in Apply(w, ss[m]).f.inbound
  }

  /** Every response on its way down, and every answer given, was caused so. */
  ghost predicate AllCaused(ss: seq<Step>, w: World) {
    && (forall c | c in w.down && c.Respond? :: Caused(ss, c.peer, c.id, c.payload))
    && (forall o | o in w.outputs && o.Answered? :: o.id in w.sender && Caused(ss, w.sender[o.id], o.id, o.payload))
    && (forall o | o in w.outputs && o.RequestReceived? :: o.id in w.sender && w.sender[o.id] == o.peer)
  }

  lemma {:induction false} ExecSnoc(w: World, ss: seq<Step>, s: Step)
    requires LegalRun(w, ss) && Legal(Exec(w, ss), s)
    ensures LegalRun(w, ss + [s]) && Exec(w, ss + [s]) == Apply(Exec(w, ss), s)
    decreases |ss|
  {
    if ss == [] {
      assert ([] + [s])[1..] == [];
    } else {
      ExecSnoc(Apply(w, ss[0]), ss[1..], s);
      assert (ss + [s])[0] == ss[0] && (ss + [s])[1..] == ss[1..] + [s];
    }
  }

  lemma {:induction false} LegalPrefix(w: World, ss: seq<Step>, m: nat)
    requires LegalRun(w, ss) && m < |ss|
    ensures LegalRun(w, ss[..m]) && Legal(Exec(w, ss[..m]), ss[m])
    decreases m
  {
    if m > 0 {
      LegalPrefix(Apply(w, ss[0]), ss[1..], m - 1);
      assert ss[..m][1..] == ss[1..][..m - 1];
    }
  }

  lemma CausedLater(ss: seq<Step>, s: Step, p: Peer, id: RequestId, payload: Bytes)
    requires Caused(ss, p, id, payload)
    ensures Caused(ss + [s], p, id, payload)
  {
    var m :| 0 <= m < |ss| && CausedBy(ss, m, p, id, payload);
    assert (ss + [s])[..m] == ss[..m] && (ss + [s])[m] == ss[m];
    assert CausedBy(ss + [s], m, p, id, payload);
  }

  /** A command of the last step is caused by it. */
  lemma CausedNow(ss: seq<Step>, s: Step, c: Command)
    requires LegalRun(START, ss) && Legal(Exec(START, ss), s) && !s.Execute? && !s.Arrive?
    requires c.Respond? && c in Process(Entry(Exec(START, ss), s).0, Entry(Exec(START, ss), s).1).out
    ensures Caused(ss + [s], c.peer, c.id, c.payload)
  {
    var w := Exec(START, ss);
    ResponseSource(Entry(w, s).0, Entry(w, s).1, c.peer, c.id, c.payload);
    EntryMeans(w, s);
    assert (ss + [s])[..|ss|] == ss && (ss + [s])[|ss|] == s;
    assert CausedBy(ss + [s], |ss|, c.peer, c.id, c.payload);
  }

  lemma DownCaused(ss: seq<Step>, s: Step)
    requires LegalRun(START, ss) && Legal(Exec(START, ss), s) && AllCaused(ss, Exec(START, ss))
    ensures forall c | c in Apply(Exec(START, ss), s).down && c.Respond? :: Caused(ss + [s], c.peer, c.id, c.payload)
  {
    var w := Exec(START, ss);
    forall c | c in Apply(w, s).down && c.Respond?
      ensures Caused(ss + [s], c.peer, c.id, c.payload)
    {
      if c in w.down {
        CausedLater(ss, s, c.peer, c.id, c.payload);
      } else {
        EntryMeans(w, s);
        CausedNow(ss, s, c);
      }
    }
  }

  lemma OutputsCaused(ss: seq<Step>, s: Step)
    requires LegalRun(START, ss) && Legal(Exec(START, ss), s) && AllCaused(ss, Exec(START, ss)) && Inv(Exec(START, ss))
    ensures var v := Apply(Exec(START, ss), s);
            && (forall o | o in v.outputs && o.Answered? ::
                  o.id in v.sender && Caused(ss + [s], v.sender[o.id], o.id, o.payload))
            && (forall o | o in v.outputs && o.RequestReceived? :: o.id in v.sender && v.sender[o.id] == o.peer)
  {
    var w := Exec(START, ss);
    var v := Apply(w, s);
    assert s.Arrive? ==> w.s.next !in w.sender;
    forall o | o in v.outputs && o.Answered?
      ensures o.id in v.sender && Caused(ss + [s], v.sender[o.id], o.id, o.payload)
    {
      if o in w.outputs {
        CausedLater(ss, s, w.sender[o.id], o.id, o.payload);
      } else {
        var c := w.down[0];
        ResponseFindsRequest(w);
        assert c in w.down && o.id == c.id && o.payload == c.payload;
        CausedLater(ss, s, c.peer, c.id, c.payload);
      }
    }
  }

  lemma {:induction false} RunCaused(ss: seq<Step>)
    requires LegalRun(START, ss)
    ensures AllCaused(ss, Exec(START, ss))
    decreases |ss|
  {
    if ss != [] {
      var before, s := ss[..|ss| - 1], ss[|ss| - 1];
      LegalPrefix(START, ss, |ss| - 1);
      RunCaused(before);
      StartKeeps();
      RunKeeps(START, before);
      ExecSnoc(START, before, s);
      assert before + [s] == ss;
      DownCaused(before, s);
      OutputsCaused(before, s);
    }
  }

  /** For every run: an answer carries the payload of an executor event that responded to the peer of the
      request while the filter held that request for it, and that took it out of the filter; and an
      incoming request is reported with the peer that sent it. */
  lemma AnswersAreResponses(ss: seq<Step>, o: Output)
    requires LegalRun(START, ss) && o in Exec(START, ss).outputs
    ensures var sender := Exec(START, ss).sender;
            && (o.Answered? ==> o.id in sender && Caused(ss, sender[o.id], o.id, o.payload))
            && (o.RequestReceived? ==> o.id in sender && sender[o.id] == o.peer)
  {
    RunCaused(ss);
  }

  // ----- who is registered ----------------------------------------------------------------------------------------

  /** Whether `p` was registered, the executor agreeing, and not unregistered since. */
  predicate Member(ss: seq<Step>, p: Peer)
    decreases |ss|
  {
    ss != [] && (var before, s := ss[..|ss| - 1], ss[|ss| - 1];
                 || (s.Register? && s.peer == p && s.x.Yields?)
                 || (Member(before, p) && !(s.Unregister? && s.peer == p)))
  }

  lemma PeersStep(w: World, s: Step, p: Peer)
    requires Legal(w, s)
    ensures p in Apply(w, s).f.peers <==>
            (s.Register? && s.peer == p && s.x.Yields?) || (p in w.f.peers && !(s.Unregister? && s.peer == p))
  {
    if !s.Execute? && !s.Arrive? {
      EntryMeans(w, s);
      var (f, es) := Entry(w, s);
      var n := Stop(f, es, 0);
      BatchMeans(f, es, n);
    }
  }

  /** For every run: the filter's peers are those registered with the executor's consent and not unregistered
      since, whatever the executor says about the latter. */
  lemma {:induction false} PeersAreMembers(ss: seq<Step>, p: Peer)
    requires LegalRun(START, ss)
    ensures p in Exec(START, ss).f.peers <==> Member(ss, p)
    decreases |ss|
  {
    if ss != [] {
      var before, s := ss[..|ss| - 1], ss[|ss| - 1];
      LegalPrefix(START, ss, |ss| - 1);
      PeersAreMembers(before, p);
      ExecSnoc(START, before, s);
      assert before + [s] == ss;
      PeersStep(Exec(START, before), s, p);
    }
  }
}
