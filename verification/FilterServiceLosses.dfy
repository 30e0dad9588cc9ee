/** Which requests are answered, which can still be, and how one gets lost. */
module FilterServiceLosses {
  import opened FilterService
  import opened FilterServiceRuns

  // ----- where a request is -------------------------------------------------------------------------------------------

  ghost predicate GoingUp(w: World, id: RequestId) {
    exists j | 0 <= j < |w.up| :: w.up[j].1 == id
  }

  ghost predicate Kept(w: World, id: RequestId) {
    exists p | p in w.f.inbound :: w.f.inbound[p] == id
  }

  ghost predicate GoingDown(down: seq<Command>, id: RequestId) {
    exists k | 0 <= k < |down| :: down[k].Respond? && down[k].id == id
  }

  /** `id` was received and is neither on its way to the filter, nor held by it, nor on its way down, nor
      answered. */
  ghost predicate Lost(w: World, id: RequestId) {
    id in w.sender && !GoingUp(w, id) && !Kept(w, id) && !GoingDown(w.down, id) && !WasAnswered(w, id)
  }

  /** A request is in one place only. */
  lemma OnePlace(w: World, id: RequestId)
    requires Inv(w)
    ensures Kept(w, id) ==> !GoingUp(w, id) && !GoingDown(w.down, id) && !WasAnswered(w, id)
    ensures GoingUp(w, id) ==> !GoingDown(w.down, id) && !WasAnswered(w, id)
    ensures GoingDown(w.down, id) ==> !WasAnswered(w, id)
  {
    forall k | 0 <= k < |w.down| && w.down[k].Respond?
      ensures Free(w, w.down[k].peer, w.down[k].id)
    {
    }
    forall k | 0 <= k < |w.outputs| && Answers(w.outputs[k], id)
      ensures id !in w.s.pending
    {
    }
    if Kept(w, id) {
      var p :| p in w.f.inbound && w.f.inbound[p] == id;
      assert Waiting(w, p, id) && Below(w, id);
    }
  }

  /** Only one peer's entry holds `id`. */
  lemma OneHolder(w: World, p: Peer, id: RequestId)
    requires Held(w) && p in w.f.inbound && w.f.inbound[p] == id
    ensures forall q | q in w.f.inbound && q != p :: w.f.inbound[q] != id
  {
    assert Waiting(w, p, id);
    forall q | q in w.f.inbound && q != p
      ensures w.f.inbound[q] != id
    {
      assert Waiting(w, q, w.f.inbound[q]);
    }
  }

  // ----- what processing does to a request --------------------------------------------------------------------------

  /** The event on which processing stops: it asks a peer that is not registered, or answers one. */
  predicate Fails(f: Filter, e: ExecutorEvent) {
    || (e.SendRequest? && e.peer !in f.peers)
    || (e.SendResponse? && e.peer in f.inbound && e.peer !in f.peers)
  }

  /** Event `k` is the first that fails, and it answers the holder of `id`. */
  predicate Misses(f: Filter, es: seq<ExecutorEvent>, k: nat, id: RequestId)
    requires k < |es|
  {
    && es[k].SendResponse? && Fails(f, es[k]) && f.inbound[es[k].peer] == id
    && forall j | 0 <= j < k :: !Fails(f, es[j])
  }

  ghost predicate Misaddressed(f: Filter, es: seq<ExecutorEvent>, id: RequestId) {
    exists k | 0 <= k < |es| :: Misses(f, es, k, id)
  }

  /** An event that does not fail leaves the failing ones failing. */
  lemma FailsLater(f: Filter, e: ExecutorEvent, d: ExecutorEvent)
    requires !Fails(f, e)
    ensures ProcessOne(f, e).ok && ProcessOne(f, e).f.peers == f.peers
    ensures Fails(ProcessOne(f, e).f, d) <==> Fails(f, d)
  {
  }

  lemma MissesLater(f: Filter, es: seq<ExecutorEvent>, id: RequestId)
    requires es != [] && !Fails(f, es[0])
    ensures Misaddressed(f, es, id) <==> Misaddressed(ProcessOne(f, es[0]).f, es[1..], id)
  {
    var g := ProcessOne(f, es[0]).f;
    forall d
      ensures Fails(g, d) <==> Fails(f, d)
    {
      FailsLater(f, es[0], d);
    }
    forall k | 0 <= k < |es[1..]|
      ensures Misses(g, es[1..], k, id) <==> Misses(f, es, k + 1, id)
    {
      MissesShift(f, g, es, k, id);
    }
    if Misaddressed(f, es, id) {
      var k :| 0 <= k < |es| && Misses(f, es, k, id);
      assert k > 0 && Misses(g, es[1..], k - 1, id);
    }
    if Misaddressed(g, es[1..], id) {
      var k :| 0 <= k < |es[1..]| && Misses(g, es[1..], k, id);
      assert Misses(f, es, k + 1, id);
    }
  }

  lemma MissesShift(f: Filter, g: Filter, es: seq<ExecutorEvent>, k: nat, id: RequestId)
    requires k + 1 < |es| && !Fails(f, es[0]) && g == ProcessOne(f, es[0]).f
    requires forall d :: Fails(g, d) <==> Fails(f, d)
    ensures Misses(g, es[1..], k, id) <==> Misses(f, es, k + 1, id)
  {
    assert es[1..][k] == es[k + 1];
    assert forall j | 0 <= j < k :: es[1..][j] == es[j + 1];
    if Misses(g, es[1..], k, id) {
      forall j | 0 <= j < k + 1
        ensures !Fails(f, es[j])
      {
        assert j > 0 ==> es[j] == es[1..][j - 1];
      }
    }
  }

  lemma DownAppend(a: seq<Command>, b: seq<Command>, id: RequestId)
    ensures GoingDown(a + b, id) <==> GoingDown(a, id) || GoingDown(b, id)
  {
    if GoingDown(a, id) {
      var k :| 0 <= k < |a| && a[k].Respond? && a[k].id == id;
      assert (a + b)[k] == a[k];
    }
    if GoingDown(b, id) {
      var k :| 0 <= k < |b| && b[k].Respond? && b[k].id == id;
      assert (a + b)[|a| + k] == b[k];
    }
  }

  lemma NotifyNotDown(f: Filter, ps: seq<Peer>, id: RequestId)
    ensures !GoingDown(NotifyAll(f, ps), id)
  {
    NotifyAllOnly(f, ps);
  }

  /** Processing keeps a held request, answers it, or, exactly if it is misaddressed, drops it. */
  lemma {:induction false} ProcessFate(f: Filter, es: seq<ExecutorEvent>, p: Peer, id: RequestId)
    requires p in f.inbound && f.inbound[p] == id && forall q | q in f.inbound && q != p :: f.inbound[q] != id
    ensures var r := Process(f, es); var kept := exists q | q in r.f.inbound :: r.f.inbound[q] == id;
            kept || GoingDown(r.out, id) <==> !Misaddressed(f, es, id)
    decreases |es|
  {
    if es == [] {
      assert f.inbound[p] == id;
    } else {
      var a := ProcessOne(f, es[0]);
      if es[0].Forward? {
        NotifyNotDown(f, es[0].peers, id);
      }
      if Fails(f, es[0]) {
        FateOfFailing(f, es, p, id);
      } else {
        FailsLater(f, es[0], es[0]);
        var b := Process(a.f, es[1..]);
        DownAppend(a.out, b.out, id);
        MissesLater(f, es, id);
        if es[0].SendResponse? && es[0].peer == p {
          assert a.out[0].Respond? && a.out[0].id == id;
          NotHeldNotMissed(a.f, es[1..], id);
        } else {
          ProcessFate(a.f, es[1..], p, id);
        }
      }
    }
  }

  lemma NotHeldNotMissed(f: Filter, es: seq<ExecutorEvent>, id: RequestId)
    requires forall q | q in f.inbound :: f.inbound[q] != id
    ensures !Misaddressed(f, es, id)
  {
  }

  lemma FateOfFailing(f: Filter, es: seq<ExecutorEvent>, p: Peer, id: RequestId)
    requires es != [] && Fails(f, es[0])
    requires p in f.inbound && f.inbound[p] == id && forall q | q in f.inbound && q != p :: f.inbound[q] != id
    ensures var r := Process(f, es); var kept := exists q | q in r.f.inbound :: r.f.inbound[q] == id;
            kept || GoingDown(r.out, id) <==> !Misaddressed(f, es, id)
  {
    if es[0].SendResponse? && es[0].peer == p {
      assert Misses(f, es, 0, id);
    } else {
      assert p in ProcessOne(f, es[0]).f.inbound;
      assert forall k | 0 < k < |es| :: !Misses(f, es, k, id);
      assert !Misses(f, es, 0, id);
    }
  }

  /** Processing brings no request back. */
  lemma {:induction false} ProcessLoses(f: Filter, es: seq<ExecutorEvent>, id: RequestId)
    requires forall p | p in f.inbound :: f.inbound[p] != id
    ensures forall p | p in Process(f, es).f.inbound :: Process(f, es).f.inbound[p] != id
    ensures !GoingDown(Process(f, es).out, id)
    decreases |es|
  {
    if es != [] {
      var a := ProcessOne(f, es[0]);
      if es[0].Forward? {
        NotifyNotDown(f, es[0].peers, id);
      }
      if a.ok {
        ProcessLoses(a.f, es[1..], id);
        DownAppend(a.out, Process(a.f, es[1..]).out, id);
      }
    }
  }

  // ----- how a request is lost --------------------------------------------------------------------------------------

  function Yielded(x: Executed): seq<ExecutorEvent> {
    if x.Failed? then [] else x.events
  }

  /** The filter and the events with which a step enters the processing loop. */
  function Entry(w: World, s: Step): (Filter, seq<ExecutorEvent>)
    requires Legal(w, s)
  {
    match s
    case Deliver(x) => (w.f.(inbound := w.f.inbound[w.up[0].0 := w.up[0].1]), Yielded(x))
    case Register(p, x) =>
      if p in w.f.peers || x.Failed? then (w.f, []) else (w.f.(peers := w.f.peers + {p}), x.events)
    case Unregister(p, x) =>
      if p !in w.f.peers then (w.f, []) else (w.f.(peers := w.f.peers - {p}), Yielded(x))
    case Tick(x) => (w.f, Yielded(x))
    case _ => (w.f, [])
  }

  lemma EntryMeans(w: World, s: Step)
    requires Legal(w, s) && !s.Execute? && !s.Arrive?
    ensures var v := Apply(w, s); var (f, es) := Entry(w, s);
            && v.f == Process(f, es).f && v.down == w.down + Process(f, es).out
            && v.outputs == w.outputs && v.sender == w.sender
            && v.up == if s.Deliver? then w.up[1..] else w.up
  {
  }

  /** A step that runs the processing loop on a filter that does not hold `id`. */
  lemma AbsentStaysLost(w: World, s: Step, id: RequestId)
    requires Legal(w, s) && !s.Execute? && !s.Arrive? && id in w.sender
    requires !GoingDown(w.down, id) && !WasAnswered(w, id) && !GoingUp(Apply(w, s), id)
    requires forall p | p in Entry(w, s).0.inbound :: Entry(w, s).0.inbound[p] != id
    ensures Lost(Apply(w, s), id)
  {
    var (f, es) := Entry(w, s);
    EntryMeans(w, s);
    ProcessLoses(f, es, id);
    DownAppend(w.down, Process(f, es).out, id);
  }

  /** The request the filter holds for a peer is replaced by the one delivered. */
  predicate Overwritten(w: World, s: Step, id: RequestId) {
    s.Deliver? && w.up != [] && w.up[0].0 in w.f.inbound && w.f.inbound[w.up[0].0] == id
  }

  lemma OverwrittenIsLost(w: World, s: Step, id: RequestId)
    requires Inv(w) && Legal(w, s) && Overwritten(w, s, id)
    ensures id in w.sender && Lost(Apply(w, s), id)
  {
    var p := w.up[0].0;
    assert Kept(w, id);
    OnePlace(w, id);
    OneHolder(w, p, id);
    assert Waiting(w, p, id) && Below(w, id);
    AbsentStaysLost(w, s, id);
  }

  /** A request that the processing loop finds in the filter. */
  lemma PresentFate(w: World, s: Step, p: Peer, id: RequestId)
    requires Legal(w, s) && !s.Execute? && !s.Arrive? && id in w.sender
    requires !GoingDown(w.down, id) && !WasAnswered(w, id) && !GoingUp(Apply(w, s), id)
    requires var f := Entry(w, s).0;
             p in f.inbound && f.inbound[p] == id && forall q | q in f.inbound && q != p :: f.inbound[q] != id
    ensures Lost(Apply(w, s), id) <==> Misaddressed(Entry(w, s).0, Entry(w, s).1, id)
  {
    var (f, es) := Entry(w, s);
    EntryMeans(w, s);
    ProcessFate(f, es, p, id);
    DownAppend(w.down, Process(f, es).out, id);
  }

  /** A request that is not in the filter when processing starts is not misaddressed. */
  lemma ElsewhereStays(w: World, s: Step, id: RequestId)
    requires Legal(w, s) && !s.Execute? && !s.Arrive? && !Kept(w, id)
    requires s.Deliver? ==> w.up[0].1 != id
    requires WasAnswered(w, id) || GoingDown(w.down, id) || GoingUp(w, id)
    ensures !Lost(Apply(w, s), id) && !Misaddressed(Entry(w, s).0, Entry(w, s).1, id)
  {
    var v := Apply(w, s);
    var (f, es) := Entry(w, s);
    EntryMeans(w, s);
    assert forall q | q in f.inbound :: f.inbound[q] != id;
    NotHeldNotMissed(f, es, id);
    DownAppend(w.down, Process(f, es).out, id);
    if WasAnswered(w, id) {
      assert WasAnswered(v, id);
    } else if GoingUp(w, id) {
      var j :| 0 <= j < |w.up| && w.up[j].1 == id;
      assert v.up[if s.Deliver? then j - 1 else j] == w.up[j];
    }
  }

  /** Outside the processing loop nothing is lost. */
  lemma ServiceLosesNothing(w: World, s: Step, id: RequestId)
    requires Inv(w) && Legal(w, s) && (s.Execute? || s.Arrive?) && id in w.sender && !Lost(w, id)
    ensures !Lost(Apply(w, s), id)
  {
    var v := Apply(w, s);
    if WasAnswered(w, id) {
      var k :| 0 <= k < |w.outputs| && Answers(w.outputs[k], id);
      assert v.outputs[k] == w.outputs[k];
    } else if GoingDown(w.down, id) {
      var k :| 0 <= k < |w.down| && w.down[k].Respond? && w.down[k].id == id;
      if s.Execute? && k == 0 {
        ResponseFindsRequest(w);
        assert Answers(v.outputs[|w.outputs|], id);
      } else {
        assert v.down[if s.Execute? then k - 1 else k] == w.down[k];
      }
    } else if GoingUp(w, id) {
      var j :| 0 <= j < |w.up| && w.up[j].1 == id;
      assert v.up[j] == w.up[j];
    }
  }

  /** Exactly two things make a request lost: the delivery of the next request of the same peer while the
      filter holds it, and a response to it that is processed while its peer is not registered. */
  lemma LostIff(w: World, s: Step, id: RequestId)
    requires Inv(w) && Legal(w, s) && id in w.sender && !Lost(w, id)
    ensures Lost(Apply(w, s), id) <==> Overwritten(w, s, id) || Misaddressed(Entry(w, s).0, Entry(w, s).1, id)
  {
    OnePlace(w, id);
    if s.Execute? || s.Arrive? {
      ServiceLosesNothing(w, s, id);
    } else if Overwritten(w, s, id) {
      OverwrittenIsLost(w, s, id);
    } else if Kept(w, id) {
      var p :| p in w.f.inbound && w.f.inbound[p] == id;
      OneHolder(w, p, id);
      assert Waiting(w, p, id) && Below(w, id);
      PresentFate(w, s, p, id);
    } else if s.Deliver? && w.up[0].1 == id {
      assert GoingUp(w, id);
      assert forall j | 0 <= j < |w.up[1..]| :: w.up[1..][j].1 != id;
      PresentFate(w, s, w.up[0].0, id);
    } else {
      ElsewhereStays(w, s, id);
    }
  }

  /** Both happen: here the request of a peer that is not registered gets lost when it is answered. */
  lemma UnregisteredLoses(p: Peer, d: Digest, c: Channel)
    ensures var ss := [Arrive(p, d, c), Deliver(Yields([])), Tick(Yields([SendResponse(p, [])]))];
            LegalRun(START, ss) && Lost(Exec(START, ss), 0)
  {
    var w1 := Apply(START, Arrive(p, d, c));
    var w2 := Apply(w1, Deliver(Yields([])));
    var e := SendResponse(p, []);
    var w3 := Apply(w2, Tick(Yields([e])));
    assert Process(w2.f, [e]) == Processed(Filter({}, map[]), [], false) by {
      assert w2.f.inbound == map[p := 0];
    }
    RunCons(w2, Tick(Yields([e])), []);
    RunCons(w1, Deliver(Yields([])), [Tick(Yields([e]))]);
    RunCons(START, Arrive(p, d, c), [Deliver(Yields([])), Tick(Yields([e]))]);
    assert [Arrive(p, d, c)] + ([Deliver(Yields([]))] + ([Tick(Yields([e]))] + [])) ==
           [Arrive(p, d, c), Deliver(Yields([])), Tick(Yields([e]))];
    assert [Deliver(Yields([]))] + [Tick(Yields([e]))] == [Deliver(Yields([])), Tick(Yields([e]))];
    assert [Tick(Yields([e]))] + [] == [Tick(Yields([e]))];
    assert Lost(w3, 0);
  }

  lemma LostStaysLost(w: World, s: Step, id: RequestId)
    requires Inv(w) && Legal(w, s) && Lost(w, id)
    ensures Lost(Apply(w, s), id)
  {
    if s.Arrive? {
      assert id < w.s.next;
    } else if s.Execute? {
      assert forall k | 0 <= k < |w.down[1..]| :: w.down[1..][k] == w.down[k + 1];
    } else {
      assert s.Deliver? ==> w.up[0].1 != id;
      assert forall p | p in Entry(w, s).0.inbound :: Entry(w, s).0.inbound[p] != id;
      assert forall j | 0 <= j < |Apply(w, s).up| :: Apply(w, s).up[j].1 != id;
      AbsentStaysLost(w, s, id);
    }
  }

  /** Once lost, a request is never answered, whatever happens. */
  lemma {:induction false} LostForever(w: World, ss: seq<Step>, id: RequestId)
    requires Inv(w) && LegalRun(w, ss) && Lost(w, id)
    ensures !WasAnswered(Exec(w, ss), id)
    decreases |ss|
  {
    if ss != [] {
      LostStaysLost(w, ss[0], id);
      StepKeeps(w, ss[0]);
      LostForever(Apply(w, ss[0]), ss[1..], id);
    }
  }

  /** A second request of a peer, delivered before the first one is answered, costs the first one its
      answer: the filter remembers one request per peer. */
  lemma SecondRequestLosesFirst(w: World, s: Step, ss: seq<Step>)
    requires Inv(w) && s.Deliver? && Legal(w, s) && w.up[0].0 in w.f.inbound
    requires LegalRun(Apply(w, s), ss)
    ensures !WasAnswered(Exec(Apply(w, s), ss), w.f.inbound[w.up[0].0])
  {
    OverwrittenIsLost(w, s, w.f.inbound[w.up[0].0]);
    StepKeeps(w, s);
    LostForever(Apply(w, s), ss, w.f.inbound[w.up[0].0]);
  }

  // ----- which requests can still be answered ----------------------------------------------------------------------

  lemma RunCons(w: World, s: Step, ss: seq<Step>)
    requires Legal(w, s) && LegalRun(Apply(w, s), ss)
    ensures LegalRun(w, [s] + ss) && Exec(w, [s] + ss) == Exec(Apply(w, s), ss)
  {
    assert ([s] + ss)[1..] == ss;
  }

  lemma {:induction false} DownIsAnswered(w: World, k: nat, id: RequestId) returns (ss: seq<Step>)
    requires Inv(w) && k < |w.down| && w.down[k].Respond? && w.down[k].id == id
    ensures LegalRun(w, ss) && WasAnswered(Exec(w, ss), id)
    decreases k
  {
    var v := Apply(w, Execute);
    StepKeeps(w, Execute);
    var rest := [];
    if k == 0 {
      ResponseFindsRequest(w);
      assert Answers(v.outputs[|w.outputs|], id);
      assert WasAnswered(v, id) && Exec(v, []) == v;
    } else {
      rest := DownIsAnswered(v, k - 1, id);
    }
    ss := [Execute] + rest;
    RunCons(w, Execute, rest);
  }

  lemma KeptIsAnswered(w: World, p: Peer, id: RequestId) returns (ss: seq<Step>)
    requires Inv(w) && p in w.f.peers && p in w.f.inbound && w.f.inbound[p] == id
    ensures LegalRun(w, ss) && WasAnswered(Exec(w, ss), id)
  {
    var e := SendResponse(p, []);
    var s := Tick(Yields([e]));
    var v := Apply(w, s);
    StepKeeps(w, s);
    assert Process(w.f, [e]).out == [Respond(p, id, [])] by {
      assert [e][1..] == [];
    }
    assert v.down == w.down + [Respond(p, id, [])];
    var rest := DownIsAnswered(v, |w.down|, id);
    ss := [s] + rest;
    RunCons(w, s, rest);
  }

  lemma HeldIsAnswered(w: World, p: Peer, id: RequestId) returns (ss: seq<Step>)
    requires Inv(w) && p in w.f.inbound && w.f.inbound[p] == id
    ensures LegalRun(w, ss) && WasAnswered(Exec(w, ss), id)
  {
    if p in w.f.peers {
      ss := KeptIsAnswered(w, p, id);
    } else {
      var s := Register(p, Yields([]));
      StepKeeps(w, s);
      var rest := KeptIsAnswered(Apply(w, s), p, id);
      ss := [s] + rest;
      RunCons(w, s, rest);
    }
  }

  lemma {:induction false} UpIsAnswered(w: World, j: nat, id: RequestId) returns (ss: seq<Step>)
    requires Inv(w) && j < |w.up| && w.up[j].1 == id
    ensures LegalRun(w, ss) && WasAnswered(Exec(w, ss), id)
    decreases j
  {
    var s := Deliver(Yields([]));
    var v := Apply(w, s);
    StepKeeps(w, s);
    var rest;
    if j == 0 {
      rest := HeldIsAnswered(v, w.up[0].0, id);
    } else {
      rest := UpIsAnswered(v, j - 1, id);
    }
    ss := [s] + rest;
    RunCons(w, s, rest);
  }

  ghost predicate Answerable(w: World, id: RequestId) {
    exists ss :: LegalRun(w, ss) && WasAnswered(Exec(w, ss), id)
  }

  /** After every run, a request that was received and not answered yet can still be answered exactly if it
      is on its way to the filter, held by it, or on its way down. */
  lemma AnswerableIff(run: seq<Step>, id: RequestId)
    requires LegalRun(START, run) && id in Exec(START, run).sender && !WasAnswered(Exec(START, run), id)
    ensures var w := Exec(START, run);
            Answerable(w, id) <==> GoingUp(w, id) || Kept(w, id) || GoingDown(w.down, id)
  {
    StartKeeps();
    RunKeeps(START, run);
    var w := Exec(START, run);
    if GoingUp(w, id) {
      var j :| 0 <= j < |w.up| && w.up[j].1 == id;
      var ss := UpIsAnswered(w, j, id);
    } else if Kept(w, id) {
      var p :| p in w.f.inbound && w.f.inbound[p] == id;
      var ss := HeldIsAnswered(w, p, id);
    } else if GoingDown(w.down, id) {
      var k :| 0 <= k < |w.down| && w.down[k].Respond? && w.down[k].id == id;
      var ss := DownIsAnswered(w, k, id);
    } else {
      forall ss | LegalRun(w, ss)
        ensures !WasAnswered(Exec(w, ss), id)
      {
        LostForever(w, ss, id);
      }
    }
  }
}
