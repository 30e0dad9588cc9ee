/** In which order waiting peers get their blocks. */
module BlockSyncWaiters {
  import opened Wrappers
  import opened BlockSync
  import opened BlockSyncRuns

  /** The peers made to wait for block `h`, in order. */
  function AskedFor(waits: seq<(Peer, Hash)>, h: Hash): seq<Peer> {
    if waits == [] then []
    else AskedFor(waits[..|waits| - 1], h) + if waits[|waits| - 1].1 == h then [waits[|waits| - 1].0] else []
  }

  /** The waiting peers that were sent block `h`, in order. */
  function ServedTo(es: seq<Event>, h: Hash): seq<Peer> {
    if es == [] then []
    else
      var e := es[|es| - 1];
      ServedTo(es[..|es| - 1], h) + if e.SendBlock? && e.block == h then [e.peer] else []
  }

  lemma {:induction false} ServedAppend(es: seq<Event>, fs: seq<Event>, h: Hash)
    ensures ServedTo(es + fs, h) == ServedTo(es, h) + ServedTo(fs, h)
    decreases |fs|
  {
    if fs == [] {
      assert es + fs == es;
    } else {
      assert (es + fs)[..|es + fs| - 1] == es + fs[..|fs| - 1];
      ServedAppend(es, fs[..|fs| - 1], h);
    }
  }

  lemma ServedOne(e: Event, h: Hash)
    ensures ServedTo([e], h) == if e.SendBlock? && e.block == h then [e.peer] else []
  {
    assert [e][..0] == [];
  }

  lemma {:induction false} ServeGives(waiters: seq<Peer>, g: Hash, h: Hash)
    ensures ServedTo(Serve(waiters, g), h) == if g == h then waiters else []
    decreases |waiters|
  {
    if waiters != [] {
      ServeGives(waiters[1..], g, h);
      ServedAppend([SendBlock(waiters[0], g)], Serve(waiters[1..], g), h);
      ServedOne(SendBlock(waiters[0], g), h);
      assert waiters == [waiters[0]] + waiters[1..];
    }
  }

  /** All who wait for `h`, in order. */
  function Waiters(c: Context, h: Hash): seq<Peer> {
    WaitersIn(c.pending, h) + WaitersIn(c.cached, h)
  }

  lemma {:induction false} ServeAllGives(c: Context, blocks: seq<Block>, h: Hash)
    requires Copies(blocks, h) <= 1 || Waiters(c, h) == []
    ensures ServedTo(ServeAll(c, blocks), h) == if h in Hashes(blocks) then Waiters(c, h) else []
    decreases |blocks|
  {
    CopiesIff(blocks, h);
    if blocks != [] {
      var g, rest := blocks[0].hash, blocks[1..];
      var a, b := Serve(WaitersIn(c.pending, g), g), Serve(WaitersIn(c.cached, g), g);
      ServeAllGives(c, rest, h);
      CopiesIff(rest, h);
      ServeGives(WaitersIn(c.pending, g), g, h);
      ServeGives(WaitersIn(c.cached, g), g, h);
      ServedAppend(a, b, h);
      ServedAppend(a + b, ServeAll(c, rest), h);
      assert g == h && h in Hashes(rest) ==> Waiters(c, h) == [];
    }
  }

  /** Those made to wait for `h` are, in order, those that got it and those that wait. */
  predicate InOrder(w: World, h: Hash) {
    AskedFor(w.waits, h) == ServedTo(w.Emitted(), h) + Waiters(w.c, h)
  }

  lemma AskedNext(waits: seq<(Peer, Hash)>, p: Peer, g: Hash, h: Hash)
    ensures AskedFor(waits + [(p, g)], h) == AskedFor(waits, h) + if g == h then [p] else []
  {
    assert (waits + [(p, g)])[..|waits|] == waits;
  }

  /** One more waiter, at the end, and no block sent. */
  lemma OneMoreWaits(w: World, v: World, p: Peer, g: Hash, h: Hash)
    requires InOrder(w, h) && v.waits == w.waits + [(p, g)] && ServedTo(v.Emitted(), h) == ServedTo(w.Emitted(), h)
    requires Waiters(v.c, h) == Waiters(w.c, h) + if g == h then [p] else []
    ensures InOrder(v, h)
  {
    AskedNext(w.waits, p, g, h);
    var s, t, u := ServedTo(w.Emitted(), h), Waiters(w.c, h), if g == h then [p] else [];
    assert (s + t) + u == s + (t + u);
  }

  /** An event that sends no block to a waiter. */
  lemma NoBlockSent(w: World, v: World, e: Event, h: Hash)
    requires v.Emitted() == w.Emitted() + [e] && !e.SendBlock?
    ensures ServedTo(v.Emitted(), h) == ServedTo(w.Emitted(), h)
  {
    ServedAppend(w.Emitted(), [e], h);
    ServedOne(e, h);
  }

  lemma AskEvents(w: World, s: Step, h: Hash)
    requires s.Ask?
    ensures ServedTo(Apply(w, s).Emitted(), h) == ServedTo(w.Emitted(), h)
  {
    var v := Apply(w, s);
    if Provider(w.c, s.q).Some? {
      RequestEffect(w.c, s.p, s.q);
      var e := SendRequest(Provider(w.c, s.q).value, Wanted(w.c, s.q).value);
      assert v.Emitted() == w.Emitted() + [e];
      NoBlockSent(w, v, e, h);
    } else {
      QuietRequest(w.c, s.p, s.q);
      if v.c.events != w.c.events {
        var bs :| v.c.events == w.c.events + [SendChain(s.p, bs)];
        assert v.Emitted() == w.Emitted() + [SendChain(s.p, bs)];
        NoBlockSent(w, v, SendChain(s.p, bs), h);
      }
    }
  }

  /** The waiters after a request: one more at most, at the end. */
  lemma AskWaiters(w: World, s: Step, h: Hash)
    requires s.Ask? && Apart(w.c)
    ensures var v := Apply(w, s); var g := Wanted(w.c, s.q);
            if g.Some? && g.value !in w.c.store.blocks && Queues(w.c, g.value)
            then v.waits == w.waits + [(s.p, g.value)] && Waiters(v.c, h) == Waiters(w.c, h) + (if g.value == h then [s.p] else [])
            else v.waits == w.waits && Waiters(v.c, h) == Waiters(w.c, h)
  {
    var g := Wanted(w.c, s.q);
    if g.Some? {
      if g.value in w.c.store.blocks {
        AnswerEffect(w.c, s.p, g.value, s.q);
      } else {
        assert WaitersIn(w.c.pending, h) + [] == WaitersIn(w.c.pending, h) && [] + [s.p] == [s.p];
      }
    }
  }

  lemma ReplyInOrder(w: World, s: Step, h: Hash)
    requires s.Reply? && s.p in w.c.peers && Legal(w, s) && InOrder(w, h)
    ensures InOrder(Apply(w, s), h)
  {
    var v := Apply(w, s);
    ResponseRaisesIff(w.c, s.p, s.blocks);
    ResponseEffect(w.c, s.p, s.blocks);
    assert v.Emitted() == w.Emitted() + ServeAll(w.c, s.blocks);
    ServedAndGone(w, v, s.blocks, h);
  }

  lemma ServedAndGone(w: World, v: World, blocks: seq<Block>, h: Hash)
    requires InOrder(w, h) && NoRepeats(w.c.pending, blocks) && NoRepeats(w.c.cached, blocks)
    requires v.Emitted() == w.Emitted() + ServeAll(w.c, blocks) && v.waits == w.waits
    requires v.c.pending == w.c.pending - Hashes(blocks) && v.c.cached == w.c.cached - Hashes(blocks)
    ensures InOrder(v, h)
  {
    ServedAppend(w.Emitted(), ServeAll(w.c, blocks), h);
    GoneOrLeft(w.c, v.c, blocks, h);
    ServeAllGives(w.c, blocks, h);
    EitherWay(ServedTo(w.Emitted(), h), Waiters(w.c, h));
  }

  lemma GoneOrLeft(c: Context, d: Context, blocks: seq<Block>, h: Hash)
    requires NoRepeats(c.pending, blocks) && NoRepeats(c.cached, blocks)
    requires d.pending == c.pending - Hashes(blocks) && d.cached == c.cached - Hashes(blocks)
    ensures Waiters(d, h) == if h in Hashes(blocks) then [] else Waiters(c, h)
    ensures Copies(blocks, h) <= 1 || Waiters(c, h) == []
  {
  }

  lemma EitherWay(s: seq<Peer>, t: seq<Peer>)
    ensures (s + t) + [] == (s + []) + t == s + t
  {
  }

  lemma StepInOrder(w: World, s: Step, h: Hash)
    requires Apart(w.c) && Legal(w, s) && InOrder(w, h)
    ensures InOrder(Apply(w, s), h)
  {
    var v := Apply(w, s);
    if s.Ask? {
      AskEvents(w, s, h);
      AskWaiters(w, s, h);
      if v.waits != w.waits {
        OneMoreWaits(w, v, s.p, Wanted(w.c, s.q).value, h);
      }
    } else if s.Reply? {
      if s.p in w.c.peers {
        ReplyInOrder(w, s, h);
      }
    } else {
      assert v.Emitted() == w.Emitted();
    }
  }

  /** For every run and block: those who asked for it while it was missing get it in the order in which they
      asked, once each, when it arrives. */
  lemma {:induction false} ServedInOrder(ss: seq<Step>, h: Hash)
    requires LegalRun(ss)
    ensures InOrder(Exec(ss), h)
    ensures h in Exec(ss).c.store.blocks ==> ServedTo(Exec(ss).Emitted(), h) == AskedFor(Exec(ss).waits, h)
    decreases |ss|
  {
    RunKeeps(ss);
    if ss == [] {
      assert START.Emitted() == [];
    } else {
      ServedInOrder(ss[..|ss| - 1], h);
      RunKeeps(ss[..|ss| - 1]);
      StepInOrder(Exec(ss[..|ss| - 1]), ss[|ss| - 1], h);
    }
  }
}
