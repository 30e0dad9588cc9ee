/** What holds over every run of the block-sync filter, its store being its own. */
module BlockSyncRuns {
  import opened Wrappers
  import opened Counting
  import opened BlockSync

  // ----- one response ----------------------------------------------------------------------------------

  /** How many of the blocks have hash `h`. */
  function Copies(blocks: seq<Block>, h: Hash): nat {
    if blocks == [] then 0 else (if blocks[0].hash == h then 1 else 0) + Copies(blocks[1..], h)
  }

  /** How often `p` waits for block `h`. */
  function Waits(c: Context, p: Peer, h: Hash): nat {
    Occ(WaitersIn(c.pending, h), p) + Occ(WaitersIn(c.cached, h), p)
  }

  lemma {:induction false} OccCons<T>(a: T, s: seq<T>, x: T)
    ensures Occ([a] + s, x) == (if a == x then 1 else 0) + Occ(s, x)
  {
    OccAppend([a], s, x);
    OccOne(a, x);
  }

  lemma {:induction false} ServeCounts(waiters: seq<Peer>, h: Hash, p: Peer, g: Hash)
    ensures Occ(Serve(waiters, h), SendBlock(p, g)) == if g == h then Occ(waiters, p) else 0
    decreases |waiters|
  {
    if waiters != [] {
      ServeCounts(waiters[1..], h, p, g);
      OccCons(SendBlock(waiters[0], h), Serve(waiters[1..], h), SendBlock(p, g));
      OccCons(waiters[0], waiters[1..], p);
      assert waiters == [waiters[0]] + waiters[1..];
    }
  }

  lemma ServedOnce(c: Context, g: Hash, p: Peer, h: Hash)
    ensures Occ(Serve(WaitersIn(c.pending, g), g) + Serve(WaitersIn(c.cached, g), g), SendBlock(p, h)) ==
            if g == h then Waits(c, p, h) else 0
  {
    OccAppend(Serve(WaitersIn(c.pending, g), g), Serve(WaitersIn(c.cached, g), g), SendBlock(p, h));
    ServeCounts(WaitersIn(c.pending, g), g, p, h);
    ServeCounts(WaitersIn(c.cached, g), g, p, h);
  }

  lemma OneMore(n: nat, w: nat)
    ensures (1 + n) * w == w + n * w
  {
  }

  /** For every response: a waiting entry is served as often as its block occurs in the response. So it
      is served exactly once if and only if the block occurs exactly once. */
  lemma {:induction false} ServedPerCopy(c: Context, blocks: seq<Block>, p: Peer, h: Hash)
    ensures Occ(ServeAll(c, blocks), SendBlock(p, h)) == Copies(blocks, h) * Waits(c, p, h)
    decreases |blocks|
  {
    if blocks != [] {
      var g := blocks[0].hash;
      var sent := Serve(WaitersIn(c.pending, g), g) + Serve(WaitersIn(c.cached, g), g);
      ServedPerCopy(c, blocks[1..], p, h);
      ServedOnce(c, g, p, h);
      OccAppend(sent, ServeAll(c, blocks[1..]), SendBlock(p, h));
      OneMore(Copies(blocks[1..], h), Waits(c, p, h));
    }
  }

  /** No block that someone waits for occurs twice. */
  ghost predicate NoRepeats(m: map<Hash, seq<Peer>>, blocks: seq<Block>) {
    forall h | h in m :: Copies(blocks, h) <= 1
  }

  lemma {:induction false} CopiesIff(blocks: seq<Block>, h: Hash)
    ensures Copies(blocks, h) > 0 <==> h in Hashes(blocks)
  {
    if blocks != [] {
      CopiesIff(blocks[1..], h);
      assert blocks == [blocks[0]] + blocks[1..];
      assert h in Hashes(blocks) <==> h == blocks[0].hash || h in Hashes(blocks[1..]);
    }
  }

  lemma {:induction false} CompletedFacts(m: map<Hash, seq<Peer>>, blocks: seq<Block>, h: Hash)
    ensures Occ(Completed(m, blocks), h) == if h in m then Copies(blocks, h) else 0
  {
    if blocks != [] {
      CompletedFacts(m, blocks[1..], h);
      if blocks[0].hash in m {
        OccCons(blocks[0].hash, Completed(m, blocks[1..]), h);
      } else {
        assert [] + Completed(m, blocks[1..]) == Completed(m, blocks[1..]);
      }
    }
  }

  /** Deleting a list of keys succeeds exactly if each is there and listed once, and then deletes them. */
  lemma {:induction false} DeleteFacts(m: map<Hash, seq<Peer>>, hs: seq<Hash>)
    ensures DeleteAll(m, hs).1 <==> forall h :: Occ(hs, h) <= if h in m then 1 else 0
    ensures DeleteAll(m, hs).1 ==>
              forall h :: && (h in DeleteAll(m, hs).0 <==> h in m && Occ(hs, h) == 0)
                          && (h in DeleteAll(m, hs).0 ==> DeleteAll(m, hs).0[h] == m[h])
    decreases |hs|
  {
    if hs != [] {
      var k, rest := hs[0], hs[1..];
      assert hs == [k] + rest;
      forall h
        ensures Occ(hs, h) == (if k == h then 1 else 0) + Occ(rest, h)
      {
        OccCons(k, rest, h);
      }
      if k in m {
        DeleteFacts(m - {k}, rest);
        assert DeleteAll(m, hs) == DeleteAll(m - {k}, rest);
        if forall h :: Occ(hs, h) <= if h in m then 1 else 0 {
          forall h
            ensures Occ(rest, h) <= if h in m - {k} then 1 else 0
          {
            assert Occ(hs, h) <= if h in m then 1 else 0;
          }
        } else {
          var h :| Occ(hs, h) > if h in m then 1 else 0;
          assert Occ(rest, h) > if h in m - {k} then 1 else 0;
        }
      } else {
        assert Occ(hs, k) > 0;
      }
    }
  }

  lemma DeletionOk(m: map<Hash, seq<Peer>>, blocks: seq<Block>)
    ensures DeleteAll(m, Completed(m, blocks)).1 <==> NoRepeats(m, blocks)
    ensures NoRepeats(m, blocks) ==> DeleteAll(m, Completed(m, blocks)).0 == m - Hashes(blocks)
  {
    var hs := Completed(m, blocks);
    DeleteFacts(m, hs);
    forall h
      ensures Occ(hs, h) == if h in m then Copies(blocks, h) else 0
      ensures Copies(blocks, h) > 0 <==> h in Hashes(blocks)
    {
      CompletedFacts(m, blocks, h);
      CopiesIff(blocks, h);
    }
    if NoRepeats(m, blocks) {
      forall h
        ensures Occ(hs, h) <= if h in m then 1 else 0
      {
      }
    } else {
      var h :| h in m && Copies(blocks, h) > 1;
      assert Occ(hs, h) > 1;
    }
  }

  /** Handling a response ends in an exception exactly if the peer is not registered, or a block that
      someone waits for occurs twice in it. */
  lemma ResponseRaisesIff(c: Context, p: Peer, blocks: seq<Block>)
    ensures InjectResponse(c, p, blocks).raised <==>
            p !in c.peers || !NoRepeats(c.pending, blocks) || !NoRepeats(c.cached, blocks)
  {
    DeletionOk(c.pending, blocks);
    DeletionOk(c.cached, blocks);
  }

  /** Otherwise every block is stored and nobody waits for any of them any more. */
  lemma ResponseEffect(c: Context, p: Peer, blocks: seq<Block>)
    requires !InjectResponse(c, p, blocks).raised
    ensures var d := InjectResponse(c, p, blocks).ctx;
            && d.pending == c.pending - Hashes(blocks) && d.cached == c.cached - Hashes(blocks)
            && d.store.blocks == c.store.blocks + Hashes(blocks)
            && d.events == c.events + ServeAll(c, blocks)
            && d.peers == c.peers[p := c.peers[p].(busy := false)] && d.order == c.order
  {
    ResponseRaisesIff(c, p, blocks);
    DeletionOk(c.pending, blocks);
    DeletionOk(c.cached, blocks);
    SaveAllBlocks(c.store, blocks);
  }

  lemma {:induction false} SaveAllBlocks(s: Store, blocks: seq<Block>)
    ensures SaveAll(s, blocks).blocks == s.blocks + Hashes(blocks)
    decreases |blocks|
  {
    if blocks != [] {
      SaveAllBlocks(Save(s, blocks[0]), blocks[1..]);
      assert blocks == [blocks[0]] + blocks[1..];
      assert Hashes(blocks) == {blocks[0].hash} + Hashes(blocks[1..]);
    }
  }

  // ----- one request -----------------------------------------------------------------------------------

  /** The peer that a request for a block is sent on to. */
  function Provider(c: Context, q: Request): Option<Peer> {
    match Wanted(c, q)
    case None => None
    case Some(h) =>
      if h in c.store.blocks || h in c.pending || h in c.cached then None else FirstEligible(c, c.order, h)
  }

  /** What a request does to peers and heights: at most, it marks its provider busy. */
  lemma RequestEffect(c: Context, p: Peer, q: Request)
    ensures var d := InjectRequest(c, p, q).ctx; var r := Provider(c, q);
            && d.numberToHash == c.numberToHash && d.hashToNumber == c.hashToNumber && d.order == c.order
            && d.peers == (if r.Some? then c.peers[r.value := c.peers[r.value].(busy := true)] else c.peers)
            && (r.Some? ==> d.events == c.events + [SendRequest(r.value, Wanted(c, q).value)])
  {
    if Wanted(c, q).Some? && Wanted(c, q).value in c.store.blocks {
      AnswerEffect(c, p, Wanted(c, q).value, q);
    }
  }

  /** An answer from the store changes nothing but the events. */
  lemma AnswerEffect(c: Context, p: Peer, h: Hash, q: Request)
    ensures var d := AnswerFromStore(c, p, h, q).ctx;
            && d == c.(events := d.events)
            && (d.events == c.events || exists bs :: d.events == c.events + [SendChain(p, bs)])
  {
  }

  /** A request that is not sent on sends no request. */
  lemma QuietRequest(c: Context, p: Peer, q: Request)
    requires Provider(c, q).None?
    ensures var es := InjectRequest(c, p, q).ctx.events;
            es == c.events || exists bs :: es == c.events + [SendChain(p, bs)]
  {
    if Wanted(c, q).Some? && Wanted(c, q).value in c.store.blocks {
      AnswerEffect(c, p, Wanted(c, q).value, q);
    }
  }

  // ----- runs ---------------------------------------------------------------------------------------------

  /** `polled` are the events the host has fetched; `waits` lists every (peer, block) that was made to
      wait. */
  datatype World = World(c: Context, polled: seq<Event>, waits: seq<(Peer, Hash)>) {
    function Emitted(): seq<Event> {
      polled + c.events
    }
  }

  const START := World(EMPTY, [], [])

  datatype Step =
    | Ask(p: Peer, q: Request)
    | Reply(p: Peer, blocks: seq<Block>)
    | Announced(p: Peer, n: int, h: Hash)
    | Join(p: Peer)
    | Leave(p: Peer)
    | Poll

  /** A response, asked for or not, of a registered peer repeats no block that is waited for, which would
      raise (ResponseRaisesIff); one of any other peer raises at once and changes nothing. */
  ghost predicate Legal(w: World, s: Step) {
    s.Reply? && s.p in w.c.peers ==> NoRepeats(w.c.pending, s.blocks) && NoRepeats(w.c.cached, s.blocks)
  }

  /** Whether a request for the missing block `h` is made to wait. */
  predicate Queues(c: Context, h: Hash) {
    h in c.pending || h in c.cached || FirstEligible(c, c.order, h).Some? || !Unknown(c, h)
  }

  function Apply(w: World, s: Step): World {
    match s
    case Ask(p, q) =>
      var v := w.(c := InjectRequest(w.c, p, q).ctx);
      (match Wanted(w.c, q)
       case Some(h) =>
         if h in w.c.store.blocks || !Queues(w.c, h) then v else v.(waits := w.waits + [(p, h)])
       case None => v)
    case Reply(p, blocks) => w.(c := InjectResponse(w.c, p, blocks).ctx)
    case Announced(p, n, h) => w.(c := Announce(w.c, p, n, h))
    case Join(p) => w.(c := RegisterPeer(w.c, p))
    case Leave(p) => w.(c := UnregisterPeer(w.c, p))
    case Poll => w.(c := w.c.(events := []), polled := w.polled + w.c.events)
  }

  /** How many requests for block `h` were sent, to whichever peer. */
  function Requests(es: seq<Event>, h: Hash): nat {
    if es == [] then 0
    else
      var e := es[|es| - 1];
      Requests(es[..|es| - 1], h) + if e.SendRequest? && e.block == h then 1 else 0
  }

  lemma {:induction false} RequestsAppend(es: seq<Event>, fs: seq<Event>, h: Hash)
    ensures Requests(es + fs, h) == Requests(es, h) + Requests(fs, h)
    decreases |fs|
  {
    if fs == [] {
      assert es + fs == es;
    } else {
      assert (es + fs)[..|es + fs| - 1] == es + fs[..|fs| - 1];
      RequestsAppend(es, fs[..|fs| - 1], h);
    }
  }

  lemma {:induction false} NoRequests(es: seq<Event>, h: Hash)
    requires forall e | e in es :: !(e.SendRequest? && e.block == h)
    ensures Requests(es, h) == 0
    decreases |es|
  {
    if es != [] {
      assert es[|es| - 1] in es;
      NoRequests(es[..|es| - 1], h);
    }
  }

  /** A block is pending, cached, stored or none of these. */
  predicate Apart(c: Context) {
    && c.pending.Keys !! c.cached.Keys
    && c.pending.Keys !! c.store.blocks
    && c.cached.Keys !! c.store.blocks
  }

  /** The requests sent for `h`: one while it is pending, at most one once it is stored, else none. */
  predicate AskedOnce(w: World, h: Hash) {
    var n := Requests(w.Emitted(), h);
    n <= 1 && (h in w.c.pending ==> n == 1) && (h !in w.c.pending && h !in w.c.store.blocks ==> n == 0)
  }

  /** Every wait was served exactly once or is still waiting. */
  predicate Conserved(w: World, p: Peer, h: Hash) {
    Occ(w.waits, (p, h)) == Occ(w.Emitted(), SendBlock(p, h)) + Waits(w.c, p, h)
  }

  ghost predicate OrderLists(c: Context) {
    forall p :: p in c.order <==> p in c.peers
  }

  ghost predicate Inv(w: World) {
    && Apart(w.c) && OrderLists(w.c)
    && (forall h :: AskedOnce(w, h))
    && (forall p, h :: Conserved(w, p, h))
  }

  // ----- requests -------------------------------------------------------------------------------------------

  /** One more waiter for `h`, with the events `es`, none of which serves anyone. */
  lemma WaitsNext(w: World, v: World, p: Peer, h: Hash, es: seq<Event>)
    requires forall q, g :: Conserved(w, q, g)
    requires v.Emitted() == w.Emitted() + es && forall e | e in es :: e.SendRequest?
    requires v.waits == w.waits + [(p, h)]
    requires forall g :: WaitersIn(v.c.pending, g) + WaitersIn(v.c.cached, g) ==
                         WaitersIn(w.c.pending, g) + WaitersIn(w.c.cached, g) + if g == h then [p] else []
    ensures forall q, g :: Conserved(v, q, g)
  {
    forall q, g
      ensures Conserved(v, q, g)
    {
      assert Conserved(w, q, g);
      OccAppend(w.waits, [(p, h)], (q, g));
      OccOne((p, h), (q, g));
      OccAppend(w.Emitted(), es, SendBlock(q, g));
      OccAbsent(es, SendBlock(q, g));
      OccAppend(WaitersIn(v.c.pending, g), WaitersIn(v.c.cached, g), q);
      OccAppend(WaitersIn(w.c.pending, g), WaitersIn(w.c.cached, g), q);
      OccAppend(WaitersIn(w.c.pending, g) + WaitersIn(w.c.cached, g), if g == h then [p] else [], q);
      OccOne(p, q);
    }
  }

  lemma AskPending(w: World, p: Peer, h: Hash, v: World)
    requires Inv(w) && h in w.c.pending
    requires v == w.(c := w.c.(pending := w.c.pending[h := w.c.pending[h] + [p]]), waits := w.waits + [(p, h)])
    ensures Inv(v)
  {
    assert v.Emitted() == w.Emitted() + [];
    forall g
      ensures AskedOnce(v, g)
    {
      assert AskedOnce(w, g);
    }
    assert h !in w.c.cached;
    WaitsNext(w, v, p, h, []);
  }

  lemma AskCached(w: World, p: Peer, h: Hash, v: World)
    requires Inv(w) && h !in w.c.pending && h !in w.c.store.blocks
    requires v == w.(c := w.c.(cached := w.c.cached[h := WaitersIn(w.c.cached, h) + [p]]), waits := w.waits + [(p, h)])
    ensures Inv(v)
  {
    assert v.Emitted() == w.Emitted() + [];
    forall g
      ensures AskedOnce(v, g)
    {
      assert AskedOnce(w, g);
    }
    WaitsNext(w, v, p, h, []);
  }

  lemma AskProvider(w: World, p: Peer, h: Hash, provider: Peer, v: World)
    requires Inv(w) && h !in w.c.pending && h !in w.c.cached && h !in w.c.store.blocks
    requires Eligible(w.c, provider, h)
    requires v == w.(c := w.c.(pending := w.c.pending[h := [p]],
                               peers := w.c.peers[provider := w.c.peers[provider].(busy := true)],
                               events := w.c.events + [SendRequest(provider, h)]),
                     waits := w.waits + [(p, h)])
    ensures Inv(v)
  {
    var es := [SendRequest(provider, h)];
    assert v.Emitted() == w.Emitted() + es;
    forall g
      ensures AskedOnce(v, g)
    {
      OneMoreRequest(w, v, provider, h, g);
    }
    WaitsNext(w, v, p, h, es);
  }

  lemma OneMoreRequest(w: World, v: World, provider: Peer, h: Hash, g: Hash)
    requires AskedOnce(w, g) && h !in w.c.pending && h !in w.c.store.blocks
    requires v.Emitted() == w.Emitted() + [SendRequest(provider, h)]
    requires v.c.pending.Keys == w.c.pending.Keys + {h} && v.c.store == w.c.store
    ensures AskedOnce(v, g)
  {
    var es := [SendRequest(provider, h)];
    RequestsAppend(w.Emitted(), es, g);
    assert es[..0] == [] && Requests(es, g) == if g == h then 1 else 0;
  }

  /** Events that neither ask for nor deliver a block to a waiter. */
  lemma QuietEvents(w: World, v: World, es: seq<Event>)
    requires Inv(w) && v.Emitted() == w.Emitted() + es && forall e | e in es :: e.SendChain?
    requires v.c.pending == w.c.pending && v.c.cached == w.c.cached && v.c.store == w.c.store && v.waits == w.waits
    ensures (forall h :: AskedOnce(v, h)) && forall p, h :: Conserved(v, p, h)
  {
    forall h
      ensures AskedOnce(v, h)
    {
      assert AskedOnce(w, h);
      RequestsAppend(w.Emitted(), es, h);
      NoRequests(es, h);
    }
    forall p, h
      ensures Conserved(v, p, h)
    {
      assert Conserved(w, p, h);
      OccAppend(w.Emitted(), es, SendBlock(p, h));
      OccAbsent(es, SendBlock(p, h));
    }
  }

  lemma AskKeeps(w: World, s: Step)
    requires Inv(w) && s.Ask?
    ensures Inv(Apply(w, s))
  {
    var v := Apply(w, s);
    match Wanted(w.c, s.q)
    case None =>
    case Some(h) =>
      if h in w.c.store.blocks {
        var es := v.c.events[|w.c.events|..];
        assert v.Emitted() == w.Emitted() + es;
        QuietEvents(w, v, es);
      } else if !Queues(w.c, h) {
        assert v == w;
      } else if h in w.c.pending {
        AskPending(w, s.p, h, v);
      } else if h in w.c.cached || FirstEligible(w.c, w.c.order, h).None? {
        assert [] + [s.p] == [s.p];
        AskCached(w, s.p, h, v);
      } else {
        AskProvider(w, s.p, h, FirstEligible(w.c, w.c.order, h).value, v);
      }
  }

  // ----- responses -------------------------------------------------------------------------------------------

  lemma {:induction false} ServeAllOnly(c: Context, blocks: seq<Block>)
    ensures forall e | e in ServeAll(c, blocks) :: e.SendBlock?
  {
    if blocks != [] {
      var h := blocks[0].hash;
      ServeOnly(WaitersIn(c.pending, h), h);
      ServeOnly(WaitersIn(c.cached, h), h);
      ServeAllOnly(c, blocks[1..]);
    }
  }

  lemma {:induction false} ServeOnly(waiters: seq<Peer>, h: Hash)
    ensures forall e | e in Serve(waiters, h) :: e.SendBlock?
  {
    if waiters != [] {
      ServeOnly(waiters[1..], h);
    }
  }

  lemma AtMostOnce(n: nat, k: nat)
    requires n <= 1 || k == 0
    ensures n * k == if n == 0 then 0 else k
  {
  }

  /** Without repeats a waiting entry is either served, once, or left as it was. */
  lemma ServedOrLeft(c: Context, d: Context, blocks: seq<Block>, p: Peer, h: Hash)
    requires NoRepeats(c.pending, blocks) && NoRepeats(c.cached, blocks)
    requires d.pending == c.pending - Hashes(blocks) && d.cached == c.cached - Hashes(blocks)
    ensures Copies(blocks, h) * Waits(c, p, h) + Waits(d, p, h) == Waits(c, p, h)
  {
    CopiesIff(blocks, h);
    AtMostOnce(Copies(blocks, h), Waits(c, p, h));
  }

  lemma ServedOrWaiting(w: World, v: World, blocks: seq<Block>, p: Peer, h: Hash)
    requires Conserved(w, p, h) && NoRepeats(w.c.pending, blocks) && NoRepeats(w.c.cached, blocks)
    requires v.Emitted() == w.Emitted() + ServeAll(w.c, blocks) && v.waits == w.waits
    requires v.c.pending == w.c.pending - Hashes(blocks) && v.c.cached == w.c.cached - Hashes(blocks)
    ensures Conserved(v, p, h)
  {
    OccAppend(w.Emitted(), ServeAll(w.c, blocks), SendBlock(p, h));
    ServedPerCopy(w.c, blocks, p, h);
    ServedOrLeft(w.c, v.c, blocks, p, h);
  }

  lemma ReplyKeeps(w: World, s: Step)
    requires Inv(w) && s.Reply? && s.p in w.c.peers && Legal(w, s)
    ensures Inv(Apply(w, s))
  {
    var v := Apply(w, s);
    ResponseRaisesIff(w.c, s.p, s.blocks);
    ResponseEffect(w.c, s.p, s.blocks);
    var es := ServeAll(w.c, s.blocks);
    assert v.Emitted() == w.Emitted() + es;
    ServeAllOnly(w.c, s.blocks);
    forall h
      ensures AskedOnce(v, h)
    {
      assert AskedOnce(w, h);
      RequestsAppend(w.Emitted(), es, h);
      NoRequests(es, h);
    }
    forall p, h
      ensures Conserved(v, p, h)
    {
      ServedOrWaiting(w, v, s.blocks, p, h);
    }
  }

  // ----- the rest ---------------------------------------------------------------------------------------------------

  lemma {:induction false} OmitMembers(s: seq<Peer>, p: Peer, q: Peer)
    ensures q in Omit(s, p) <==> q in s && q != p
  {
    if s != [] {
      OmitMembers(s[1..], p, q);
    }
  }

  /** Steps that change no block, no waiter and no event. */
  lemma Untouched(w: World, v: World)
    requires Inv(w) && v.Emitted() == w.Emitted() && v.waits == w.waits
    requires v.c.pending == w.c.pending && v.c.cached == w.c.cached && v.c.store.blocks == w.c.store.blocks
    requires OrderLists(v.c)
    ensures Inv(v)
  {
    forall h
      ensures AskedOnce(v, h)
    {
      assert AskedOnce(w, h);
    }
    forall p, h
      ensures Conserved(v, p, h)
    {
      assert Conserved(w, p, h);
    }
  }

  lemma LeaveKeeps(w: World, s: Step)
    requires Inv(w) && s.Leave?
    ensures Inv(Apply(w, s))
  {
    forall q
      ensures q in Omit(w.c.order, s.p) <==> q in w.c.order && q != s.p
    {
      OmitMembers(w.c.order, s.p, q);
    }
    Untouched(w, Apply(w, s));
  }

  lemma OtherKeeps(w: World, s: Step)
    requires Inv(w) && (s.Join? || s.Announced? || s.Poll?)
    ensures Inv(Apply(w, s))
  {
    var v := Apply(w, s);
    assert v.Emitted() == w.Emitted();
    Untouched(w, v);
  }

  lemma StepKeeps(w: World, s: Step)
    requires Inv(w) && Legal(w, s)
    ensures Inv(Apply(w, s))
  {
    match s
    case Ask(_, _) => AskKeeps(w, s);
    case Reply(p, _) =>
      if p in w.c.peers {
        ReplyKeeps(w, s);
      }
    case Leave(_) => LeaveKeeps(w, s);
    case _ => OtherKeeps(w, s);
  }

  ghost predicate LegalRun(ss: seq<Step>)
    decreases |ss|
  {
    ss == [] || (LegalRun(ss[..|ss| - 1]) && Legal(Exec(ss[..|ss| - 1]), ss[|ss| - 1]))
  }

  function Exec(ss: seq<Step>): World
    decreases |ss|
  {
    if ss == [] then START else Apply(Exec(ss[..|ss| - 1]), ss[|ss| - 1])
  }

  lemma RunSnoc(ss: seq<Step>, s: Step)
    ensures Exec(ss + [s]) == Apply(Exec(ss), s)
    ensures LegalRun(ss + [s]) <==> LegalRun(ss) && Legal(Exec(ss), s)
  {
    assert (ss + [s])[..|ss|] == ss;
  }

  lemma {:induction false} RunKeeps(ss: seq<Step>)
    requires LegalRun(ss)
    ensures Inv(Exec(ss))
    decreases |ss|
  {
    if ss == [] {
      assert START.Emitted() == [];
    } else {
      RunKeeps(ss[..|ss| - 1]);
      StepKeeps(Exec(ss[..|ss| - 1]), ss[|ss| - 1]);
    }
  }

  /** For every run, block and peer: no block is in two of pending, cached and stored; at most one
      request is ever sent for a block; and every peer made to wait for a block gets it exactly once,
      when it arrives. */
  lemma EveryRun(ss: seq<Step>, p: Peer, h: Hash)
    requires LegalRun(ss)
    ensures var w := Exec(ss);
            && Apart(w.c)
            && Requests(w.Emitted(), h) <= 1
            && Occ(w.waits, (p, h)) == Occ(w.Emitted(), SendBlock(p, h)) + Waits(w.c, p, h)
            && (h in w.c.store.blocks ==> Occ(w.waits, (p, h)) == Occ(w.Emitted(), SendBlock(p, h)))
  {
    RunKeeps(ss);
    assert AskedOnce(Exec(ss), h) && Conserved(Exec(ss), p, h);
  }

  // ----- cached requests --------------------------------------------------------------------------------------

  lemma CachedStays(w: World, s: Step, h: Hash)
    requires Inv(w) && Legal(w, s) && h in w.c.cached && (s.Reply? ==> h !in Hashes(s.blocks))
    ensures h in Apply(w, s).c.cached
  {
    if s.Reply? && s.p in w.c.peers {
      ResponseRaisesIff(w.c, s.p, s.blocks);
      ResponseEffect(w.c, s.p, s.blocks);
    }
  }

  /** A cached request is never sent on: for as long as its block does not arrive with some other
      response, no request for it goes out, however many of its providers become free. */
  lemma {:induction false} CachedIsNeverSent(ss: seq<Step>, m: nat, h: Hash)
    requires LegalRun(ss) && m <= |ss| && h in Exec(ss[..m]).c.cached
    requires forall k | m <= k < |ss| && ss[k].Reply? :: h !in Hashes(ss[k].blocks)
    ensures h in Exec(ss).c.cached && Requests(Exec(ss).Emitted(), h) == 0
    decreases |ss|
  {
    RunKeeps(ss);
    assert AskedOnce(Exec(ss), h);
    if m == |ss| {
      assert ss[..m] == ss;
    } else {
      var before := ss[..|ss| - 1];
      assert before[..m] == ss[..m];
      RunKeeps(before);
      CachedIsNeverSent(before, m, h);
      CachedStays(Exec(before), ss[|ss| - 1], h);
    }
  }
}
