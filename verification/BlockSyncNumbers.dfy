/** Which block the block-sync filter takes a height to mean, and what it answers from its store. */
module BlockSyncNumbers {
  import opened Wrappers
  import opened BlockSync
  import opened BlockSyncRuns

  /** The heights and hashes announced by peers that were registered at the time, in order. */
  function Announcements(ss: seq<Step>): seq<(int, Hash)>
    decreases |ss|
  {
    if ss == [] then []
    else
      var before, s := ss[..|ss| - 1], ss[|ss| - 1];
      Announcements(before) + if s.Announced? && s.p in Exec(before).c.peers then [(s.n, s.h)] else []
  }

  /** The hash of the first announcement at height `n`. */
  function FirstAt(anns: seq<(int, Hash)>, n: int): (r: Option<Hash>)
    ensures r.None? <==> forall k | 0 <= k < |anns| :: anns[k].0 != n
    ensures r.Some? ==>
              exists k | 0 <= k < |anns| :: anns[k] == (n, r.value) && forall j | 0 <= j < k :: anns[j].0 != n
  {
    if anns == [] then None
    else if anns[0].0 == n then Some(anns[0].1)
    else
      assert forall k | 0 < k < |anns| :: anns[k] == anns[1..][k - 1];
      FirstAt(anns[1..], n)
  }

  /** The height of the first announcement of `h`. */
  function HeightOf(anns: seq<(int, Hash)>, h: Hash): (r: Option<int>)
    ensures r.None? <==> forall k | 0 <= k < |anns| :: anns[k].1 != h
    ensures r.Some? ==>
              exists k | 0 <= k < |anns| :: anns[k] == (r.value, h) && forall j | 0 <= j < k :: anns[j].1 != h
  {
    if anns == [] then None
    else if anns[0].1 == h then Some(anns[0].0)
    else
      assert forall k | 0 < k < |anns| :: anns[k] == anns[1..][k - 1];
      HeightOf(anns[1..], h)
  }

  lemma {:induction false} FirstAtNext(anns: seq<(int, Hash)>, a: (int, Hash), n: int)
    ensures FirstAt(anns + [a], n) ==
            if FirstAt(anns, n).Some? then FirstAt(anns, n) else if a.0 == n then Some(a.1) else None
    decreases |anns|
  {
    if anns == [] {
      assert [a][1..] == [];
    } else {
      assert (anns + [a])[1..] == anns[1..] + [a];
      FirstAtNext(anns[1..], a, n);
    }
  }

  lemma {:induction false} HeightOfNext(anns: seq<(int, Hash)>, a: (int, Hash), h: Hash)
    ensures HeightOf(anns + [a], h) ==
            if HeightOf(anns, h).Some? then HeightOf(anns, h) else if a.1 == h then Some(a.0) else None
    decreases |anns|
  {
    if anns == [] {
      assert [a][1..] == [];
    } else {
      assert (anns + [a])[1..] == anns[1..] + [a];
      HeightOfNext(anns[1..], a, h);
    }
  }

  function Lookup<K, V>(m: map<K, V>, k: K): Option<V> {
    if k in m then Some(m[k]) else None
  }

  /** For every run, height and block: the tables hold the first hash announced at the height and the first
      height announced for the block, and nothing else. */
  lemma {:induction false} NumberedByFirst(ss: seq<Step>, n: int, h: Hash)
    requires LegalRun(ss)
    ensures Lookup(Exec(ss).c.numberToHash, n) == FirstAt(Announcements(ss), n)
    ensures Lookup(Exec(ss).c.hashToNumber, h) == HeightOf(Announcements(ss), h)
    decreases |ss|
  {
    if ss != [] {
      var before, s := ss[..|ss| - 1], ss[|ss| - 1];
      NumberedByFirst(before, n, h);
      if s.Announced? && s.p in Exec(before).c.peers {
        NumbersAnnounced(Exec(before).c, s.p, s.n, s.h, n, h);
        FirstAtNext(Announcements(before), (s.n, s.h), n);
        HeightOfNext(Announcements(before), (s.n, s.h), h);
      } else {
        assert Announcements(ss) == Announcements(before);
        NumbersKept(Exec(before), s);
      }
    }
  }

  lemma NumbersKept(w: World, s: Step)
    requires s.Announced? ==> s.p !in w.c.peers
    ensures Apply(w, s).c.numberToHash == w.c.numberToHash && Apply(w, s).c.hashToNumber == w.c.hashToNumber
  {
    if s.Ask? {
      RequestEffect(w.c, s.p, s.q);
    }
  }

  lemma NumbersAnnounced(c: Context, p: Peer, m: int, g: Hash, n: int, h: Hash)
    requires p in c.peers
    ensures var d := Announce(c, p, m, g);
            && Lookup(d.numberToHash, n) == (if n in c.numberToHash then Some(c.numberToHash[n]) else if m == n then Some(g) else None)
            && Lookup(d.hashToNumber, h) == (if h in c.hashToNumber then Some(c.hashToNumber[h]) else if g == h then Some(m) else None)
  {
  }

  // ----- answers ----------------------------------------------------------------------------------------------

  /** A request by number is one for the block with that number, if there is one, and is ignored otherwise. */
  lemma ByNumber(c: Context, p: Peer, q: Request)
    requires q.hash.None?
    ensures InjectRequest(c, p, q) ==
            if q.number in c.numberToHash then InjectRequest(c, p, q.(hash := Some(c.numberToHash[q.number])))
            else Handled(c, false)
  {
  }

  /** `bs` are the blocks numbered from `start` on in the direction asked for, up to the number asked for, or
      to the first height that is not numbered. */
  predicate Stretch(c: Context, q: Request, start: int, bs: seq<Hash>) {
    && (forall i | 0 <= i < |bs| ::
          var k := Height(start, q.ascending, i); k in c.numberToHash && bs[i] == c.numberToHash[k])
    && (q.maxBlocks > 0 ==> |bs| <= q.maxBlocks)
    && (|bs| == q.maxBlocks > 0 || Height(start, q.ascending, |bs|) !in c.numberToHash)
  }

  /** Block `n` of that stretch was not stored with its header. */
  predicate Headless(c: Context, q: Request, start: int, n: nat) {
    && (q.maxBlocks > 0 ==> n < q.maxBlocks)
    && (forall i | 0 <= i <= n :: Height(start, q.ascending, i) in c.numberToHash)
    && c.numberToHash[Height(start, q.ascending, n)] !in c.store.headers
  }

  /** A request for a stored block is answered with the stretch of numbered blocks from it on, in its direction
      and up to its limit; it raises, and changes nothing, exactly if the block has no height or one of
      the blocks was not stored with its header. */
  lemma AnswerMeans(c: Context, p: Peer, q: Request, h: Hash)
    requires q.hash == Some(h) && h in c.store.blocks
    ensures var r := InjectRequest(c, p, q);
            && (r.raised ==> r.ctx == c)
            && (!r.raised ==> h in c.hashToNumber && exists bs ::
                  r.ctx == c.(events := c.events + [SendChain(p, bs)]) && Stretch(c, q, c.hashToNumber[h], bs))
            && (r.raised <==> h !in c.hashToNumber || exists n: nat :: Headless(c, q, c.hashToNumber[h], n))
  {
    if h in c.hashToNumber {
      var start := c.hashToNumber[h];
      var chain := Chain(c, start, q.ascending, q.maxBlocks, c.numberToHash.Keys);
      ChainMeans(c, start, q.ascending, q.maxBlocks, c.numberToHash.Keys);
      if chain.Some? {
        assert forall i | 0 <= i < |chain.value| :: Sendable(c, start, q.ascending, i);
        assert Stretch(c, q, start, chain.value);
        forall n: nat
          ensures !Headless(c, q, start, n)
        {
          if n < |chain.value| {
            assert Sendable(c, start, q.ascending, n);
          }
        }
      } else {
        var n: nat :| && (q.maxBlocks > 0 ==> n < q.maxBlocks) && !Sendable(c, start, q.ascending, n)
                      && Height(start, q.ascending, n) in c.numberToHash
                      && forall i: nat | i < n :: Sendable(c, start, q.ascending, i);
        forall i | 0 <= i <= n
          ensures Height(start, q.ascending, i) in c.numberToHash
        {
          assert i < n ==> Sendable(c, start, q.ascending, i);
        }
        assert Headless(c, q, start, n);
      }
    }
  }

  /** A block counts as stored with its header exactly if the first copy that was stored had one. */
  lemma {:induction false} HeadersSaved(s: Store, blocks: seq<Block>, h: Hash)
    ensures h in SaveAll(s, blocks).headers <==>
            || h in s.headers
            || (h !in s.blocks && exists k | 0 <= k < |blocks| ::
                  blocks[k] == Block(h, true) && forall j | 0 <= j < k :: blocks[j].hash != h)
    decreases |blocks|
  {
    if blocks != [] {
      HeadersSaved(Save(s, blocks[0]), blocks[1..], h);
      assert forall k | 0 < k < |blocks| :: blocks[k] == blocks[1..][k - 1];
      if k :| 0 <= k < |blocks[1..]| && blocks[1..][k] == Block(h, true) && forall j | 0 <= j < k :: blocks[1..][j].hash != h {
        assert blocks[k + 1] == Block(h, true);
        if blocks[0].hash != h {
          assert forall j | 0 <= j < k + 1 :: blocks[j].hash != h;
        }
      }
      if k :| 0 <= k < |blocks| && blocks[k] == Block(h, true) && forall j | 0 <= j < k :: blocks[j].hash != h {
        if k > 0 {
          assert blocks[1..][k - 1] == Block(h, true);
          assert forall j | 0 <= j < k - 1 :: blocks[1..][j].hash != h;
        }
      }
    }
  }

  /** After every run, for every request for a stored block: if the block was never announced, the handler
      raises. If it answers, the answer starts with the block asked for exactly if that block was the
      first announced at the height it was first announced for. */
  lemma AnswerStartsRightIff(ss: seq<Step>, p: Peer, q: Request)
    requires LegalRun(ss) && Wanted(Exec(ss).c, q).Some?
    requires Wanted(Exec(ss).c, q).value in Exec(ss).c.store.blocks
    ensures var c := Exec(ss).c; var h := Wanted(c, q).value; var anns := Announcements(ss);
            var r := InjectRequest(c, p, q); var height := HeightOf(anns, h);
            && (height.None? ==> r.raised)
            && (!r.raised ==>
                  && |r.ctx.events| == |c.events| + 1
                  && var answer := r.ctx.events[|c.events|];
                  && answer.SendChain? && answer.peer == p && answer.blocks != []
                  && (answer.blocks[0] == h <==> FirstAt(anns, height.value) == Some(h)))
  {
    var c := Exec(ss).c;
    var h := Wanted(c, q).value;
    NumberedByFirst(ss, 0, h);
    if h in c.hashToNumber {
      var n := c.hashToNumber[h];
      NumberedByFirst(ss, n, h);
      var anns := Announcements(ss);
      var k :| 0 <= k < |anns| && anns[k] == (n, h);
      assert FirstAt(anns, n).Some?;
      ChainMeans(c, n, q.ascending, q.maxBlocks, c.numberToHash.Keys);
      assert Height(n, q.ascending, 0) == n;
    }
  }

  /** Two blocks announced at one height and both stored: asking for the second is answered with the first. */
  lemma AnswersWithOtherBlock()
    ensures var c := Announce(Announce(RegisterPeer(EMPTY, 9), 9, 5, 1), 9, 5, 2);
            var d := InjectResponse(c, 9, [Block(1, true), Block(2, true)]);
            && !d.raised
            && InjectRequest(d.ctx, 9, Request(Some(2), 0, true, 1)) ==
               Handled(d.ctx.(events := [SendChain(9, [1])]), false)
  {
    var c := Announce(Announce(RegisterPeer(EMPTY, 9), 9, 5, 1), 9, 5, 2);
    var blocks := [Block(1, true), Block(2, true)];
    ResponseRaisesIff(c, 9, blocks);
    ResponseEffect(c, 9, blocks);
    var d := InjectResponse(c, 9, blocks).ctx;
    assert ServeAll(c, blocks) == [] by {
      assert blocks[1..][1..] == [] && ServeAll(c, blocks[1..][1..]) == [];
      assert ServeAll(c, blocks[1..]) == [];
    }
    assert d.store.blocks == {1, 2} && 1 in d.store.headers by {
      assert blocks[0].hash == 1 && blocks[1].hash == 2;
      assert blocks[1..] == [Block(2, true)] && blocks[1..][1..] == [];
    }
    assert d.numberToHash == map[5 := 1] && d.hashToNumber == map[1 := 5, 2 := 5];
    assert Chain(d, 5, true, 1, d.numberToHash.Keys) == Some([1]);
  }
}
