/** The block-sync filter: it answers block requests from its store, coalesces requests for the same
    missing block, and serves everyone who waits when the block arrives. */
module BlockSync {
  import opened Wrappers

  type Hash = nat
  type Peer = nat

  datatype PeerContext = PeerContext(known: set<Hash>, busy: bool)

  datatype Event =
    | SendRequest(provider: Peer, block: Hash)
    | SendBlock(peer: Peer, block: Hash)
    | SendChain(peer: Peer, blocks: seq<Hash>)

  /** The stored blocks, and those of them that were saved with a header. */
  datatype Store = Store(blocks: set<Hash>, headers: set<Hash>)

  /** `order` lists the registered peers as the dictionary yields them. */
  datatype Context = Context(store: Store, pending: map<Hash, seq<Peer>>, cached: map<Hash, seq<Peer>>,
                             peers: map<Peer, PeerContext>, order: seq<Peer>,
                             numberToHash: map<int, Hash>, hashToNumber: map<Hash, int>, events: seq<Event>)

  /** A block request names a hash, or else a number. */
  datatype Request = Request(hash: Option<Hash>, number: nat, ascending: bool, maxBlocks: nat)

  datatype Block = Block(hash: Hash, hasHeader: bool)

  /** `raised` says that the handler ended in an exception. */
  datatype Handled = Handled(ctx: Context, raised: bool)

  const EMPTY := Context(Store({}, {}), map[], map[], map[], [], map[], map[], [])

  // ----- choosing a provider ----------------------------------------------------------------------

  predicate Eligible(c: Context, p: Peer, h: Hash) {
    p in c.peers && h in c.peers[p].known && !c.peers[p].busy
  }

  function FirstEligible(c: Context, order: seq<Peer>, h: Hash): (r: Option<Peer>)
    ensures r.Some? ==> Eligible(c, r.value, h)
    ensures r.Some? ==>
              exists k | 0 <= k < |order| :: order[k] == r.value && forall j | 0 <= j < k :: !Eligible(c, order[j], h)
    ensures r.None? ==> forall p | p in order :: !Eligible(c, p, h)
  {
    if order == [] then None
    else if Eligible(c, order[0], h) then Some(order[0])
    else
      assert forall k | 0 < k < |order| :: order[k] == order[1..][k - 1];
      FirstEligible(c, order[1..], h)
  }

  predicate Unknown(c: Context, h: Hash) {
    forall p | p in c.peers :: h !in c.peers[p].known
  }

  // ----- answering from the store -------------------------------------------------------------------

  /** The blocks from `number` on, up or down, until one is not numbered or `max` are found; a `max` of
      zero is never reached. `None` if a numbered block is not stored, or was stored without header. */
  function Chain(c: Context, number: int, ascending: bool, max: int, left: set<int>): Option<seq<Hash>>
    decreases left
  {
    if number !in c.numberToHash || number !in left then Some([])
    else
      var h := c.numberToHash[number];
      if h !in c.store.headers then None
      else if max - 1 == 0 then Some([h])
      else
        match Chain(c, if ascending then number + 1 else number - 1, ascending, max - 1, left - {number})
        case None => None
        case Some(rest) => Some([h] + rest)
  }

  function AnswerFromStore(c: Context, p: Peer, h: Hash, q: Request): Handled {
    if h !in c.hashToNumber then Handled(c, true)
    else
      match Chain(c, c.hashToNumber[h], q.ascending, q.maxBlocks, c.numberToHash.Keys)
      case None => Handled(c, true)
      case Some(blocks) => Handled(c.(events := c.events + [SendChain(p, blocks)]), false)
  }

  // ----- requests ---------------------------------------------------------------------------------------

  function Wanted(c: Context, q: Request): Option<Hash> {
    if q.hash.Some? then q.hash
    else if q.number in c.numberToHash then Some(c.numberToHash[q.number]) else None
  }

  /** A request for block `h`. */
  function RequestBlock(c: Context, p: Peer, h: Hash): Context {
    if h in c.pending then c.(pending := c.pending[h := c.pending[h] + [p]])
    else if h in c.cached then c.(cached := c.cached[h := c.cached[h] + [p]])
    else
      match FirstEligible(c, c.order, h)
      case None => if Unknown(c, h) then c else c.(cached := c.cached[h := [p]])
      case Some(provider) =>
        c.(pending := c.pending[h := [p]],
           peers := c.peers[provider := c.peers[provider].(busy := true)],
           events := c.events + [SendRequest(provider, h)])
  }

  function InjectRequest(c: Context, p: Peer, q: Request): Handled {
    match Wanted(c, q)
    case None => Handled(c, false)
    case Some(h) => if h in c.store.blocks then AnswerFromStore(c, p, h, q) else Handled(RequestBlock(c, p, h), false)
  }

  // ----- responses -----------------------------------------------------------------------------------------

  function Serve(waiters: seq<Peer>, h: Hash): seq<Event> {
    if waiters == [] then [] else [SendBlock(waiters[0], h)] + Serve(waiters[1..], h)
  }

  function WaitersIn(m: map<Hash, seq<Peer>>, h: Hash): seq<Peer> {
    if h in m then m[h] else []
  }

  /** Everything sent for the blocks of one response. */
  function ServeAll(c: Context, blocks: seq<Block>): seq<Event> {
    if blocks == [] then []
    else
      var h := blocks[0].hash;
      Serve(WaitersIn(c.pending, h), h) + Serve(WaitersIn(c.cached, h), h) + ServeAll(c, blocks[1..])
  }

  /** The hashes of `blocks` that `m` waits for, with repetitions. */
  function Completed(m: map<Hash, seq<Peer>>, blocks: seq<Block>): seq<Hash> {
    if blocks == [] then []
    else (if blocks[0].hash in m then [blocks[0].hash] else []) + Completed(m, blocks[1..])
  }

  /** Deletes keys one by one; deleting a key that is not there raises. */
  function DeleteAll(m: map<Hash, seq<Peer>>, hs: seq<Hash>): (map<Hash, seq<Peer>>, bool)
    decreases |hs|
  {
    if hs == [] then (m, true)
    else if hs[0] !in m then (m, false)
    else DeleteAll(m - {hs[0]}, hs[1..])
  }

  function Hashes(blocks: seq<Block>): set<Hash> {
    set b | b in blocks :: b.hash
  }

  /** Saves a block unless it is stored already. */
  function Save(s: Store, b: Block): Store {
    if b.hash in s.blocks then s
    else Store(s.blocks + {b.hash}, if b.hasHeader then s.headers + {b.hash} else s.headers)
  }

  function SaveAll(s: Store, blocks: seq<Block>): Store
    decreases |blocks|
  {
    if blocks == [] then s else SaveAll(Save(s, blocks[0]), blocks[1..])
  }

  function InjectResponse(c: Context, p: Peer, blocks: seq<Block>): Handled {
    if p !in c.peers then Handled(c, true)
    else
      var d := c.(store := SaveAll(c.store, blocks),
                  peers := c.peers[p := c.peers[p].(busy := false)],
                  events := c.events + ServeAll(c, blocks));
      var (pending, ok) := DeleteAll(c.pending, Completed(c.pending, blocks));
      if !ok then Handled(d.(pending := pending), true)
      else
        var (cached, ok') := DeleteAll(c.cached, Completed(c.cached, blocks));
        Handled(d.(pending := pending, cached := cached), !ok')
  }

  // ----- peers ---------------------------------------------------------------------------------------------------

  function RegisterPeer(c: Context, p: Peer): Context {
    c.(peers := c.peers[p := PeerContext({}, false)], order := if p in c.peers then c.order else c.order + [p])
  }

  function Omit(s: seq<Peer>, p: Peer): seq<Peer> {
    if s == [] then [] else (if s[0] == p then [] else [s[0]]) + Omit(s[1..], p)
  }

  function UnregisterPeer(c: Context, p: Peer): Context {
    if p in c.peers then c.(peers := c.peers - {p}, order := Omit(c.order, p)) else c
  }

  /** A peer announced block `h` at height `n`. */
  function Announce(c: Context, p: Peer, n: int, h: Hash): Context {
    if p !in c.peers then c
    else
      c.(peers := c.peers[p := c.peers[p].(known := c.peers[p].known + {h})],
         numberToHash := if n in c.numberToHash then c.numberToHash else c.numberToHash[n := h],
         hashToNumber := if h in c.hashToNumber then c.hashToNumber else c.hashToNumber[h := n])
  }

  /** The filter's context as the mutable object it is. */
  class SyncFilter {
    var store: Store
    var pending: map<Hash, seq<Peer>>
    var cached: map<Hash, seq<Peer>>
    var peers: map<Peer, PeerContext>
    var order: seq<Peer>
    var numberToHash: map<int, Hash>
    var hashToNumber: map<Hash, int>
    var events: seq<Event>

    function View(): Context
      reads this
    {
      Context(store, pending, cached, peers, order, numberToHash, hashToNumber, events)
    }

    constructor ()
      ensures View() == EMPTY
    {
      store, pending, cached, peers, order := Store({}, {}), map[], map[], map[], [];
      numberToHash, hashToNumber, events := map[], map[], [];
    }

    method GetProvider(h: Hash) returns (r: Option<Peer>)
      ensures r == FirstEligible(View(), order, h)
    {
      for i := 0 to |order|
        invariant FirstEligible(View(), order[i..], h) == FirstEligible(View(), order, h)
      {
        assert order[i..][1..] == order[i + 1..];
        if Eligible(View(), order[i], h) {
          return Some(order[i]);
        }
      }
      return None;
    }

    method IsUnknownBlock(h: Hash) returns (unknown: bool)
      ensures unknown <==> Unknown(View(), h)
    {
      var todo := peers.Keys;
      while todo != {}
        invariant todo <= peers.Keys
        invariant forall p | p in peers && p !in todo :: h !in peers[p].known
      {
        var p :| p in todo;
        if h in peers[p].known {
          return false;
        }
        todo := todo - {p};
      }
      return true;
    }

    method CollectChain(start: int, ascending: bool, maxBlocks: nat) returns (r: Option<seq<Hash>>)
      ensures r == Chain(View(), start, ascending, maxBlocks, numberToHash.Keys)
    {
      var number, max := start, maxBlocks as int;
      var blocks: seq<Hash> := [];
      ghost var left := numberToHash.Keys;
      ghost var all := Chain(View(), start, ascending, max, left);
      assert all == Prepended([], all) by {
        assert all.Some? ==> [] + all.value == all.value;
      }
      while number in numberToHash
        invariant left <= numberToHash.Keys
        invariant forall k | k in numberToHash && k !in left :: Passed(k, number, ascending)
        invariant all == Prepended(blocks, Chain(View(), number, ascending, max, left))
        decreases left
      {
        var h := numberToHash[number];
        assert number in left;
        if h !in store.headers {
          return None;
        }
        ChainNext(View(), number, ascending, max, left, blocks);
        blocks := blocks + [h];
        left := left - {number};
        max := max - 1;
        if max == 0 {
          return Some(blocks);
        }
        number := if ascending then number + 1 else number - 1;
      }
      assert blocks + [] == blocks;
      return Some(blocks);
    }

    method HandleRequest(p: Peer, q: Request) returns (raised: bool)
      modifies this
      ensures Handled(View(), raised) == InjectRequest(old(View()), p, q)
    {
      var h;
      if q.hash.Some? {
        h := q.hash.value;
      } else if q.number in numberToHash {
        h := numberToHash[q.number];
      } else {
        return false;
      }
      if h in store.blocks {
        if h !in hashToNumber {
          return true;
        }
        var blocks := CollectChain(hashToNumber[h], q.ascending, q.maxBlocks);
        if blocks.None? {
          return true;
        }
        events := events + [SendChain(p, blocks.value)];
        return false;
      }
      if h in pending {
        pending := pending[h := pending[h] + [p]];
        return false;
      }
      if h in cached {
        cached := cached[h := cached[h] + [p]];
        return false;
      }
      var provider := GetProvider(h);
      var unknown := IsUnknownBlock(h);
      if provider.None? && unknown {
        return false;
      }
      if provider.None? {
        cached := cached[h := [p]];
        return false;
      }
      pending := pending[h := [p]];
      peers := peers[provider.value := peers[provider.value].(busy := true)];
      events := events + [SendRequest(provider.value, h)];
      return false;
    }

    /** Looks for `h` among the blocks waited for and serves its waiters. */
    method ServeWaiters(m: map<Hash, seq<Peer>>, h: Hash) returns (done: bool)
      modifies this`events
      ensures events == old(events) + Serve(WaitersIn(m, h), h)
      ensures done <==> h in m
    {
      done := false;
      var todo := m.Keys;
      assert events + [] == events;
      while todo != {}
        invariant todo <= m.Keys && (done <==> h in m && h !in todo)
        invariant events == old(events) + if done then Serve(m[h], h) else []
      {
        var k :| k in todo;
        todo := todo - {k};
        if k == h {
          done := true;
          for i := 0 to |m[k]|
            invariant old(events) + Serve(m[h], h) == events + Serve(m[h][i..], h)
          {
            assert m[h][i..][1..] == m[h][i + 1..];
            assert events + ([SendBlock(m[h][i], h)] + Serve(m[h][i + 1..], h)) ==
                   events + [SendBlock(m[h][i], h)] + Serve(m[h][i + 1..], h);
            events := events + [SendBlock(m[k][i], h)];
          }
          assert events + [] == events;
        }
      }
    }

    /** Deletes keys in turn and stops at the first that is missing. */
    method Delete(m: map<Hash, seq<Peer>>, hs: seq<Hash>) returns (r: map<Hash, seq<Peer>>, ok: bool)
      ensures (r, ok) == DeleteAll(m, hs)
    {
      r := m;
      for i := 0 to |hs|
        invariant DeleteAll(m, hs) == DeleteAll(r, hs[i..])
      {
        assert hs[i..][1..] == hs[i + 1..];
        if hs[i] !in r {
          return r, false;
        }
        r := r - {hs[i]};
      }
      return r, true;
    }

    /** One block of a response: saved, then sent to all who wait for it. */
    method HandleBlock(b: Block) returns (wasPending: bool, wasCached: bool)
      modifies this`store, this`events
      ensures store == Save(old(store), b)
      ensures events == old(events) + (Serve(WaitersIn(pending, b.hash), b.hash) + Serve(WaitersIn(cached, b.hash), b.hash))
      ensures wasPending == (b.hash in pending) && wasCached == (b.hash in cached)
    {
      if b.hash !in store.blocks {
        store := Store(store.blocks + {b.hash}, if b.hasHeader then store.headers + {b.hash} else store.headers);
      }
      wasPending := ServeWaiters(pending, b.hash);
      wasCached := ServeWaiters(cached, b.hash);
      Regroup(old(events), Serve(WaitersIn(pending, b.hash), b.hash), Serve(WaitersIn(cached, b.hash), b.hash));
    }

    /** The loop over the blocks of a response. */
    method HandleBlocks(blocks: seq<Block>) returns (completedPending: seq<Hash>, completedCached: seq<Hash>)
      modifies this`store, this`events
      ensures store == SaveAll(old(store), blocks)
      ensures events == old(events) + ServeAll(View(), blocks)
      ensures completedPending == Completed(pending, blocks) && completedCached == Completed(cached, blocks)
    {
      completedPending, completedCached := [], [];
      ghost var c := View();
      for i := 0 to |blocks|
        invariant HandledUpTo(c, blocks, i, store, events, completedPending, completedCached)
      {
        var b := blocks[i];
        HandledNext(c, blocks, i, store, events, completedPending, completedCached);
        var wasPending, wasCached := HandleBlock(b);
        if wasPending {
          completedPending := completedPending + [b.hash];
        }
        if wasCached {
          completedCached := completedCached + [b.hash];
        }
      }
      assert events + [] == events;
      ServeSame(c, View(), blocks);
    }

    method HandleResponse(p: Peer, blocks: seq<Block>) returns (raised: bool)
      modifies this
      ensures Handled(View(), raised) == InjectResponse(old(View()), p, blocks)
    {
      if p !in peers {
        return true;
      }
      ghost var c := View();
      peers := peers[p := peers[p].(busy := false)];
      var completedPending, completedCached := HandleBlocks(blocks);
      ServeSame(c, View(), blocks);
      var ok;
      pending, ok := Delete(pending, completedPending);
      if !ok {
        return true;
      }
      cached, ok := Delete(cached, completedCached);
      return !ok;
    }
  }

  /** After the first `i` blocks of a response received in `c`: what is left to do completes the whole. */
  predicate HandledUpTo(c: Context, blocks: seq<Block>, i: nat, store: Store, events: seq<Event>,
                        pending: seq<Hash>, cached: seq<Hash>)
  {
    && i <= |blocks|
    && SaveAll(c.store, blocks) == SaveAll(store, blocks[i..])
    && c.events + ServeAll(c, blocks) == events + ServeAll(c, blocks[i..])
    && Completed(c.pending, blocks) == pending + Completed(c.pending, blocks[i..])
    && Completed(c.cached, blocks) == cached + Completed(c.cached, blocks[i..])
  }

  lemma HandledNext(c: Context, blocks: seq<Block>, i: nat, store: Store, events: seq<Event>,
                    pending: seq<Hash>, cached: seq<Hash>)
    requires i < |blocks| && HandledUpTo(c, blocks, i, store, events, pending, cached)
    ensures var h := blocks[i].hash;
            HandledUpTo(c, blocks, i + 1, Save(store, blocks[i]),
                        events + (Serve(WaitersIn(c.pending, h), h) + Serve(WaitersIn(c.cached, h), h)),
                        if h in c.pending then pending + [h] else pending,
                        if h in c.cached then cached + [h] else cached)
  {
    assert blocks[i..][1..] == blocks[i + 1..];
    ServeNext(c, blocks, i, events);
    CompletedNext(c.pending, blocks, i, pending);
    CompletedNext(c.cached, blocks, i, cached);
  }

  lemma Regroup(a: seq<Event>, b: seq<Event>, c: seq<Event>)
    ensures (a + b) + c == a + (b + c)
  {
  }

  lemma ServeNext(c: Context, blocks: seq<Block>, i: nat, sent: seq<Event>)
    requires i < |blocks|
    ensures var h := blocks[i].hash;
            sent + ServeAll(c, blocks[i..]) ==
            sent + (Serve(WaitersIn(c.pending, h), h) + Serve(WaitersIn(c.cached, h), h)) + ServeAll(c, blocks[i + 1..])
  {
    assert blocks[i..][1..] == blocks[i + 1..];
  }

  lemma CompletedNext(m: map<Hash, seq<Peer>>, blocks: seq<Block>, i: nat, done: seq<Hash>)
    requires i < |blocks|
    ensures done + Completed(m, blocks[i..]) ==
            (if blocks[i].hash in m then done + [blocks[i].hash] else done) + Completed(m, blocks[i + 1..])
  {
    assert blocks[i..][1..] == blocks[i + 1..];
  }

  lemma {:induction false} ServeSame(c: Context, d: Context, blocks: seq<Block>)
    requires c.pending == d.pending && c.cached == d.cached
    ensures ServeAll(c, blocks) == ServeAll(d, blocks)
    decreases |blocks|
  {
    if blocks != [] {
      ServeSame(c, d, blocks[1..]);
    }
  }

  predicate Passed(k: int, number: int, ascending: bool) {
    if ascending then k < number else k > number
  }

  lemma ChainNext(c: Context, number: int, ascending: bool, max: int, left: set<int>, blocks: seq<Hash>)
    requires number in c.numberToHash && number in left && c.numberToHash[number] in c.store.headers
    ensures var h := c.numberToHash[number]; var next := if ascending then number + 1 else number - 1;
            Prepended(blocks, Chain(c, number, ascending, max, left)) ==
            if max == 1 then Some(blocks + [h])
            else Prepended(blocks + [h], Chain(c, next, ascending, max - 1, left - {number}))
  {
    var h := c.numberToHash[number];
    var rest := Chain(c, if ascending then number + 1 else number - 1, ascending, max - 1, left - {number});
    if rest.Some? {
      assert blocks + ([h] + rest.value) == (blocks + [h]) + rest.value;
    }
  }

  function Prepended(blocks: seq<Hash>, r: Option<seq<Hash>>): Option<seq<Hash>> {
    if r.None? then None else Some(blocks + r.value)
  }

  // ----- what an answer from the store holds ----------------------------------------------------------------------

  function Height(number: int, ascending: bool, i: nat): int {
    if ascending then number + i else number - i
  }

  /** Block `i` of a chain from `number` on is numbered and was stored with its header. */
  predicate Sendable(c: Context, number: int, ascending: bool, i: nat) {
    var k := Height(number, ascending, i);
    k in c.numberToHash && c.numberToHash[k] in c.store.headers
  }

  /** A chain is the longest stretch of numbered blocks from `number` on, cut at `max` blocks; there is none
      exactly if one of these blocks is not stored with its header. */
  lemma {:induction false} ChainMeans(c: Context, number: int, ascending: bool, max: int, left: set<int>)
    requires forall k | k in c.numberToHash && k !in left :: Passed(k, number, ascending)
    ensures var r := Chain(c, number, ascending, max, left);
            r.Some? ==>
              && (forall i | 0 <= i < |r.value| :: Sendable(c, number, ascending, i) &&
                                                   r.value[i] == c.numberToHash[Height(number, ascending, i)])
              && (max > 0 ==> |r.value| <= max)
              && (|r.value| == max > 0 || Height(number, ascending, |r.value|) !in c.numberToHash)
    ensures Chain(c, number, ascending, max, left).None? ==>
              exists n: nat :: && (max > 0 ==> n < max) && !Sendable(c, number, ascending, n)
                               && Height(number, ascending, n) in c.numberToHash
                               && forall i: nat | i < n :: Sendable(c, number, ascending, i)
    decreases left
  {
    if number in c.numberToHash {
      assert number in left;
      assert Height(number, ascending, 0) == number;
      if c.numberToHash[number] !in c.store.headers {
        assert !Sendable(c, number, ascending, 0);
      } else if max != 1 {
        var next := Height(number, ascending, 1);
        ChainMeans(c, next, ascending, max - 1, left - {number});
        var rest := Chain(c, next, ascending, max - 1, left - {number});
        if rest.Some? {
          forall i: nat | i < |rest.value| + 1
            ensures Sendable(c, number, ascending, i)
            ensures ([c.numberToHash[number]] + rest.value)[i] == c.numberToHash[Height(number, ascending, i)]
          {
            if i > 0 {
              assert Sendable(c, next, ascending, i - 1);
            }
          }
        } else {
          var n: nat :| && (max > 1 ==> n < max - 1) && !Sendable(c, next, ascending, n)
                        && Height(next, ascending, n) in c.numberToHash
                        && forall i: nat | i < n :: Sendable(c, next, ascending, i);
          assert !Sendable(c, number, ascending, n + 1);
          forall i: nat | i < n + 1
            ensures Sendable(c, number, ascending, i)
          {
            if i > 0 {
              assert Sendable(c, next, ascending, i - 1);
            }
          }
        }
      }
    }
  }
}
