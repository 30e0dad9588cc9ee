/** How many responses a peer owes the block-sync filter: what was requested of it and not answered. */
module BlockSyncPeers {
  import opened Wrappers
  import opened BlockSync
  import opened BlockSyncRuns

  // ----- counting -------------------------------------------------------------------------------------------

  /** How many requests were sent to `p`, for whichever block. */
  function Sent(es: seq<Event>, p: Peer): nat {
    if es == [] then 0
    else
      var e := es[|es| - 1];
      Sent(es[..|es| - 1], p) + if e.SendRequest? && e.provider == p then 1 else 0
  }

  /** How many responses `p` gave. */
  function Replies(ss: seq<Step>, p: Peer): nat {
    if ss == [] then 0
    else
      var s := ss[|ss| - 1];
      Replies(ss[..|ss| - 1], p) + if s.Reply? && s.p == p then 1 else 0
  }

  /** The requests sent to `p` that it has not answered. */
  function Owes(ss: seq<Step>, p: Peer): int {
    Sent(Exec(ss).Emitted(), p) - Replies(ss, p)
  }

  lemma {:induction false} SentAppend(es: seq<Event>, fs: seq<Event>, p: Peer)
    ensures Sent(es + fs, p) == Sent(es, p) + Sent(fs, p)
    decreases |fs|
  {
    if fs == [] {
      assert es + fs == es;
    } else {
      assert (es + fs)[..|es + fs| - 1] == es + fs[..|fs| - 1];
      SentAppend(es, fs[..|fs| - 1], p);
    }
  }

  lemma {:induction false} SentNone(es: seq<Event>, p: Peer)
    requires forall e | e in es :: !e.SendRequest?
    ensures Sent(es, p) == 0
    decreases |es|
  {
    if es != [] {
      assert es[|es| - 1] in es;
      SentNone(es[..|es| - 1], p);
    }
  }

  // ----- one step -------------------------------------------------------------------------------------------

  /** The peer that a step sends a request to. */
  function Asked(w: World, s: Step): Option<Peer> {
    if s.Ask? then Provider(w.c, s.q) else None
  }

  lemma AskSends(w: World, s: Step, p: Peer)
    requires s.Ask?
    ensures Sent(Apply(w, s).Emitted(), p) == Sent(w.Emitted(), p) + if Asked(w, s) == Some(p) then 1 else 0
  {
    var d := InjectRequest(w.c, s.p, s.q).ctx;
    if Asked(w, s).Some? {
      RequestEffect(w.c, s.p, s.q);
      SentOneMore(w, d.events, SendRequest(Asked(w, s).value, Wanted(w.c, s.q).value), p);
    } else {
      QuietRequest(w.c, s.p, s.q);
      if d.events != w.c.events {
        var bs :| d.events == w.c.events + [SendChain(s.p, bs)];
        SentOneMore(w, d.events, SendChain(s.p, bs), p);
      }
    }
  }

  lemma SentOneMore(w: World, events: seq<Event>, e: Event, p: Peer)
    requires events == w.c.events + [e]
    ensures Sent(w.polled + events, p) == Sent(w.Emitted(), p) + if e.SendRequest? && e.provider == p then 1 else 0
  {
    assert w.polled + events == w.Emitted() + [e];
    assert (w.Emitted() + [e])[..|w.Emitted()|] == w.Emitted();
  }

  lemma ReplySends(w: World, s: Step, p: Peer)
    requires s.Reply? && Legal(w, s)
    ensures Sent(Apply(w, s).Emitted(), p) == Sent(w.Emitted(), p)
  {
    if s.p in w.c.peers {
      ResponseRaisesIff(w.c, s.p, s.blocks);
      ResponseEffect(w.c, s.p, s.blocks);
      var es := ServeAll(w.c, s.blocks);
      assert Apply(w, s).Emitted() == w.Emitted() + es;
      ServeAllOnly(w.c, s.blocks);
      SentAppend(w.Emitted(), es, p);
      SentNone(es, p);
    }
  }

  lemma StepSends(w: World, s: Step, p: Peer)
    requires Legal(w, s)
    ensures Sent(Apply(w, s).Emitted(), p) == Sent(w.Emitted(), p) + if Asked(w, s) == Some(p) then 1 else 0
  {
    if s.Ask? {
      AskSends(w, s, p);
    } else if s.Reply? {
      ReplySends(w, s, p);
    } else {
      assert Apply(w, s).Emitted() == w.Emitted();
    }
  }

  predicate Busy(w: World, p: Peer) {
    p in w.c.peers && w.c.peers[p].busy
  }

  lemma AskMarks(w: World, s: Step, p: Peer)
    requires s.Ask?
    ensures p in Apply(w, s).c.peers <==> p in w.c.peers
    ensures Busy(Apply(w, s), p) <==> Busy(w, p) || Asked(w, s) == Some(p)
    ensures Asked(w, s) == Some(p) ==> p in w.c.peers && !Busy(w, p)
  {
    RequestEffect(w.c, s.p, s.q);
  }

  /** Who is registered, and who is marked busy, after a step. */
  lemma StepMarks(w: World, s: Step, p: Peer)
    requires Legal(w, s)
    ensures var v := Apply(w, s);
            && (p in v.c.peers <==> s == Join(p) || (p in w.c.peers && s != Leave(p)))
            && (p in v.c.peers ==>
                  (Busy(v, p) <==> s != Join(p) && !(s.Reply? && s.p == p) && (Busy(w, p) || Asked(w, s) == Some(p))))
            && (Asked(w, s) == Some(p) ==> p in w.c.peers && !Busy(w, p))
  {
    if s.Ask? {
      AskMarks(w, s, p);
    } else if s.Reply? && s.p in w.c.peers {
      ResponseRaisesIff(w.c, s.p, s.blocks);
      ResponseEffect(w.c, s.p, s.blocks);
    }
  }

  lemma OwesNext(ss: seq<Step>, s: Step, p: Peer)
    requires Legal(Exec(ss), s)
    ensures Owes(ss + [s], p) == Owes(ss, p) + (if Asked(Exec(ss), s) == Some(p) then 1 else 0)
                                             - (if s.Reply? && s.p == p then 1 else 0)
  {
    RunSnoc(ss, s);
    StepSends(Exec(ss), s, p);
    assert (ss + [s])[..|ss|] == ss;
  }

  // ----- every run ------------------------------------------------------------------------------------------

  /** Peers only answer what they were asked. */
  predicate Solicited(ss: seq<Step>)
    decreases |ss|
  {
    ss == [] || (var before, s := ss[..|ss| - 1], ss[|ss| - 1];
                 Solicited(before) && (s.Reply? ==> Owes(before, s.p) > 0))
  }

  /** Since `p` last owed nothing it was registered anew, while it owed something. */
  predicate Rejoined(ss: seq<Step>, p: Peer)
    decreases |ss|
  {
    ss != [] && Owes(ss, p) > 0 && (ss[|ss| - 1] == Join(p) || Rejoined(ss[..|ss| - 1], p))
  }

  /** A registered peer owes what its busy mark says, and more exactly if it rejoined while owing. */
  predicate Tallied(ss: seq<Step>, p: Peer) {
    && Owes(ss, p) >= 0 && (!Rejoined(ss, p) ==> Owes(ss, p) <= 1)
    && (p in Exec(ss).c.peers ==>
          var mark := if Busy(Exec(ss), p) then 1 else 0;
          Owes(ss, p) >= mark && (Rejoined(ss, p) <==> Owes(ss, p) > mark))
  }

  lemma TalliedNext(ss: seq<Step>, s: Step, p: Peer)
    requires Legal(Exec(ss), s) && Tallied(ss, p) && (s.Reply? ==> Owes(ss, s.p) > 0)
    ensures Tallied(ss + [s], p)
  {
    RunSnoc(ss, s);
    OwesNext(ss, s, p);
    StepMarks(Exec(ss), s, p);
    assert (ss + [s])[..|ss|] == ss;
    assert Rejoined(ss + [s], p) <==> Owes(ss + [s], p) > 0 && (s == Join(p) || Rejoined(ss, p));
  }

  lemma {:induction false} RunTallied(ss: seq<Step>, p: Peer)
    requires LegalRun(ss) && Solicited(ss)
    ensures Tallied(ss, p)
    decreases |ss|
  {
    if ss == [] {
      assert START.Emitted() == [];
    } else {
      var before, s := ss[..|ss| - 1], ss[|ss| - 1];
      RunTallied(before, p);
      TalliedNext(before, s, p);
      assert before + [s] == ss;
    }
  }

  /** `p` is never registered anew while it owes something. */
  predicate JoinsClear(ss: seq<Step>, p: Peer)
    decreases |ss|
  {
    ss == [] || (var before, s := ss[..|ss| - 1], ss[|ss| - 1];
                 JoinsClear(before, p) && (s == Join(p) ==> Owes(before, p) <= 0))
  }

  lemma {:induction false} ClearNotRejoined(ss: seq<Step>, p: Peer)
    requires LegalRun(ss) && JoinsClear(ss, p)
    ensures !Rejoined(ss, p)
    decreases |ss|
  {
    if ss != [] {
      var before, s := ss[..|ss| - 1], ss[|ss| - 1];
      ClearNotRejoined(before, p);
      OwesNext(before, s, p);
      assert before + [s] == ss;
    }
  }

  /** In every run in which peers only answer what they were asked: a peer that is not registered anew
      while it owes a response has at most one unanswered request, and while it is registered it is
      busy exactly if it has one. */
  lemma OwesAtMostOne(ss: seq<Step>, p: Peer)
    requires LegalRun(ss) && Solicited(ss) && JoinsClear(ss, p)
    ensures 0 <= Owes(ss, p) <= 1
    ensures p in Exec(ss).c.peers ==> (Busy(Exec(ss), p) <==> Owes(ss, p) == 1)
  {
    RunTallied(ss, p);
    ClearNotRejoined(ss, p);
  }

  /** Whenever a request is sent to a peer: it owes an earlier response exactly if it rejoined while owing. */
  lemma SecondRequestIff(ss: seq<Step>, s: Step, p: Peer)
    requires LegalRun(ss) && Solicited(ss) && Legal(Exec(ss), s) && Asked(Exec(ss), s) == Some(p)
    ensures Owes(ss + [s], p) >= 2 <==> Rejoined(ss, p)
  {
    RunTallied(ss, p);
    OwesNext(ss, s, p);
    StepMarks(Exec(ss), s, p);
  }

  /** Nobody knows `h`, waits for it or has stored it. */
  predicate New(c: Context, h: Hash) {
    Unknown(c, h) && h !in c.pending && h !in c.cached && h !in c.store.blocks
  }

  lemma OnlyKnower(w: World, p: Peer, n: int, h: Hash, q: Request)
    requires OrderLists(w.c) && p in w.c.peers && New(w.c, h) && q.hash == Some(h)
    ensures var v := Apply(w, Announced(p, n, h));
            Asked(v, Ask(p, q)) == (if Busy(w, p) then None else Some(p)) && OrderLists(v.c)
  {
    var v := Apply(w, Announced(p, n, h));
    var r := FirstEligible(v.c, v.c.order, h);
    assert Eligible(v.c, p, h) <==> !Busy(w, p);
    assert p in v.c.order;
    assert r.Some? ==> r.value == p;
  }

  /** After every such run: let a registered peer announce a new block and ask for it. It then has two or
      more unanswered requests exactly if it rejoined while owing. */
  lemma OwesTwoIff(ss: seq<Step>, p: Peer, n: int, h: Hash, q: Request)
    requires LegalRun(ss) && Solicited(ss) && p in Exec(ss).c.peers && New(Exec(ss).c, h) && q.hash == Some(h)
    ensures Owes(ss + [Announced(p, n, h)] + [Ask(p, q)], p) >= 2 <==> Rejoined(ss, p)
  {
    var w := Exec(ss);
    RunKeeps(ss);
    RunTallied(ss, p);
    RunSnoc(ss, Announced(p, n, h));
    OwesNext(ss, Announced(p, n, h), p);
    OnlyKnower(w, p, n, h, q);
    OwesNext(ss + [Announced(p, n, h)], Ask(p, q), p);
  }

  /** In every run, a registered peer that owes a response can leave and rejoin, which changes nothing but
      what is known of it. */
  lemma Rejoins(ss: seq<Step>, p: Peer)
    requires LegalRun(ss) && Solicited(ss) && p in Exec(ss).c.peers && Owes(ss, p) > 0
    ensures var tt := ss + [Leave(p)] + [Join(p)]; var c, d := Exec(ss).c, Exec(tt).c;
            && LegalRun(tt) && Solicited(tt) && Rejoined(tt, p)
            && d.pending == c.pending && d.cached == c.cached && d.store == c.store
            && d.peers == c.peers[p := PeerContext({}, false)]
  {
    Extend(ss, Leave(p), p);
    Extend(ss + [Leave(p)], Join(p), p);
  }

  /** A peer that leaves and rejoins before it answers is sent a second request: after every run with a free
      peer, and for any two new blocks. */
  lemma LeaveAndRejoin(ss: seq<Step>, p: Peer, q: Request, h: Hash, r: Request, g: Hash)
    requires LegalRun(ss) && Solicited(ss) && p in Exec(ss).c.peers && !Busy(Exec(ss), p)
    requires New(Exec(ss).c, h) && New(Exec(ss).c, g) && g != h && q.hash == Some(h) && r.hash == Some(g)
    ensures var tt := ss + [Announced(p, 1, h)] + [Ask(p, q)] + [Leave(p)] + [Join(p)];
            && LegalRun(tt) && Solicited(tt) && p in Exec(tt).c.peers && Rejoined(tt, p)
            && Owes(tt + [Announced(p, 2, g)] + [Ask(p, r)], p) >= 2
  {
    var mid := ss + [Announced(p, 1, h)] + [Ask(p, q)];
    RunKeeps(ss);
    RunTallied(ss, p);
    FirstRequest(ss, p, q, h);
    Rejoins(mid, p);
    StillNew(Exec(ss).c, Exec(mid).c, Exec(mid + [Leave(p)] + [Join(p)]).c, p, h, g);
    OwesTwoIff(mid + [Leave(p)] + [Join(p)], p, 2, g, r);
  }

  lemma StillNew(c: Context, d: Context, e: Context, p: Peer, h: Hash, g: Hash)
    requires New(c, g) && g != h && d.pending == c.pending[h := [p]] && d.cached == c.cached && d.store == c.store
    requires d.peers.Keys == c.peers.Keys && forall r | r in c.peers && r != p :: d.peers[r] == c.peers[r]
    requires e.pending == d.pending && e.cached == d.cached && e.store == d.store
    requires e.peers == d.peers[p := PeerContext({}, false)]
    ensures New(e, g)
  {
  }

  /** There is such a run. */
  lemma OneJoins(p: Peer, h: Hash)
    ensures LegalRun([Join(p)]) && Solicited([Join(p)]) && New(Exec([Join(p)]).c, h)
    ensures p in Exec([Join(p)]).c.peers && !Busy(Exec([Join(p)]), p)
  {
    assert [Join(p)] == [] + [Join(p)];
    Extend([], Join(p), p);
  }

  /** A free peer that announces a new block and asks for it is sent a request. */
  lemma FirstRequest(ss: seq<Step>, p: Peer, q: Request, h: Hash)
    requires LegalRun(ss) && Solicited(ss) && OrderLists(Exec(ss).c) && p in Exec(ss).c.peers && !Busy(Exec(ss), p)
    requires New(Exec(ss).c, h) && q.hash == Some(h)
    ensures var tt := ss + [Announced(p, 1, h)] + [Ask(p, q)]; var c, d := Exec(ss).c, Exec(tt).c;
            && LegalRun(tt) && Solicited(tt) && Owes(tt, p) == Owes(ss, p) + 1
            && d.pending == c.pending[h := [p]] && d.cached == c.cached && d.store == c.store
            && d.peers.Keys == c.peers.Keys
            && forall r | r in c.peers && r != p :: d.peers[r] == c.peers[r]
  {
    OnlyKnower(Exec(ss), p, 1, h, q);
    NewBlockRequested(Exec(ss), p, q, h);
    Extend(ss, Announced(p, 1, h), p);
    Extend(ss + [Announced(p, 1, h)], Ask(p, q), p);
  }

  lemma NewBlockRequested(w: World, p: Peer, q: Request, h: Hash)
    requires p in w.c.peers && New(w.c, h) && q.hash == Some(h)
    requires Asked(Apply(w, Announced(p, 1, h)), Ask(p, q)) == Some(p)
    ensures var c, d := w.c, Apply(Apply(w, Announced(p, 1, h)), Ask(p, q)).c;
            && d.pending == c.pending[h := [p]] && d.cached == c.cached && d.store == c.store
            && d.peers.Keys == c.peers.Keys
            && forall r | r in c.peers && r != p :: d.peers[r] == c.peers[r]
  {
  }

  lemma Extend(ss: seq<Step>, s: Step, p: Peer)
    requires LegalRun(ss) && Solicited(ss) && !s.Reply?
    ensures LegalRun(ss + [s]) && Solicited(ss + [s]) && Exec(ss + [s]) == Apply(Exec(ss), s)
    ensures Owes(ss + [s], p) == Owes(ss, p) + if Asked(Exec(ss), s) == Some(p) then 1 else 0
    ensures Rejoined(ss + [s], p) <==> Owes(ss + [s], p) > 0 && (s == Join(p) || Rejoined(ss, p))
  {
    RunSnoc(ss, s);
    OwesNext(ss, s, p);
    assert (ss + [s])[..|ss|] == ss;
  }

  // ----- who knows a block, and who is asked --------------------------------------------------------------------

  /** Whether the last of the run's steps about `p` registered it. */
  predicate Registered(ss: seq<Step>, p: Peer)
    decreases |ss|
  {
    ss != [] && (ss[|ss| - 1] == Join(p) || (ss[|ss| - 1] != Leave(p) && Registered(ss[..|ss| - 1], p)))
  }

  /** Whether `p` announced block `h` since it was last registered. */
  predicate Announcer(ss: seq<Step>, p: Peer, h: Hash)
    decreases |ss|
  {
    ss != [] && (var before, s := ss[..|ss| - 1], ss[|ss| - 1];
                 && s != Join(p)
                 && ((s.Announced? && s.p == p && s.h == h && Registered(before, p)) || Announcer(before, p, h)))
  }

  /** The number of the step that began the registration of `p`. */
  function Since(ss: seq<Step>, p: Peer): (n: nat)
    ensures n <= |ss| && (ss != [] ==> n < |ss|)
    decreases |ss|
  {
    if ss == [] then 0
    else
      var before, s := ss[..|ss| - 1], ss[|ss| - 1];
      if s == Join(p) && !Registered(before, p) then |before| else Since(before, p)
  }

  predicate Ordered(ss: seq<Step>, order: seq<Peer>) {
    forall a, b | 0 <= a < b < |order| :: Since(ss, order[a]) < Since(ss, order[b])
  }

  lemma {:induction false} OmitOrdered(ss: seq<Step>, order: seq<Peer>, p: Peer)
    requires Ordered(ss, order)
    ensures Ordered(ss, Omit(order, p))
    decreases |order|
  {
    if order != [] {
      var rest := Omit(order[1..], p);
      OmitOrdered(ss, order[1..], p);
      forall b | 0 <= b < |rest|
        ensures Since(ss, order[0]) < Since(ss, rest[b])
      {
        OmitMembers(order[1..], p, rest[b]);
        var k :| 0 <= k < |order[1..]| && order[1..][k] == rest[b];
        assert order[k + 1] == rest[b];
      }
    }
  }

  lemma SameOrder(ss: seq<Step>, s: Step, order: seq<Peer>)
    requires Ordered(ss, order) && forall p | p in order :: s == Join(p) ==> Registered(ss, p)
    ensures Ordered(ss + [s], order)
  {
    assert (ss + [s])[..|ss|] == ss;
    assert forall p | p in order :: Since(ss + [s], p) == Since(ss, p);
  }

  /** What a step does to the order of the registered peers and to what they know. */
  lemma StepPeers(w: World, s: Step, p: Peer, h: Hash)
    requires Legal(w, s)
    ensures var v := Apply(w, s);
            && v.c.order == (if s.Join? && s.p !in w.c.peers then w.c.order + [s.p]
                             else if s.Leave? && s.p in w.c.peers then Omit(w.c.order, s.p) else w.c.order)
            && (p in v.c.peers ==>
                  (h in v.c.peers[p].known <==>
                   && s != Join(p) && p in w.c.peers
                   && (h in w.c.peers[p].known || (s.Announced? && s.p == p && s.h == h))))
  {
    if s.Ask? {
      RequestEffect(w.c, s.p, s.q);
    } else if s.Reply? && s.p in w.c.peers {
      ResponseRaisesIff(w.c, s.p, s.blocks);
      ResponseEffect(w.c, s.p, s.blocks);
    }
  }

  /** For every run: a peer is registered if it joined and did not leave since, and is then taken to know
      exactly the blocks it announced since it joined. */
  lemma {:induction false} PeersByHistory(ss: seq<Step>, p: Peer, h: Hash)
    requires LegalRun(ss)
    ensures var c := Exec(ss).c;
            && (p in c.peers <==> Registered(ss, p))
            && (p in c.peers ==> (h in c.peers[p].known <==> Announcer(ss, p, h)))
    decreases |ss|
  {
    if ss != [] {
      var before, s := ss[..|ss| - 1], ss[|ss| - 1];
      PeersByHistory(before, p, h);
      StepMarks(Exec(before), s, p);
      StepPeers(Exec(before), s, p, h);
    }
  }

  /** For every run: peers are looked at in the order of their registration. */
  lemma {:induction false} OrderByHistory(ss: seq<Step>)
    requires LegalRun(ss)
    ensures Ordered(ss, Exec(ss).c.order)
    decreases |ss|
  {
    if ss != [] {
      var before, s := ss[..|ss| - 1], ss[|ss| - 1];
      var w := Exec(before);
      OrderByHistory(before);
      RunKeeps(before);
      StepPeers(w, s, 0, 0);
      assert before + [s] == ss;
      forall p | p in w.c.order
        ensures Registered(before, p)
      {
        PeersByHistory(before, p, 0);
      }
      SameOrder(before, s, w.c.order);
      if s.Leave? {
        OmitOrdered(ss, w.c.order, s.p);
      } else if s.Join? && s.p !in w.c.peers {
        PeersByHistory(before, s.p, 0);
        JoinsLast(before, s, w.c.order);
      }
    }
  }

  lemma JoinsLast(ss: seq<Step>, s: Step, order: seq<Peer>)
    requires s.Join? && !Registered(ss, s.p) && Ordered(ss + [s], order) && forall p | p in order :: Registered(ss, p)
    ensures Ordered(ss + [s], order + [s.p])
  {
    assert (ss + [s])[..|ss|] == ss;
    forall a | 0 <= a < |order|
      ensures Since(ss + [s], order[a]) < Since(ss + [s], s.p)
    {
      assert order[a] in order && Since(ss + [s], order[a]) == Since(ss, order[a]);
    }
  }

  /** After every run: a request that is sent on goes to a registered peer that announced the block since it
      was registered and is not busy; of all such peers, to the one registered longest. */
  lemma ProviderRegisteredLongest(ss: seq<Step>, q: Request, p: Peer, r: Peer)
    requires LegalRun(ss) && Provider(Exec(ss).c, q) == Some(p)
    ensures var h := Wanted(Exec(ss).c, q).value;
            && Registered(ss, p) && Announcer(ss, p, h) && !Busy(Exec(ss), p)
            && (r != p && Registered(ss, r) && Announcer(ss, r, h) && !Busy(Exec(ss), r) ==> Since(ss, p) < Since(ss, r))
  {
    var c := Exec(ss).c;
    var h := Wanted(c, q).value;
    RunKeeps(ss);
    OrderByHistory(ss);
    PeersByHistory(ss, p, h);
    PeersByHistory(ss, r, h);
    if Eligible(c, r, h) && r != p {
      FoundBefore(c, c.order, h, p, r, ss);
    }
  }

  lemma FoundBefore(c: Context, order: seq<Peer>, h: Hash, p: Peer, r: Peer, ss: seq<Step>)
    requires FirstEligible(c, order, h) == Some(p) && r in order && Eligible(c, r, h) && r != p && Ordered(ss, order)
    ensures Since(ss, p) < Since(ss, r)
  {
    var k :| 0 <= k < |order| && order[k] == p && forall j | 0 <= j < k :: !Eligible(c, order[j], h);
    var l :| 0 <= l < |order| && order[l] == r;
    assert k < l;
  }
}
