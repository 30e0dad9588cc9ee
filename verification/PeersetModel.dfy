/** The peer set manager as a state machine on values: every operation maps a state to the
    next state and to the messages it queues. */
module PeersetModel {
  import opened Reputation
  import opened PeersState

  const NANOS := 1_000_000_000
  const FORGET_AFTER := 3600 * NANOS

  datatype Reserved = Reserved(nodes: set<PeerId>, only: bool)

  datatype Message =
    | Connect(set_: nat, peer: PeerId)
    | Drop(set_: nat, peer: PeerId)
    | Accept(index: nat)
    | Reject(index: nat)

  datatype Manager = Manager(data: Peers, reserved: seq<Reserved>, created: Instant, latest: Instant) {
    function NumSets(): nat {
      |data.sets|
    }

    /** Whole seconds between creation and the last time update. */
    function Seconds(t: Instant): nat
      requires created <= t
    {
      (t - created) / NANOS
    }
  }

  datatype Outcome = Outcome(next: Manager, out: seq<Message>)

  // ----- passage of time ---------------------------------------------------------------

  function Expire(m: Membership, now: Instant): Membership {
    if m.NotConnected? && m.lastConnected + FORGET_AFTER < now then NotMember else m
  }

  function ExpireAll(ms: seq<Membership>, now: Instant): (r: seq<Membership>)
    ensures |r| == |ms|
  {
    seq(|ms|, i requires 0 <= i < |ms| => Expire(ms[i], now))
  }

  /** One second of decay for one node: a score that reached zero also ends stale memberships. */
  function TickNode(n: Node, now: Instant): Node {
    var r := Tick(n.reputation);
    if r != 0 then n.(reputation := r) else Node(ExpireAll(n.sets, now), 0)
  }

  function TickAll(nodes: map<PeerId, Node>, now: Instant): map<PeerId, Node> {
    map p | p in nodes && !TickNode(nodes[p], now).Blank() :: TickNode(nodes[p], now)
  }

  function TickAllTimes(nodes: map<PeerId, Node>, now: Instant, n: nat): map<PeerId, Node>
    decreases n
  {
    if n == 0 then nodes else TickAllTimes(TickAll(nodes, now), now, n - 1)
  }

  function Age(m: Manager, now: Instant): Manager
    requires m.created <= m.latest <= now
  {
    var secs := m.Seconds(now) - m.Seconds(m.latest);
    SecondsMonotone(m, m.latest, now);
    m.(latest := now, data := m.data.(nodes := TickAllTimes(m.data.nodes, now, secs)))
  }

  lemma SecondsMonotone(m: Manager, s: Instant, t: Instant)
    requires m.created <= s <= t
    ensures m.Seconds(s) <= m.Seconds(t)
  {
  }

  function Elapsed(m: Manager, now: Instant): nat
    requires m.created <= m.latest <= now
  {
    SecondsMonotone(m, m.latest, now);
    m.Seconds(now) - m.Seconds(m.latest)
  }

  // ----- operations --------------------------------------------------------------------

  /** Disconnects `p` from set `i`, if connected. */
  function Cut(d: Peers, p: PeerId, i: nat, stamp: Instant): (e: Peers)
    requires d.Shaped() && i < |d.sets|
    ensures e.Shaped() && |e.sets| == |d.sets|
  {
    if d.Connected(p, i) then d.Move(p, i, NotConnected(stamp)) else d
  }

  function CutAll(d: Peers, i: nat, order: seq<PeerId>, stamp: Instant): (e: Peers)
    requires d.Shaped() && i < |d.sets|
    ensures e.Shaped() && |e.sets| == |d.sets|
    decreases |order|
  {
    if order == [] then d else CutAll(Cut(d, order[0], i, stamp), i, order[1..], stamp)
  }

  function DropAll(i: nat, order: seq<PeerId>): seq<Message> {
    seq(|order|, k requires 0 <= k < |order| => Drop(i, order[k]))
  }

  /** Disconnects `p` from the first `k` sets. */
  function CutBelow(d: Peers, p: PeerId, k: nat, stamp: Instant): (e: Peers)
    requires d.Shaped() && k <= |d.sets|
    ensures e.Shaped() && |e.sets| == |d.sets|
  {
    if k == 0 then d else Cut(CutBelow(d, p, k - 1, stamp), p, k - 1, stamp)
  }

  function DropsBelow(d: Peers, p: PeerId, k: nat): seq<Message> {
    if k == 0 then [] else
    DropsBelow(d, p, k - 1) + if d.Connected(p, k - 1) then [Drop(k - 1, p)] else []
  }

  function AddReserved(m: Manager, i: nat, p: PeerId): Outcome
    requires i < m.NumSets() == |m.reserved|
  {
    if p in m.reserved[i].nodes then Outcome(m, [])
    else
      Outcome(m.(reserved := m.reserved[i := m.reserved[i].(nodes := m.reserved[i].nodes + {p})],
                 data := m.data.SetNoSlot(p, i, true)), [])
  }

  function RemoveReserved(m: Manager, i: nat, p: PeerId, stamp: Instant): Outcome
    requires m.data.Shaped() && i < m.NumSets() == |m.reserved|
  {
    if p !in m.reserved[i].nodes then Outcome(m, [])
    else
      var n := m.(reserved := m.reserved[i := m.reserved[i].(nodes := m.reserved[i].nodes - {p})],
                  data := m.data.SetNoSlot(p, i, false));
      if m.reserved[i].only && n.data.Connected(p, i)
      then Outcome(n.(data := Cut(n.data, p, i, stamp)), [Drop(i, p)])
      else Outcome(n, [])
  }

  function SetReservedOnly(m: Manager, i: nat, only: bool, order: seq<PeerId>, stamp: Instant): Outcome
    requires m.data.Shaped() && i < m.NumSets() == |m.reserved|
  {
    var n := m.(reserved := m.reserved[i := m.reserved[i].(only := only)]);
    if only then Outcome(n.(data := CutAll(n.data, i, order, stamp)), DropAll(i, order))
    else Outcome(n, [])
  }

  function AddToSet(m: Manager, i: nat, p: PeerId, stamp: Instant): Outcome
    requires m.data.Shaped() && i < m.NumSets()
  {
    if m.data.Status(p, i) == NotMember
    then Outcome(m.(data := m.data.Discover(p, i, stamp)), [])
    else Outcome(m, [])
  }

  function RemoveFromSet(m: Manager, i: nat, p: PeerId): Outcome
    requires m.data.Shaped() && i < m.NumSets() == |m.reserved|
  {
    if p in m.reserved[i].nodes || m.data.Status(p, i) == NotMember then Outcome(m, [])
    else
      Outcome(m.(data := m.data.Forget(p, i)),
              if m.data.Connected(p, i) then [Drop(i, p)] else [])
  }

  /** The rest of a report, once scores are up to date. */
  function Judge(m: Manager, p: PeerId, change: int, stamp: Instant): Outcome
    requires m.data.Shaped()
  {
    var r := SaturatingAdd(m.data.Score(p), change);
    var d := m.data.SetScore(p, r);
    if r >= BANNED_THRESHOLD then Outcome(m.(data := d), [])
    else Outcome(m.(data := CutBelow(d, p, |d.sets|, stamp)), DropsBelow(d, p, |d.sets|))
  }

  function QueryReputation(m: Manager, p: PeerId): Outcome {
    Outcome(m.(data := m.data.SetScore(p, m.data.Score(p))), [])
  }

  function ConnectTo(m: Manager, p: PeerId): Outcome {
    Outcome(m, [Connect(0, p)])
  }

  /** Answers an incoming connection, once scores are up to date. */
  function Admit(m: Manager, i: nat, p: PeerId, index: nat, stamp: Instant): Outcome
    requires m.data.Shaped() && i < m.NumSets() == |m.reserved|
  {
    if m.reserved[i].only && p !in m.reserved[i].nodes then Outcome(m, [Reject(index)])
    else if m.data.Connected(p, i) then Outcome(m, [])
    else
      var d := m.data.Discover(p, i, stamp);
      if d.Score(p) >= BANNED_THRESHOLD && d.CanAccept(p, i)
      then Outcome(m.(data := d.Move(p, i, In)), [Accept(index)])
      else Outcome(m.(data := d), [Reject(index)])
  }

  /** Takes note of a lost connection, once scores are up to date. */
  function Lose(m: Manager, i: nat, p: PeerId, refused: bool, stamp: Instant): Outcome
    requires m.data.Shaped() && i < m.NumSets() == |m.reserved|
  {
    var n :=
      if m.data.Connected(p, i) then
        var d := m.data.SetScore(p, SaturatingAdd(m.data.Score(p), DISCONNECT_REPUTATION_CHANGE));
        m.(data := Cut(d, p, i, stamp))
      else m;
    if refused then RemoveFromSet(n, i, p) else Outcome(n, [])
  }

  lemma {:induction false} TickAllTimesShaped(nodes: map<PeerId, Node>, now: Instant, n: nat, k: nat)
    requires forall p | p in nodes :: |nodes[p].sets| == k
    ensures var aged := TickAllTimes(nodes, now, n); forall p | p in aged :: |aged[p].sets| == k
    decreases n
  {
    if n > 0 {
      TickAllTimesShaped(TickAll(nodes, now), now, n - 1, k);
      assert TickAllTimes(nodes, now, n) == TickAllTimes(TickAll(nodes, now), now, n - 1);
    }
  }

  lemma AgeShaped(m: Manager, now: Instant)
    requires m.data.Shaped() && m.created <= m.latest <= now
    ensures Age(m, now).data.Shaped()
  {
    TickAllTimesShaped(m.data.nodes, now, Elapsed(m, now), |m.data.sets|);
    assert Age(m, now).data.nodes == TickAllTimes(m.data.nodes, now, Elapsed(m, now));
  }
}
