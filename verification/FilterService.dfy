/** An interface's filter and the network service below it: how a response finds its request. */
module FilterService {
  type Peer = nat
  type RequestId = nat
  type Digest = nat
  type Channel = nat
  type Bytes = seq<bv8>

  // ----- the filter ---------------------------------------------------------------------------------

  /** What the executor asks the filter to do. */
  datatype ExecutorEvent =
    | Connect(peer: Peer)
    | Forward(peers: seq<Peer>)
    | SendRequest(peer: Peer, digest: Digest)
    | SendResponse(peer: Peer, payload: Bytes)

  /** What the sinks send down to the network service. */
  datatype Command =
    | Notify(peer: Peer)
    | Ask(peer: Peer, digest: Digest)
    | Respond(peer: Peer, id: RequestId, payload: Bytes)

  datatype Filter = Filter(peers: set<Peer>, inbound: map<Peer, RequestId>)

  /** The filter after some events, the commands it sent, and whether it got through all of them. */
  datatype Processed = Processed(f: Filter, out: seq<Command>, ok: bool)

  function NotifyAll(f: Filter, ps: seq<Peer>): seq<Command> {
    if ps == [] then []
    else (if ps[0] in f.peers then [Notify(ps[0])] else []) + NotifyAll(f, ps[1..])
  }

  /** One event. Asking or answering a peer that is not registered ends the processing; the request id
      the answer was for is gone by then. */
  function ProcessOne(f: Filter, e: ExecutorEvent): Processed {
    match e
    case Connect(_) => Processed(f, [], true)
    case Forward(ps) => Processed(f, NotifyAll(f, ps), true)
    case SendRequest(p, d) => if p in f.peers then Processed(f, [Ask(p, d)], true) else Processed(f, [], false)
    case SendResponse(p, payload) =>
      if p !in f.inbound then Processed(f, [], true)
      else
        var g := f.(inbound := f.inbound - {p});
        if p in f.peers then Processed(g, [Respond(p, f.inbound[p], payload)], true) else Processed(g, [], false)
  }

  function Process(f: Filter, es: seq<ExecutorEvent>): Processed
    decreases |es|
  {
    if es == [] then Processed(f, [], true)
    else
      var a := ProcessOne(f, es[0]);
      if !a.ok then a
      else
        var b := Process(a.f, es[1..]);
        Processed(b.f, a.out + b.out, b.ok)
  }

  lemma ProcessNext(f: Filter, es: seq<ExecutorEvent>, i: nat)
    requires i < |es|
    ensures var a := ProcessOne(f, es[i]); var b := Process(a.f, es[i + 1..]);
            Process(f, es[i..]) == if a.ok then Processed(b.f, a.out + b.out, b.ok) else a
  {
    assert es[i..][1..] == es[i + 1..];
  }

  lemma Regroup(a: seq<Command>, b: seq<Command>, c: seq<Command>)
    ensures a + (b + c) == (a + b) + c
  {
  }

  /** The executor either fails or yields events. */
  datatype Executed = Failed | Yields(events: seq<ExecutorEvent>)

  function AfterExecutor(f: Filter, x: Executed): Processed {
    if x.Failed? then Processed(f, [], false) else Process(f, x.events)
  }

  function RegisterPeer(f: Filter, p: Peer, x: Executed): Processed {
    if p in f.peers || x.Failed? then Processed(f, [], false)
    else Process(f.(peers := f.peers + {p}), x.events)
  }

  function UnregisterPeer(f: Filter, p: Peer, x: Executed): Processed {
    if p !in f.peers then Processed(f, [], false) else AfterExecutor(f.(peers := f.peers - {p}), x)
  }

  function InjectRequest(f: Filter, p: Peer, id: RequestId, x: Executed): Processed {
    AfterExecutor(f.(inbound := f.inbound[p := id]), x)
  }

  class FilterObject {
    var peers: set<Peer>
    var inbound: map<Peer, RequestId>
    var sent: seq<Command>

    function View(): Filter
      reads this
    {
      Filter(peers, inbound)
    }

    constructor ()
      ensures View() == Filter({}, map[]) && sent == []
    {
      peers, inbound, sent := {}, map[], [];
    }

    /** The loop over the executor's events, with its early exits. */
    method ProcessEvents(events: seq<ExecutorEvent>) returns (ok: bool)
      modifies this
      ensures var r := Process(old(View()), events);
              View() == r.f && sent == old(sent) + r.out && ok == r.ok
    {
      var i := 0;
      while i < |events|
        invariant 0 <= i <= |events|
        invariant var r := Process(old(View()), events); var rest := Process(View(), events[i..]);
                  r.f == rest.f && old(sent) + r.out == sent + rest.out && r.ok == rest.ok
      {
        ProcessNext(View(), events, i);
        ghost var before, log := View(), sent;
        match events[i] {
          case Connect(_) =>
          case Forward(ps) => ForwardTo(ps);
          case SendRequest(p, d) =>
            if p !in peers {
              return false;
            }
            sent := sent + [Ask(p, d)];
          case SendResponse(p, payload) =>
            if p in inbound {
              var id := inbound[p];
              inbound := inbound - {p};
              if p !in peers {
                return false;
              }
              sent := sent + [Respond(p, id, payload)];
            }
        }
        ghost var a := ProcessOne(before, events[i]);
        assert View() == a.f && sent == log + a.out && a.ok;
        Regroup(log, a.out, Process(a.f, events[i + 1..]).out);
        i := i + 1;
      }
      return true;
    }

    method ForwardTo(ps: seq<Peer>)
      modifies this`sent
      ensures sent == old(sent) + NotifyAll(View(), ps)
    {
      for i := 0 to |ps|
        invariant old(sent) + NotifyAll(View(), ps) == sent + NotifyAll(View(), ps[i..])
      {
        assert ps[i..][1..] == ps[i + 1..];
        ghost var rest := NotifyAll(View(), ps[i + 1..]);
        assert sent + ([Notify(ps[i])] + rest) == sent + [Notify(ps[i])] + rest;
        if ps[i] in peers {
          sent := sent + [Notify(ps[i])];
        }
      }
    }

    method OnRegisterPeer(p: Peer, x: Executed) returns (ok: bool)
      modifies this
      ensures var r := RegisterPeer(old(View()), p, x); View() == r.f && sent == old(sent) + r.out && ok == r.ok
    {
      if p in peers || x.Failed? {
        return false;
      }
      peers := peers + {p};
      ok := ProcessEvents(x.events);
    }

    method OnUnregisterPeer(p: Peer, x: Executed) returns (ok: bool)
      modifies this
      ensures var r := UnregisterPeer(old(View()), p, x); View() == r.f && sent == old(sent) + r.out && ok == r.ok
    {
      if p !in peers {
        return false;
      }
      peers := peers - {p};
      if x.Failed? {
        return false;
      }
      ok := ProcessEvents(x.events);
    }

    method OnInjectRequest(p: Peer, id: RequestId, x: Executed) returns (ok: bool)
      modifies this
      ensures var r := InjectRequest(old(View()), p, id, x); View() == r.f && sent == old(sent) + r.out && ok == r.ok
    {
      inbound := inbound[p := id];
      if x.Failed? {
        return false;
      }
      ok := ProcessEvents(x.events);
    }
  }

  // ----- the network service ---------------------------------------------------------------------------

  datatype Pending = Pending(digest: Digest, channel: Channel)

  datatype Service = Service(next: RequestId, pending: map<RequestId, Pending>, cached: map<Digest, Bytes>)

  /** What the service does to the outside. */
  datatype Output =
    | RequestReceived(peer: Peer, id: RequestId)
    | Answered(id: RequestId, channel: Channel, payload: Bytes)
    | FromCache(id: RequestId, digest: Digest, payload: Bytes)
    | FromNetwork(id: RequestId, digest: Digest)

  function OnRequest(s: Service, p: Peer, d: Digest, c: Channel): (Service, seq<Output>) {
    (s.(next := s.next + 1, pending := s.pending[s.next := Pending(d, c)]), [RequestReceived(p, s.next)])
  }

  function OnCommand(s: Service, c: Command): (Service, seq<Output>) {
    match c
    case Notify(_) => (s, [])
    case Ask(_, d) =>
      (s.(next := s.next + 1),
       [if d in s.cached then FromCache(s.next, d, s.cached[d]) else FromNetwork(s.next, d)])
    case Respond(_, id, payload) =>
      if id !in s.pending then (s, [])
      else
        var q := s.pending[id];
        (s.(pending := s.pending - {id}, cached := s.cached[q.digest := payload]), [Answered(id, q.channel, payload)])
  }

  class ServiceObject {
    var next: RequestId
    var pending: map<RequestId, Pending>
    var cached: map<Digest, Bytes>
    var outputs: seq<Output>

    function View(): Service
      reads this
    {
      Service(next, pending, cached)
    }

    constructor ()
      ensures View() == Service(0, map[], map[]) && outputs == []
    {
      next, pending, cached, outputs := 0, map[], map[], [];
    }

    method NextRequestId() returns (id: RequestId)
      modifies this`next
      ensures id == old(next) && next == old(next) + 1
    {
      id := next;
      next := next + 1;
    }

    method HandleRequest(p: Peer, d: Digest, c: Channel)
      modifies this
      ensures View() == OnRequest(old(View()), p, d, c).0 && outputs == old(outputs) + OnRequest(old(View()), p, d, c).1
    {
      var id := NextRequestId();
      outputs := outputs + [RequestReceived(p, id)];
      pending := pending[id := Pending(d, c)];
    }

    method HandleCommand(c: Command)
      modifies this
      ensures View() == OnCommand(old(View()), c).0 && outputs == old(outputs) + OnCommand(old(View()), c).1
    {
      match c
      case Notify(_) =>
      case Ask(_, d) =>
        var id := NextRequestId();
        if d in cached {
          outputs := outputs + [FromCache(id, d, cached[d])];
        } else {
          outputs := outputs + [FromNetwork(id, d)];
        }
      case Respond(_, id, payload) =>
        if id in pending {
          var q := pending[id];
          pending := pending - {id};
          cached := cached[q.digest := payload];
          outputs := outputs + [Answered(id, q.channel, payload)];
        }
    }
  }
}
