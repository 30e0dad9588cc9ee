# swarm-host: a verified model

This project models the in-memory core of swarm-host, a host that connects many network interfaces of a
Substrate node to programmable filters, and proves what that core keeps over every run.

- **Peer sets** (`Reputation`, `PeersState`, `PeersStorage`, `PeersetModel`, `PeersetAging`, `PeersetRuns`,
  `PeersetTheorems`, `PeersetEffects`, `PeersetManager`): slots, reserved nodes, reputations that decay with time,
  and the queue of Accept, Reject, Drop and Connect messages.
- **Notification substreams** (`InSubstream`, `NotifsHandler`, `NotifsRuns`, `NotifsPolling`): the handshake of an
  inbound substream, the per-protocol state machine, and the order of the events it delivers.
- **Requests and responses** (`RequestResponses`, `RequestResponsesRuns`, `Codec`, `FilterService`,
  `FilterServiceRuns`, `FilterServiceLosses`, `FilterServicePayloads`): reply channels, the one-request slot, the wire
  format, and how a filter's response finds its request through the service, or fails to.
- **Links** (`LinkGraph`, `Overseer`): the graph of linked interfaces and the fan-out of notifications along it.
- **Block sync** (`BlockSync`, `BlockSyncRuns`, `BlockSyncPeers`, `BlockSyncNumbers`, `BlockSyncWaiters`) and the
  **bounded recency set** (`LruHashSet`).

Each component has its operations as functions on values, the mutable object as a class whose methods (loops
included) are proved to compute those functions, and lemmas that hold for every sequence of operations. `Counting`
counts occurrences in sequences; `Wrappers` holds the option type. Clock readings, socket answers, libp2p events,
executor results and the order in which a hash table yields its entries are parameters, so the lemmas hold for all of
them.

In the lemmas about runs, what the environment must respect is a predicate `Legal` per step. For the handler it
says: a delivered substream request is answered at most once, and `Open` is sent only if every earlier `Open` has
had its result delivered and the latest delivered news is not that the protocol is open. For requests: libp2p does
not repeat an id within a protocol and finishes an accepted request once, and callers use each reply channel once.
For peer sets: clock readings do not go backwards and set numbers exist. For block sync: a response of a registered
peer does not raise.

## Where the code differs from what is said about it

- `connect_to_peer` only queues a Connect message and `alloc_slots` does nothing, although Connect is documented as
  making the manager regard the peer as connected from then on
  (src/backend/substrate/network/peerset/mod.rs:207-208, 572-580). So no run creates an outgoing
  connection (`PeersetTheorems.SlotsBounded`).
- `dropped` applies its penalty without looking at the peer's other sets, so a banned peer can stay connected;
  `PeersetTheorems.DroppedKeepsBansIff` says exactly when.
- An open protocol without inbound substream is described as idle
  (src/backend/substrate/network/protocol/notifications/handler.rs:216-221), but a poll that gets to it reports it and
  goes no further, so no later protocol is polled until it is closed or given an inbound substream
  (`NotifsPolling.DeafStarvesOthers`; `NotifsPolling.DeafLasts` says exactly when it ends, `NotifsPolling.PollMeans`
  which protocols a poll gets to).
- Removing a graph edge renumbers the last one, and the overseer's table of edge numbers does not follow, so an
  unlink can miss or hit another link; `Overseer.UnlinkRightIff` and `Overseer.EdgeNumbersStayCurrent` say exactly
  when.
- The filter remembers one request per peer, so a second one makes the first unanswerable; and it forgets a request
  before it finds that the peer to answer is not registered. `FilterServiceLosses.LostIff` says that requests are lost
  in exactly these two ways.
- A response cut within its length is taken for a refusal (`Codec.RefusedIff`, `Codec.CutResponse`).
- Cached block requests are said to be sent when a provider frees up
  (framework/swarm_host/backend/substrate/filters/sup_sync_2.py:60-62), but nothing sends them
  (`BlockSyncRuns.CachedIsNeverSent`). A block that occurs twice in a response is served twice and then raises
  (`BlockSyncRuns.ServedPerCopy`, `BlockSyncRuns.ResponseRaisesIff`). A stored block that was not the first one
  announced at its height is answered with the first one (`BlockSyncNumbers.AnswerStartsRightIff`). A peer that is
  registered anew is no longer marked busy, so it can be sent a second request before it answers the first
  (`BlockSyncPeers.SecondRequestIff`).

## Model

| member | source | states |
|---|---|---|
| `PeersetTheorems.RunKeepsCounters` | src/backend/substrate/network/peerset/mod.rs:300-719 | After every run of operations each stored node has one membership per set, `num_in` and `num_out` of each set equal the number of slot-taking nodes connected through it (so no decrement can underflow), reserved nodes mirror slot-free nodes, a reserved-only set has only reserved nodes connected, and every stored node has a score or a set |
| `PeersetTheorems.LedgerIsConnectedFlag` | src/backend/substrate/network/peerset/mod.rs:350-719 | For every run, set and peer: Accepts queued minus Drops queued minus `dropped` calls that found the peer connected equals the change of its connected flag, so from a fresh start it is always 0 or 1 |
| `PeersetTheorems.SlotsBounded` | src/backend/substrate/network/peerset/peersstate.rs:286-317 | Over every run `num_in` stays within `max_in` (or its start value, if larger) plus the number of removals of slot-free status that hit a node connected inbound; no run creates an outgoing connection |
| `PeersetTheorems.DecayTelescopes` | src/backend/substrate/network/peerset/mod.rs:509-522 | For every run and all non-decreasing clock readings, the decay seconds applied add up to the whole seconds since creation: no fraction of a second is lost or counted twice |
| `PeersetTheorems.StepGood` | src/backend/substrate/network/peerset/mod.rs:350-719 | Every operation keeps the state invariant, the balance of messages against connections and the slot bound |
| `PeersetTheorems.StepInv` | src/backend/substrate/network/peerset/peersstate.rs:286-653 | Every operation keeps the slot counters equal to the number of slot-taking nodes |
| `PeersetTheorems.IncomingAnswered` | src/backend/substrate/network/peerset/mod.rs:662-691 | An incoming connection gets exactly one answer, with its own index, unless the peer is already connected, in which case it gets none; it is an Accept if and only if the set is open to the peer, its decayed score is not below the ban threshold, and it is reserved or a slot is free |
| `PeersetTheorems.ReportDisconnects` | src/backend/substrate/network/peerset/mod.rs:470-500 | A report adds to the decayed score with saturation; it disconnects the peer from all its sets exactly if the result is below the threshold, with exactly one Drop per set it was connected in, and touches no other peer |
| `PeersetTheorems.BansKept` | src/backend/substrate/network/peerset/mod.rs:350-691 | Every operation other than `dropped` keeps "no connected peer is banned" |
| `PeersetTheorems.DroppedKeepsBansIff` | src/backend/substrate/network/peerset/mod.rs:697-719 | `dropped` keeps "no connected peer is banned" if and only if it is not the case that the peer was connected, the penalty takes its decayed score below the threshold, and it is connected in another set |
| `PeersetTheorems.DroppedSafeForOthers` | src/backend/substrate/network/peerset/mod.rs:697-719 | `dropped` never affects the ban status of other connected peers, and is safe altogether with a single set |
| `PeersetTheorems.DroppedCanLeaveBannedConnected` | src/backend/substrate/network/peerset/mod.rs:697-719 | A concrete state that satisfies the invariant and in which `dropped` leaves a banned peer connected through another set |
| `PeersetEffects.StepStatus` | src/backend/substrate/network/peerset/mod.rs:350-719 | For every operation, peer and set, the membership after the call from the state before it: in particular a removal leaves any node that is not reserved outside the set, a refused connection too, a lost one is stamped, an addition makes an unknown node known, and an incoming connection ends connected or stamped |
| `PeersetEffects.StepScore` | src/backend/substrate/network/peerset/mod.rs:470-719 | For every operation and peer, the score after the call: beyond decay, only a report and a lost connection change one, by what they say |
| `PeersetEffects.StepReserved` | src/backend/substrate/network/peerset/mod.rs:350-431 | For every operation and set, who is reserved and whether others are admitted after the call |
| `PeersetEffects.StepMessages` | src/backend/substrate/network/peerset/mod.rs:350-719 | For every operation, the messages it queues; reports and the switch to reserved-only queue nothing but Drops, which the ledger counts |
| `PeersetAging.AgingClosedForm` | src/backend/substrate/network/peerset/mod.rs:525-568 | One pass over the whole table per elapsed second equals a single closed-form update per node: neither the order of seconds nor of nodes matters |
| `PeersetAging.AgeFacts` | src/backend/substrate/network/peerset/mod.rs:509-569 | Passing time decays each score by the elapsed ticks, changes no connection, no slot counter and no reserved set, and ends a membership only for a score of zero and a last contact more than `FORGET_AFTER` ago |
| `PeersetAging.AgeInv` | src/backend/substrate/network/peerset/mod.rs:509-569 | Passing time keeps the slot counters exact |
| `Reputation.TickMonotone` | src/backend/substrate/network/peerset/mod.rs:529-537 | One tick keeps the order of scores |
| `Reputation.TickShrinks` | src/backend/substrate/network/peerset/mod.rs:529-537 | One tick strictly shrinks every non-zero score, never changes its sign and never leaves the 32-bit range, so the saturating subtraction never saturates |
| `Reputation.TicksDescend` | src/backend/substrate/network/peerset/mod.rs:525-537 | As long as the magnitude is at least fifty times a step, every tick takes at least that step |
| `Reputation.HalvesWithin100` | src/backend/substrate/network/peerset/mod.rs:525-537 | Any 32-bit score at least halves in magnitude within 100 ticks |
| `Reputation.ZeroWithin3200` | src/backend/substrate/network/peerset/mod.rs:525-537 | Any 32-bit score is exactly zero after 3200 ticks |
| `Reputation.WorstScoreUnbanned` | src/backend/substrate/network/peerset/mod.rs:52-57 | The worst score needs exactly ten ticks to get back to the ban threshold |
| `Reputation.UnbannedWithin10` | src/backend/substrate/network/peerset/mod.rs:52-57 | Any score is at or above the ban threshold after ten ticks |
| `Reputation.SaturatingNearest` | src/backend/substrate/network/peerset/peersstate.rs:662-680 | A saturating sum is the 32-bit number nearest to the sum |
| `PeersState.LocalChange` | src/backend/substrate/network/peerset/peersstate.rs:286-653 | A change confined to one node and one set keeps all counters exact as soon as the counters of that set move with the occupancy of that node |
| `PeersState.MoveInv` | src/backend/substrate/network/peerset/peersstate.rs:380-566 | Changing one membership, with the counters that follow it, keeps all counters exact |
| `PeersState.SetNoSlotInv` | src/backend/substrate/network/peerset/peersstate.rs:286-317 | Giving or taking slot-free status keeps all counters exact, whatever the node's membership |
| `PeersState.ForgetInv` | src/backend/substrate/network/peerset/peersstate.rs:594-622 | Forgetting a node keeps all counters exact, whether or not the node disappears from the table |
| `PeersState.SetScoreFacts` | src/backend/substrate/network/peerset/peersstate.rs:662-696 | Writing a score, and the removal of blank nodes on drop, changes no membership and no other score |
| `PeersState.OccupantCounted` | src/backend/substrate/network/peerset/peersstate.rs:286-412 | A node that takes a slot is counted, so its counter is positive |
| `PeersStorage.Storage.constructor` | src/backend/substrate/network/peerset/peersstate.rs:151-165 | Starts empty, with the configured limits |
| `PeersStorage.Storage.AddNoSlotNode` | src/backend/substrate/network/peerset/peersstate.rs:286-299 | New state: the node is slot-free and frees the slot it held; the counters stay exact and the decrement cannot underflow |
| `PeersStorage.Storage.RemoveNoSlotNode` | src/backend/substrate/network/peerset/peersstate.rs:304-317 | New state: the node takes a slot again if connected, even beyond the limit; the counters stay exact |
| `PeersStorage.Storage.Disconnect` | src/backend/substrate/network/peerset/peersstate.rs:380-412 | New state: not connected since `now`, slot released; the "state inconsistency" branch cannot be reached |
| `PeersStorage.Storage.TryOutgoing` | src/backend/substrate/network/peerset/peersstate.rs:500-528 | Succeeds exactly if an outgoing slot is free or the node is slot-free; a refusal changes nothing |
| `PeersStorage.Storage.TryAcceptIncoming` | src/backend/substrate/network/peerset/peersstate.rs:536-566 | Succeeds exactly if an incoming slot is free or the node is slot-free; a refusal changes nothing |
| `PeersStorage.Storage.BumpLastConnected` | src/backend/substrate/network/peerset/peersstate.rs:457-466 | New state: stamped with `now`, counters exact |
| `PeersStorage.Storage.Discover` | src/backend/substrate/network/peerset/peersstate.rs:637-653 | New state: known and not connected, with a node created if there was none |
| `PeersStorage.Storage.ForgetPeer` | src/backend/substrate/network/peerset/peersstate.rs:594-622 | New state: no member of the set, and gone from the table exactly if it has no score and no other set |
| `PeersStorage.Storage.SetReputation` | src/backend/substrate/network/peerset/peersstate.rs:662-696 | New state: the score is written and a blank node removed |
| `PeersetManager.Peerset.constructor` | src/backend/substrate/network/peerset/mod.rs:300-348 | Reserved nodes are slot-free in their set, bootnodes are known and not connected, everyone else is unknown, all scores are zero; the invariant holds |
| `PeersetManager.Peerset.UpdateTime` | src/backend/substrate/network/peerset/mod.rs:509-569 | The nested loops over seconds, nodes and sets compute the aged state of the model |
| `PeersetManager.Peerset.OnAddReservedPeer` | src/backend/substrate/network/peerset/mod.rs:350-358 | Performs the model's operation, so all run theorems apply |
| `PeersetManager.Peerset.OnRemoveReservedPeer` | src/backend/substrate/network/peerset/mod.rs:360-379 | Performs the model's operation, with its Drop in a reserved-only set |
| `PeersetManager.Peerset.OnSetReservedPeers` | src/backend/substrate/network/peerset/mod.rs:381-403 | Through a legal run of single reservations and removals, ends with exactly the requested reserved set; only missing nodes are added and only surplus ones removed |
| `PeersetManager.Peerset.OnSetReservedOnly` | src/backend/substrate/network/peerset/mod.rs:405-431 | The loop drops exactly the connected nodes that are not reserved, each once, in some order, which makes it the model's operation |
| `PeersetManager.Peerset.DropIntruders` | src/backend/substrate/network/peerset/mod.rs:417-430 | Lists every connected node that is not reserved exactly once and queues one Drop for each |
| `PeersetManager.Peerset.AddToPeersSet` | src/backend/substrate/network/peerset/mod.rs:442-447 | Performs the model's operation; an already known node is left alone |
| `PeersetManager.Peerset.OnRemoveFromPeersSet` | src/backend/substrate/network/peerset/mod.rs:449-468 | Performs the model's operation: reserved nodes stay, all others leave the set, connected ones with a Drop |
| `PeersetManager.Peerset.OnReportPeer` | src/backend/substrate/network/peerset/mod.rs:470-500 | Performs the model's operation, the loop over all sets included |
| `PeersetManager.Peerset.OnPeerReputation` | src/backend/substrate/network/peerset/mod.rs:502-505 | Answers the current score, zero for unknown peers, and leaves the state as it was although it passes through a temporary node |
| `PeersetManager.Peerset.ConnectToPeer` | src/backend/substrate/network/peerset/mod.rs:572-577 | Queues a Connect and changes no membership |
| `PeersetManager.Peerset.Incoming` | src/backend/substrate/network/peerset/mod.rs:662-691 | Performs the model's operation |
| `PeersetManager.Peerset.Dropped` | src/backend/substrate/network/peerset/mod.rs:697-719 | Performs the model's operation; a refused connection also leaves the set |
| `NotifsRuns.EveryRun` | src/backend/substrate/network/protocol/notifications/handler.rs:519-933 | For every legal run and protocol: substream requests sent equal answers received plus one exactly while opening or marked pending; Opens received equal results produced plus one while opening; every Close has one CloseResult; a Notification is delivered only if the latest delivered result is a success; a substream wanted by the remote has not sent its handshake and one held while opening or open has |
| `NotifsRuns.NoAssertionFires` | src/backend/substrate/network/protocol/notifications/handler.rs:575-729 | After every legal run, every answer the environment may give is expected, and every Open it may send finds the protocol closed or desired by the remote: the debug assertions hold |
| `NotifsRuns.StepKeeps` | src/backend/substrate/network/protocol/notifications/handler.rs:519-933 | Every event, command and poll keeps the books above for all protocols at once |
| `NotifsRuns.OpenFindsClosed` | src/backend/substrate/network/protocol/notifications/handler.rs:661-729 | An owner that goes by delivered results alone never sends Open to an opening or open protocol, although results may still be queued |
| `NotifsRuns.AnswerExpected` | src/backend/substrate/network/protocol/notifications/handler.rs:575-654 | A delivered, unanswered request is always one the state still knows of |
| `NotifsRuns.AcceptEchoesHandshake` | src/backend/substrate/network/protocol/notifications/handler.rs:681-721 | Accepting a remote's request queues the handshake it sent as our own; the send is never discarded as a second one |
| `NotifsPolling.DeadSubstreamReleased` | src/backend/substrate/network/protocol/notifications/handler.rs:871-927 | A substream whose poll failed or ended is no longer held, so it is never polled again; any other is held with its new state |
| `NotifsPolling.PollMeans` | src/backend/substrate/network/protocol/notifications/handler.rs:773-933 | A poll gets to the inbound side of a protocol exactly if nothing is queued, no sink asks to close, no flush fails and no earlier protocol reports; then its substream moves on and what it reports is the event of the poll, otherwise its inbound side is left as it was |
| `NotifsPolling.DeafTakesTurns` | src/backend/substrate/network/protocol/notifications/handler.rs:871-927 | An open protocol without inbound substream is reported whenever a poll gets to it, and no poll gets to any protocol after it, whatever else is the case |
| `NotifsPolling.DeafLasts` | src/backend/substrate/network/protocol/notifications/handler.rs:519-758 | For every legal step: it stays without inbound substream if and only if the step is neither its Close nor an inbound substream for it |
| `NotifsPolling.DeafStarvesOthers` | src/backend/substrate/network/protocol/notifications/handler.rs:871-927 | In every run, from the moment a protocol is open without inbound substream and for as long as it is neither closed nor given one, no poll gets to any protocol after it |
| `NotifsPolling.OpensDeaf` | src/backend/substrate/network/protocol/notifications/handler.rs:661-729 | Three legal steps from the start reach this state: opening a protocol that the remote has not opened |
| `NotifsPolling.NotifiesIff` | src/backend/substrate/network/protocol/notifications/handler.rs:871-927 | With nothing queued, a poll reports a message for a protocol if and only if it is the protocol's turn, it is open, its handshake is out at the latest in this poll, and its socket yields this message as a frame |
| `NotifsPolling.MessagesAreFrames` | src/backend/substrate/network/protocol/notifications/handler.rs:871-927 | In every run, every notification delivered is a frame that its poll read, delivered after the handshake of its substream was flushed |
| `NotifsPolling.FrameDelivered` | src/backend/substrate/network/protocol/notifications/handler.rs:871-927 | In every run, a frame that a poll reads is delivered by that poll |
| `NotifsPolling.PollEvent` | src/backend/substrate/network/protocol/notifications/handler.rs:773-933 | The event of every poll: the oldest queued one, else a forced close, else the first failed flush, else what the first protocol to report reports; none exactly if there is nothing of all this |
| `NotifsPolling.ReportsMeans` | src/backend/substrate/network/protocol/notifications/handler.rs:871-927 | When the inbound side of a protocol reports, and what: a lost inbound substream, a frame read, or a remote's request whose handshake broke |
| `NotifsPolling.OutboundHeld` | src/backend/substrate/network/protocol/notifications/handler.rs:575-758 | For every legal step: an outbound substream is held from the answer that opens the protocol until its Close or a failed flush |
| `NotifsPolling.InboundMeans` | src/backend/substrate/network/protocol/notifications/handler.rs:519-574 | An inbound substream is kept if none is held, unanswered while closed and with our handshake queued otherwise; a second one changes nothing |
| `NotifsPolling.DesiredPerOffer` | src/backend/substrate/network/protocol/notifications/handler.rs:519-574 | In every run the owner is told that the remote wants a protocol open exactly once for each inbound substream that finds it closed |
| `NotifsHandler.NotifsHandler.FullyNegotiatedInbound` | src/backend/substrate/network/protocol/notifications/handler.rs:519-574 | New state and queue; a substream already held is not replaced |
| `NotifsHandler.NotifsHandler.OutboundAnswered` | src/backend/substrate/network/protocol/notifications/handler.rs:575-654 | New state and queue for success and failure; the assertions on `pending_opening` hold |
| `NotifsHandler.NotifsHandler.CommandOpen` | src/backend/substrate/network/protocol/notifications/handler.rs:661-729 | New state and queue; a request still in flight is reused |
| `NotifsHandler.NotifsHandler.CommandClose` | src/backend/substrate/network/protocol/notifications/handler.rs:731-758 | New state and queue; an unfinished opening is reported as failed before the CloseResult |
| `NotifsHandler.NotifsHandler.PollOnce` | src/backend/substrate/network/protocol/notifications/handler.rs:773-933 | The queue first, then the three loops over the protocols with their early exits, equal one poll of the model; the inbound sides it gets to are exactly those whose turn it is |
| `InSubstream.PollProcess` | src/backend/substrate/network/protocol/notifications/upgrade/notifications.rs:229-273 | The handshake loop ends, by a strictly advancing rank, and computes one step function of the socket's answers |
| `InSubstream.PollNext` | src/backend/substrate/network/protocol/notifications/upgrade/notifications.rs:282-352 | Likewise for reading; frames are only read in the state after the flush |
| `InSubstream.PollsKeepHealth` | src/backend/substrate/network/protocol/notifications/upgrade/notifications.rs:229-352 | While polls neither fail nor end, the state says "sent" exactly if the socket confirmed the flush, it never falls back, and a message is yielded only after the flush |
| `InSubstream.NextMeans` | src/backend/substrate/network/protocol/notifications/upgrade/notifications.rs:229-352 | A poll yields a message exactly if the handshake is out and the socket yields a frame, and then that one; it ends exactly if both sides are closed, and fails exactly if sending, reading or closing does |
| `InSubstream.HandshakeAfter` | src/backend/substrate/network/protocol/notifications/upgrade/notifications.rs:229-352 | Where a poll leaves the handshake: our message is handed over once, the flush is awaited, then frames are read until the remote closes |
| `InSubstream.FailedSubstreamIsUnsafe` | src/backend/substrate/network/protocol/notifications/upgrade/notifications.rs:229-352 | After a broken flush a further poll would yield a message although the handshake was never confirmed, so a failed substream must not be polled again |
| `RequestResponsesRuns.AnsweredExactlyOnce` | src/backend/substrate/network/request_responses.rs:254-292 | For every run: each reply channel is answered at most once and only with what became of its own request; it is unanswered exactly while its request is accepted and unfinished; `pending_requests` is keyed by exactly the accepted unfinished requests, also when protocols reuse ids |
| `RequestResponsesRuns.NoRequestLost` | src/backend/substrate/network/request_responses.rs:479-565 | For every sequence of `send_request` and `poll` calls, at every point: the requests that came in, in order, are those handed on or discarded followed by the one in the slot; an incoming request finds the slot empty; the arrival time looked up at ResponseSent is there; a new request never overwrites a pending one |
| `RequestResponsesRuns.PollIsGated` | src/backend/substrate/network/request_responses.rs:474-840 | A poll takes reputations only while the slot is full, and outcomes and events only while it is empty |
| `RequestResponsesRuns.PollTakesInOrder` | src/backend/substrate/network/request_responses.rs:474-840 | A poll takes what is ready in order; it returns Pending only with the slot full and no reputation ready, or with all outcomes and events used up, and otherwise reports its last step |
| `RequestResponsesRuns.FateByReputation` | src/backend/substrate/network/request_responses.rs:508-525 | For every sequence of calls: the n-th request that came in is discarded exactly if the n-th reputation is below the ban threshold, and handed on otherwise |
| `RequestResponsesRuns.AnswersAreDue` | src/backend/substrate/network/request_responses.rs:699-783 | For every run: the replies sent are, in order, what the steps call for: a response or refusal or failure goes unchanged to the channel of its request, an impossible request is answered on the spot |
| `RequestResponsesRuns.SignalsAreDue` | src/backend/substrate/network/request_responses.rs:567-613 | For every run: a handler is signalled exactly when the response it gave, and that libp2p took, has been sent |
| `RequestResponses.OutboundKept` | src/backend/substrate/network/request_responses.rs:254-292 | Every call, reputation, outcome and libp2p event keeps the books of outgoing requests |
| `RequestResponses.InboundKept` | src/backend/substrate/network/request_responses.rs:664-696 | Every step taken at the right time keeps the books of incoming requests |
| `RequestResponses.Behaviour.SendRequest` | src/backend/substrate/network/request_responses.rs:254-292 | New state: recorded as pending, or answered at once if the protocol is unknown or the peer is unreachable |
| `RequestResponses.Behaviour.HandleEvent` | src/backend/substrate/network/request_responses.rs:664-833 | New state for each event; the loop goes on exactly after an incoming request |
| `RequestResponses.Behaviour.Poll` | src/backend/substrate/network/request_responses.rs:474-840 | The nested loops, with their early returns, compute the poll of the model |
| `RequestResponses.Behaviour.SendReady` | src/backend/substrate/network/request_responses.rs:567-613 | The inner loop answers handlers in order, up to the first outcome with reputation changes |
| `RequestResponses.Behaviour.ResolveSlot` | src/backend/substrate/network/request_responses.rs:480-565 | New state: the slot is empty and the fate of its request recorded, as the run lemma on fates demands |
| `Codec.RequestRoundTrip` | src/backend/substrate/network/request_responses.rs:874-964 | Reading a written request, whatever follows it, gives it back exactly if it is within the limit, and an error otherwise |
| `Codec.ResponseRoundTrip` | src/backend/substrate/network/request_responses.rs:902-991 | Likewise for responses; a refusal and an empty payload are both read back as what they were |
| `Codec.ResponsesDiffer` | src/backend/substrate/network/request_responses.rs:966-991 | Different responses are different on the wire |
| `Codec.RefusedIff` | src/backend/substrate/network/request_responses.rs:902-940 | Bytes are read as a refusal exactly if there are fewer than ten and none of them ends a length: also if the stream is cut within one |
| `Codec.CutResponse` | src/backend/substrate/network/request_responses.rs:902-940 | A payload cut after any number of bytes: read as a refusal if the cut is within its length, and as an error otherwise |
| `Codec.CutLength` | src/backend/substrate/network/request_responses.rs:902-926 | Every proper part of a written length is recognised as cut |
| `Codec.ReadIsThere` | src/backend/substrate/network/request_responses.rs:874-900 | Whatever is read is within the limit and stands in the input right behind a length that announces it |
| `Codec.LengthRoundTrip` | src/backend/substrate/network/request_responses.rs:26-29 | Every 64-bit length is read back from its unsigned LEB128 encoding, whatever follows, within the ten bytes and the minimal form the reader insists on |
| `Codec.WriteLength` | src/backend/substrate/network/request_responses.rs:942-991 | The byte-by-byte writer computes the LEB128 encoding of any length |
| `Codec.ReadLength` | src/backend/substrate/network/request_responses.rs:874-926 | The byte-by-byte reader computes the decoding of any input: complete, cut, or refused as longer than ten bytes, not minimal or too large |
| `Overseer.Overseer.InjectNotification` | src/overseer.rs:549-579 | Delivers the notification exactly once to every interface reachable from the receiving one and to no other; the look-ups cannot fail; an unknown interface is an error and delivers nothing |
| `LinkGraph.Dfs` | src/overseer.rs:559-577 | Depth-first search yields exactly the reachable nodes, each once, in any graph |
| `Overseer.OnlyLiveReached` | src/overseer.rs:349-376 | No walk from a registered interface leads to a node that a failed filter creation left behind |
| `Overseer.HistoryKeeps` | src/overseer.rs:324-424 | After every history of creations (failed ones included), links and unlinks, links only join registered interfaces |
| `Overseer.RegisteredIff` | src/overseer.rs:324-380 | After every history, an interface is registered exactly if a creation of it succeeded in both its backend and its filter |
| `Overseer.SucceedsIff` | src/overseer.rs:324-424 | A request succeeds exactly if it registers a new interface, adds a link between two registered ones, or removes a link |
| `Overseer.LinkMergesComponents` | src/overseer.rs:383-399 | Linking merges exactly the components of the two interfaces |
| `Overseer.UnlinkNeverEnlarges` | src/overseer.rs:402-424 | An unlink, right or wrong, links nothing that was not linked before |
| `Overseer.LinkedIsEquivalence` | src/overseer.rs:559-577 | Being linked is reflexive, symmetric and transitive |
| `Overseer.UnlinkRightIff` | src/overseer.rs:402-424 | An unlink removes exactly one link between the two interfaces, in whichever direction it was made, if and only if the stored edge number names such a link |
| `Overseer.EdgeNumbersStayCurrent` | src/overseer.rs:383-424 | Creating and linking keep all stored edge numbers right; an unlink does if and only if no other pair has the last edge on record, and any that shares the removed number is joined by the last edge too |
| `Overseer.UnlinkCanMiss` | src/overseer.rs:402-424 | Two links, the first removed: removing the second fails and leaves its interfaces linked |
| `Overseer.Overseer.CreateInterface` | src/overseer.rs:324-380 | New registry for each way creation ends |
| `Overseer.Overseer.LinkInterfaces` | src/overseer.rs:383-399 | New registry, or an error for an unknown interface |
| `Overseer.Overseer.UnlinkInterfaces` | src/overseer.rs:402-424 | New registry; the stored number is forgotten even if the removal fails |
| `FilterServiceRuns.EveryRun` | src/filter/mod.rs:579-627 | For every run of filter and service with messages in flight: each request is answered at most once, exactly if it is no longer pending, on its own channel, by a response addressed to the peer that sent it; what the filter holds for a peer is its latest delivered request, unanswered; every response on its way down finds its request; the cache holds for each digest the last response given to it |
| `FilterServiceRuns.CacheServesLastResponse` | src/backend/substrate/network/service.rs:587-637 | In every run, a request is served from the cache exactly if one with its digest was answered, and with the last such answer |
| `FilterServiceRuns.ResponseFindsRequest` | src/backend/substrate/network/service.rs:638-658 | A response that reaches the service always finds its pending request, and the request came from the peer addressed |
| `FilterServicePayloads.AnswersAreResponses` | src/filter/mod.rs:579-627 | For every run: an answer carries the payload of an executor event that responded to the peer of the request while the filter held that request for it, and that took it out of the filter; a request is reported with the peer that sent it |
| `FilterServicePayloads.BatchMeans` | src/filter/mod.rs:498-632 | A batch of executor events amounts to the commands of its events up to the first that fails, in order, each with what its event says and only the first response per peer; the requests so answered leave the filter |
| `FilterServicePayloads.NotifiedPeers` | src/filter/mod.rs:512-560 | A forwarded notification goes to the registered ones of its peers, as often as each is listed, and to no other |
| `FilterServicePayloads.PeersAreMembers` | src/filter/mod.rs:642-680 | For every run: the filter's peers are those registered with the executor's consent and not unregistered since |
| `FilterServiceLosses.AnswerableIff` | src/filter/mod.rs:579-627 | After every run, a request that is not answered yet has a continuation that answers it if and only if it is on its way to the filter, held by it, or on its way down |
| `FilterServiceLosses.LostIff` | src/filter/mod.rs:579-627 | A step makes a request unanswerable if and only if it delivers the next request of the same peer while the filter holds this one, or processes a response to it while its peer is not registered (no earlier event of the batch having failed) |
| `FilterServiceLosses.SecondRequestLosesFirst` | src/filter/mod.rs:801-825 | A second request of a peer, delivered before the first is answered, makes the first one unanswered for ever, in every continuation |
| `FilterServiceLosses.UnregisteredLoses` | src/filter/mod.rs:579-607 | A run from the start in which the answer to a request of an unregistered peer loses it |
| `FilterServiceLosses.LostForever` | src/filter/mod.rs:579-627 | A request that is neither on its way up, held, nor on its way down is never answered, whatever happens |
| `FilterService.FilterObject.ProcessEvents` | src/filter/mod.rs:498-632 | The loop with its early exits sends the commands of the events up to the first that fails |
| `FilterService.FilterObject.OnRegisterPeer` | src/filter/mod.rs:642-661 | New state, commands and result; a registered peer or a failing executor changes nothing |
| `FilterService.FilterObject.OnUnregisterPeer` | src/filter/mod.rs:669-680 | New state, commands and result; the remembered request stays |
| `FilterService.FilterObject.OnInjectRequest` | src/filter/mod.rs:801-825 | New state, commands and result; the request is remembered before the executor runs |
| `FilterServiceRuns.IdsIssuedOnce` | src/backend/substrate/network/service.rs:569-573 | For every run: ids are issued in increasing order, none twice, neither to requests that came in nor to those sent out |
| `FilterService.ServiceObject.HandleRequest` | src/backend/substrate/network/service.rs:799-828 | New state: the request is pending under a fresh id, which is reported upwards |
| `FilterService.ServiceObject.HandleCommand` | src/backend/substrate/network/service.rs:587-658 | New state and output for each command; a response to an unknown id does nothing |
| `BlockSyncRuns.EveryRun` | framework/swarm_host/backend/substrate/filters/sup_sync_2.py:22-117 | For every run, block and peer: no block is in two of pending, cached and stored; at most one request is ever sent for a block; the times a peer was made to wait for a block equal the times it was sent to it plus the times it still waits, and nobody waits for a stored block |
| `BlockSyncPeers.OwesAtMostOne` | framework/swarm_host/backend/substrate/filters/sup_sync_2.py:69-83 | In every run in which peers only answer what they were asked: a peer that is not registered anew while it owes a response has at most one unanswered request, and while registered it is busy exactly if it has one |
| `BlockSyncPeers.SecondRequestIff` | framework/swarm_host/backend/substrate/filters/sup_sync_2.py:54-73 | Whenever a request is sent to a peer, it then has two or more unanswered ones if and only if it was registered anew while it owed one |
| `BlockSyncPeers.OwesTwoIff` | framework/swarm_host/backend/substrate/filters/context.py:184-193 | After every such run, a registered peer that announces a new block and asks for it ends up with two or more unanswered requests if and only if it was registered anew while it owed one |
| `BlockSyncPeers.LeaveAndRejoin` | framework/swarm_host/backend/substrate/filters/context.py:184-193 | After every run with a free peer: if it is sent a request, leaves and rejoins, it can be sent a second one before it answers |
| `BlockSyncPeers.OneJoins` | framework/swarm_host/backend/substrate/filters/context.py:184-188 | There is such a run: one peer joins |
| `BlockSyncPeers.PeersByHistory` | framework/swarm_host/backend/substrate/filters/context.py:176-193 | For every run: a peer is registered if it joined and did not leave since, and is taken to know exactly the blocks it announced since it joined |
| `BlockSyncPeers.ProviderRegisteredLongest` | framework/swarm_host/backend/substrate/filters/context.py:51-55 | After every run: a request that is sent on goes to a registered peer that announced the block and is not busy, and of all such peers to the one registered longest |
| `BlockSyncRuns.ServedPerCopy` | framework/swarm_host/backend/substrate/filters/sup_sync_2.py:85-109 | Each waiting entry is served as often as its block occurs in the response |
| `BlockSyncWaiters.ServedInOrder` | framework/swarm_host/backend/substrate/filters/sup_sync_2.py:45-109 | For every run and block: those who asked for it while it was missing get it in the order in which they asked, once each, when it arrives |
| `BlockSyncRuns.ResponseRaisesIff` | framework/swarm_host/backend/substrate/filters/sup_sync_2.py:76-117 | Handling a response ends in an exception exactly if the peer is not registered or a block that is waited for occurs twice |
| `BlockSyncRuns.ResponseEffect` | framework/swarm_host/backend/substrate/filters/sup_sync_2.py:76-117 | Otherwise all its blocks are stored and nobody waits for any of them any more |
| `BlockSyncRuns.CachedIsNeverSent` | framework/swarm_host/backend/substrate/filters/sup_sync_2.py:60-65 | A cached request is never sent on, in any run, for as long as its block does not come with another response |
| `BlockSync.ChainMeans` | framework/swarm_host/backend/substrate/filters/context.py:99-142 | An answer from the store is the longest stretch of numbered blocks in the asked direction, cut at the asked number; it raises exactly if one of them is not stored with its header |
| `BlockSyncNumbers.AnswerMeans` | framework/swarm_host/backend/substrate/filters/context.py:99-142 | A request for a stored block is answered with the numbered blocks from it on, in the request's direction and up to its limit or the first height without block; it raises, and changes nothing, exactly if the block has no height or one of these blocks lacks its header |
| `BlockSyncNumbers.ByNumber` | framework/swarm_host/backend/substrate/filters/sup_sync_2.py:25-35 | A request by number is one for the block with that number, and is ignored if there is none |
| `BlockSyncNumbers.HeadersSaved` | framework/swarm_host/backend/substrate/filters/context.py:67-76 | A block counts as stored with its header exactly if the first copy stored had one |
| `BlockSyncNumbers.NumberedByFirst` | framework/swarm_host/backend/substrate/filters/context.py:35-39 | For every run: a height stands for the first block a registered peer announced at it, a block for the first height announced for it, and nothing else is numbered |
| `BlockSyncNumbers.AnswerStartsRightIff` | framework/swarm_host/backend/substrate/filters/context.py:99-142 | After every run, for every request for a stored block: it raises if the block was never announced; if it is answered, the answer starts with the block asked for exactly if that block was the first announced at its height |
| `BlockSyncNumbers.AnswersWithOtherBlock` | framework/swarm_host/backend/substrate/filters/context.py:35-39 | Two blocks announced at one height and both stored: asking for the second is answered with the first |
| `BlockSync.FirstEligible` | framework/swarm_host/backend/substrate/filters/context.py:51-55 | Finds the first peer in order that is registered, knows the block and is not busy, if there is one |
| `BlockSync.SyncFilter.GetProvider` | framework/swarm_host/backend/substrate/filters/context.py:51-55 | The loop finds the first eligible peer in dictionary order |
| `BlockSync.SyncFilter.IsUnknownBlock` | framework/swarm_host/backend/substrate/filters/context.py:60-64 | True exactly if no registered peer knows the block |
| `BlockSync.SyncFilter.CollectChain` | framework/swarm_host/backend/substrate/filters/context.py:107-136 | The loop ends and computes the chain described above |
| `BlockSync.SyncFilter.HandleRequest` | framework/swarm_host/backend/substrate/filters/sup_sync_2.py:22-73 | The new state, the events and whether it raised are those of the model, for every branch and by hash or number |
| `BlockSync.SyncFilter.HandleResponse` | framework/swarm_host/backend/substrate/filters/sup_sync_2.py:76-117 | New state, events and whether it raised, partial effects before the exception included |
| `BlockSync.SyncFilter.HandleBlocks` | framework/swarm_host/backend/substrate/filters/sup_sync_2.py:85-109 | The nested loops store each block and serve all who wait for it, in order |
| `LruHashSet.LruHashSet.Insert` | src/backend/substrate/network/common/utils.rs:52-60 | After any inserts the set holds, in order of recency, exactly the last `limit - 1` distinct elements inserted; the result says whether the element was not among them |
| `LruHashSet.LastWithout` | src/backend/substrate/network/common/utils.rs:52-60 | Moving an element to the back commutes with keeping only the last elements, so forgetting old entries loses nothing that matters later |
| `LruHashSet.RecentFacts` | src/backend/substrate/network/common/utils.rs:38-61 | The recency list of a history holds each of its elements exactly once |

## Left out

- The upper wrap-around of the slot counters, request ids and edge numbers: they are unbounded here. Scores are
  32-bit and saturate as in the source; counters are proved never to fall below zero.
- The two clock readings of one peer set operation: `update_time` takes `now`, and every other reading in the same
  operation is one `stamp`.
- `Peerset`'s dispatch of queued actions and its debug output (src/backend/substrate/network/peerset/mod.rs:769-822),
  and the commented-out body of `alloc_slots`.
- The `Notifications` behaviour above the handler: its obligations are the `Legal` steps; a command takes effect in
  one step.
- The outgoing side of an open protocol (notification sinks, back pressure, the payload of our own handshake): only
  whether the sink asks to close the connection and whether a flush fails is modelled.
- The varint library is not part of this model: its reader is taken to stop after the ten bytes of a 64-bit number and
  to refuse numbers that are not minimal; whether it refuses or truncates a ten-byte number above 64 bits is a
  parameter, and every statement holds for both.
- A response builder that is too busy, request payloads and peers in the request-response bookkeeping, and
  `RequestResponsesBehaviour::new`.
- Digest collisions in the response cache: a digest stands for the request it was computed from.
- The contents of forwarded notifications and the connections an executor asks for: only who is notified is modelled.
- The overseer's heuristics, peer discovery and backend handles; the filter's per-peer protocol sets and
  notification history.
- The block store shared through Redis: each filter has its own here. Protobuf and JSON encodings, block bodies and
  justifications, `discover_peer`, `connectivity_heartbeat`.
- Block announcements: only their effect on known blocks and heights
  (framework/swarm_host/backend/substrate/filters/block_announces_1.py:26-27), without forwarding and the time limit.
- BlockSyncPeers.OwesAtMostOne: a response nobody asked for clears the busy mark too, so the claims about unanswered
  requests are limited to runs without one; all other claims about runs allow them.
- The PyO3 executor, RPC server, transport, discovery, ping and identify, launchers and user interface.
