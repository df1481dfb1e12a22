# Multitasker: a verified model

Multitasker runs coding agents in terminals and shows a person what needs them next. This
project models the parts of it whose correctness is a matter of protocol, order or time, and
proves what they promise over all inputs and all runs.

- **The terminal pipe.** A supervisor owns the PTYs and keeps a byte-bounded scrollback for
  each session (`Scrollback`). It serves snapshots and live output to gateways over a local
  socket (`SupervisorProtocol`, a state machine; `SupervisorServer`, the object that carries
  it out). What a session's life looks like on the wires is in `SupervisorLifecycle`. The socket
  carries JSON lines, split by `LineBuffer`. The gateway mirrors each scrollback
  (`SupervisorClient`) and keeps a list of sessions (`GatewayList`). `Pipeline` composes them,
  and `WireLength` relates their size limits.
- **The gateway.** It keeps two-way tables of subscribers and status watchers, computes one
  PTY size from many clients (`GatewayTables`, seen one session at a time; `Gateway`, the
  object), and coalesces output (`OutputCoalescing`). What the tables hold is read off the
  events alone in `GatewaySizes`.
- **The analyzer.** A timed state machine per session decides whether an agent works or waits
  (`AnalyzerState`). Exactly when it decides what is in `AnalyzerVerdicts`. Its rates are bounded
  (`AnalyzerRuns`) and silence settles it (`AnalyzerSilence`); `OutputAnalyzer` is the object.
- **Next up.** The list of what to do next: two stable sorts, a merge of the user's order
  into the default order, hiding (`StableSort`, `NextUpOrder`, `NextUp`). What stands where, by
  session status and the other records of the input, is in `NextUpPlaces`.
- **Server-sent events.** The printer in the backend against the chunk parser in the desktop
  application, for the subset of section 9.2 of the WHATWG HTML Living Standard that they use
  (`ServerSentEvents`).
- **Recurring tasks.** Civil dates (`CivilDates`), their keys (`DateKeys`), when a recurring
  task is due and how often it generates a manual task (`RecurringTasks`), and on which dates,
  frequency by frequency (`RecurringDates`).
- **The session registry.** Live sessions, updates and events that arrive before their
  session, tombstones (`SessionEntries`, `SessionRegistry`; `SessionBackend`, the object), and
  what the registry holds, read off the requests (`SessionHistories`).

`Sequences`, `Lines`, `Decimals` and `Wrappers` hold the notions these share.

Where the program changes state in place, the model is a class with the program's fields,
and each method is proved to take the step that a function describes. The theorems are about
those functions and about runs of them. Verify everything with `dafny verify dfyconfig.toml`.

## What the code does, where that may surprise

- The gateway's mirror loses output that shares a chunk with the `subscribed` reply: lines are
  handled in a row, and the code after `await` runs only then. The mirror is fed everything if
  and only if there is no such output. It can look right all the same: with an empty snapshot,
  or once later output has pushed the snapshot out, what it shows is a tail of the stream again
  (`SupervisorClient.MirrorIsStreamIff`, `Pipeline.MirrorFollowsSession`).
- When two callers subscribe to one session at once, the second reply seeds the mirror afresh
  (`SupervisorClient.ReceiveExact`).
- A removal that shares a chunk with the reply does not clear the mirror: the continuation runs
  after it and mirrors a dead session (`SupervisorClient.RemovalClearsIff`,
  `SupervisorClient.RemovedSessionRevived`). The dead session is then listed as well; this is
  the only way in which the gateway's list goes wrong (`GatewayList.ListRightIff`).
- A removal deletes a session's subscriber set, but not the session's id in its subscribers' own
  lists (`SupervisorProtocol.RunLists`).
- `IPC_MAX_LINE_BYTES` counts UTF-16 code units, not bytes, and caps what is buffered, not
  lines: a longer line passes when its newline arrives in the same chunk
  (`LineBuffer.LongLineInOneChunk`). The claim that a dropped line was over the cap holds; the
  converse does not. The scrollback cap counts bytes before JSON escaping, so a full scrollback
  of control characters makes a `subscribed` line over the line cap, and in some chunks, single
  units for one, the gateway drops the connection for it (`WireLength.SnapshotLineTooLong`,
  `LineBuffer.OversizedLineDrops`, `LineBuffer.NeverTooLongIff`).
- A client resize between zero and one passes the guard and is recorded as zero. The analyzer
  rejects a zero size, the supervisor is sent it (`GatewayTables.ResizeKeepsUsableIff`).
- The flap hold does not stop a promotion caused by the interrupt affordance; exactly when it
  does not is `AnalyzerRuns.HoldYieldsIff`. The rate bounds hold all the same, because they rest
  on the count of recent changes alone.
- A silence can leave a session without any status: exactly when it never had one and the
  affordance shows without a prompt (`AnalyzerSilence.SilenceConverges`). It then never gets one
  during the silence.
- Date keys pad months and days but not years: years 100 to 999 parse but do not print back,
  and years 0 to 99 are taken for 19xx and rejected (`DateKeys.ParseIff`, `DateKeys.KeyRoundTripIff`).
- Updates converge in status and time, but not always in exit code
  (`SessionEntries.ExitCodeConvergesIff`). Of several updates that wait for a session, the last
  to arrive is kept, not the newest (`SessionRegistry.QueueThenCreate`).
- Posting a terminal event binds its session before the event is handled, however old the event
  is, and takes any detached session back (`SessionEntries.PostingIff`). So events queued before
  their session's creation and the same events posted after it can end in another status or
  binding (`SessionRegistry.LatePostRevives`, `SessionRegistry.LatePostRebinds`); in order and
  with nothing after a disconnection they do not (`SessionRegistry.EarlyOrLate`).
- An event stream that breaks off is continued by the next one: one event of the lost stream may
  still be dispatched (`ServerSentEvents.StreamResumes`).
- An event name or payload that is empty or ends in CR does not survive the event stream
  (`ServerSentEvents.RoundTripIff`).

## Model

| member | source | states |
|---|---|---|
| Scrollback.AppendRetained | shell/supervisor/ipc-server.ts:113-123 | For any history of appends, the eviction loop leaves exactly the longest tail of whole chunks that fits the cap, or the newest chunk alone when that one is too big; one append preserves this whatever the weight and the cap. |
| Scrollback.RetainedUnique | shell/supervisor/ipc-server.ts:119-122 | That description determines the ring: no other content meets it. |
| Scrollback.AppendedRepresents | ws-server/supervisor-client.ts:208-218 | The same loop in the gateway mirror keeps chunks and `totalBytes` equal to what the history of appends demands. |
| Scrollback.AppendScrollback | shell/supervisor/ipc-server.ts:113-123 | The in-place loop with its running byte counter computes that ring, counter included. |
| Scrollback.SnapshotIsBoundedTail | shell/supervisor/ipc-server.ts:125-129 | A snapshot is a contiguous tail of everything appended and within the byte cap in UTF-8, unless it is the newest chunk alone. |
| Scrollback.Utf8LengthSubadditive | shell/supervisor/ipc-server.ts:116 | Joining chunks never needs more UTF-8 bytes than the chunks did, surrogate pairs split across chunks included. |
| SupervisorProtocol.StepKeepsInv | shell/supervisor/ipc-server.ts:234-262 | Every PTY event, request and socket event keeps the tables consistent: rings equal to their histories, every subscriber connected, authenticated and listing the session, nothing but errors sent before `hello`. The converse of the listing is `RunLists`. |
| SupervisorProtocol.RunKeepsInv | shell/supervisor/ipc-server.ts:264-504 | The same over every run. |
| SupervisorProtocol.RunLists | shell/supervisor/ipc-server.ts:386-393 | The exact relation of the two tables over every run: a connection lists the sessions that count it as subscriber and, apart from these, exactly the stale ids, of sessions removed while it was subscribed and not asked about since. |
| SupervisorProtocol.RemovalLeavesStaleId | shell/supervisor/ipc-server.ts:108-111 | A removal takes the subscriber set away and leaves the id in the list of every subscriber. |
| SupervisorProtocol.StepAppends | shell/supervisor/ipc-server.ts:153-199 | Exactly which frames one event appends to each open socket, and that it changes nothing already written. |
| SupervisorProtocol.ClosedStep | shell/supervisor/ipc-server.ts:131-154 | Nothing is written to a destroyed or closed socket, and it does not come back. |
| SupervisorProtocol.OutputToSubscribersOnly | shell/supervisor/ipc-server.ts:187-199 | PTY data goes to a socket exactly once if it subscribes to the session, and not at all otherwise, however often it subscribed. |
| SupervisorProtocol.StepSubscription | shell/supervisor/ipc-server.ts:362-400 | A subscription lasts until unsubscribe, removal or close, and begins only with a subscribe. |
| SupervisorProtocol.StepProduced | shell/supervisor/ipc-server.ts:238-242 | One event adds exactly its own data to what a session has produced. |
| SupervisorProtocol.SubscribeStep | shell/supervisor/ipc-server.ts:362-390 | Subscribing writes the `subscribed` frame with the ring as it stands and registers the socket in one step. |
| SupervisorProtocol.SubscribedRun | shell/supervisor/ipc-server.ts:238-262 | While subscribed, the output frames carry exactly the data produced in the run, in order. |
| SupervisorProtocol.Handover | shell/supervisor/ipc-server.ts:362-390 | Snapshot, then live: the scrollback of a `subscribed` frame and all later output frames on the socket form one contiguous tail of all the session ever produced, for every run that neither unsubscribes, removes the session nor loses the socket. A repeated subscribe doubles nothing. |
| SupervisorProtocol.SilentUnlessSubscribed | shell/supervisor/ipc-server.ts:187-199 | Without a subscribe no output frame of the session is written, so `subscribed` comes first. |
| SupervisorLifecycle.ExitThenRemoval | shell/core/session-manager.ts:57-67 | The end of a session, over any run: its first exit is remembered and puts one more exit frame on the wire of exactly its open subscribers; the first removal after that leaves nothing of the session in any table and puts one more removed frame on the wire of exactly the open authenticated connections. Nothing else before or between adds such a frame, a removal before the exit included. |
| SupervisorLifecycle.OneExitPerLife | shell/supervisor/ipc-server.ts:243-258 | Over any run, across removals and re-creations, a wire gains at most one exit frame for each life of the session. |
| SupervisorLifecycle.StepLife | shell/core/session-manager.ts:57-67 | A live session leaves the table exactly by a removal after its exit, and is exited exactly from its exit on. |
| SupervisorLifecycle.StepWires | shell/supervisor/ipc-server.ts:153-199 | For every connection, also one still to come: one event appends exactly its frames to the wire. |
| SupervisorLifecycle.StepKeys | shell/supervisor/ipc-server.ts:234-262 | The live sessions change exactly by a successful creation of an authenticated connection and by a removal after an exit. |
| SupervisorLifecycle.GatewaysKnowSessions | shell/supervisor/ipc-server.ts:265-288 | After any run, replaying what an open authenticated connection was sent (session lists, creations, removals) gives exactly the live sessions. |
| SupervisorLifecycle.RunTells | shell/supervisor/ipc-server.ts:177-185 | The same from any state in which it holds, for all connections at once. |
| SupervisorLifecycle.OnlyHelloAuthenticates | shell/supervisor/ipc-server.ts:264-294 | Only an accepted hello of its own authenticates a connection, over any run. |
| SupervisorLifecycle.SubscriptionExactly | shell/supervisor/ipc-server.ts:362-400 | After every event a connection is a subscriber exactly if it has just subscribed to a live session and is authenticated, or was one and the event is neither its unsubscribe, its close nor the removal. |
| SupervisorLifecycle.RefusedExactly | shell/supervisor/ipc-server.ts:289-450 | A request is answered with an error exactly if its sender has not said hello, the id to create is taken or the process does not start, or the session is not live; then with that error alone, and no table changes. |
| SupervisorServer.IpcServer.WriteTo | shell/supervisor/ipc-server.ts:177-199 | The fan-out loop writes once to each open target and destroys exactly those over the backlog limit. |
| SupervisorServer.IpcServer.OnConnection | shell/supervisor/ipc-server.ts:454-471 | Takes the protocol step and keeps the invariant. |
| SupervisorServer.IpcServer.OnHello | shell/supervisor/ipc-server.ts:265-288 | Takes the protocol step: greeting and session list, or one error. |
| SupervisorServer.IpcServer.OnCreate | shell/supervisor/ipc-server.ts:304-328 | Takes the protocol step: a new id is admitted and broadcast before the reply, a known id or a failed spawn is refused. |
| SupervisorServer.IpcServer.OnSubscribe | shell/supervisor/ipc-server.ts:362-390 | Takes the protocol step, in the order snapshot, frame, registration. |
| SupervisorServer.IpcServer.OnUnsubscribe | shell/supervisor/ipc-server.ts:391-400 | Takes the protocol step. |
| SupervisorServer.IpcServer.OnData | shell/supervisor/ipc-server.ts:238-242 | Takes the protocol step: the ring first, then the fan-out. |
| SupervisorServer.IpcServer.OnExit | shell/supervisor/ipc-server.ts:243-258 | Takes the protocol step: exit frames to subscribers only, and the exit is remembered, without which no removal follows (`SupervisorLifecycle.ExitThenRemoval`). |
| SupervisorServer.IpcServer.OnRemoved | shell/core/session-manager.ts:57-67 | Takes the protocol step, which only follows an exit: the session and its buffers go, then everybody is told. |
| SupervisorServer.IpcServer.OnClose | shell/supervisor/ipc-server.ts:497-503 | Takes the protocol step: the connection leaves every subscriber set. |
| LineBuffer.NdjsonLineBuffer.Push | shared-shell/shell-ipc-protocol.ts:117-147 | The loop over the two fields computes the recursive splitter `Drain`, returned lines and complaint included. |
| LineBuffer.PushRefinesScan | shared-shell/shell-ipc-protocol.ts:123-147 | One push is one chunk of a reader that goes code unit by code unit and marks a line only when a chunk ends with more than the cap of it read. |
| LineBuffer.Framing | shared-shell/shell-ipc-protocol.ts:117-147 | For every stream and chunking: only whole lines of the stream come out, in order; a line that is missing was longer than the cap; what stays buffered is newline-free, within the cap, and the unfinished line itself unless that is over the cap. |
| LineBuffer.ChunkingDoesNotMatter | shared-shell/shell-ipc-protocol.ts:117-147 | When all lines fit, two chunkings of one stream emit the same lines and leave the same rest. |
| LineBuffer.NothingTooLong | shared-shell/shell-ipc-protocol.ts:132-146 | When all lines fit, no push reports a line as too long, so no reader drops the connection. |
| LineBuffer.NeverTooLongIff | shared-shell/shell-ipc-protocol.ts:132-146 | No way of cutting a stream into chunks makes the splitter report a line as too long if and only if all lines of the stream fit the cap. |
| LineBuffer.OversizedLineDrops | ws-server/supervisor-client.ts:237-242 | Any line over the cap is reported, and so drops the connection, in some chunks. |
| LineBuffer.MessagesRoundTrip | shared-shell/shell-ipc-protocol.ts:117-147 | Messages written one per line come out as written whatever the chunks, with nothing left over and no complaint. |
| LineBuffer.EndingsDoNotMatter | shared-shell/shell-ipc-protocol.ts:117-147 | Lines that fit come out as written whether a peer ends them with LF or CRLF, empty lines aside, in any chunks and without complaint. |
| LineBuffer.LongLineInOneChunk | shared-shell/shell-ipc-protocol.ts:141-145 | The cap is on what is buffered, not on lines: a line over the cap passes when its newline is in the same chunk, and is dropped when it is not. |
| Lines.CutAppend | shared-shell/shell-ipc-protocol.ts:123-140 | Cutting a stream into lines does not depend on where it is split. |
| Lines.CutIsLossless | shared-shell/shell-ipc-protocol.ts:123-140 | Cutting loses and moves nothing. |
| SupervisorClient.EventsKeepMirrors | ws-server/supervisor-client.ts:257-345 | Every batch, subscribe, unsubscribe and lost socket keeps each mirror equal to the ring of what was put into it and present exactly while subscribed; unsubscribing and closing clear it. Removal is `RemovalClearsIff`. |
| SupervisorClient.ReceiveExact | ws-server/supervisor-client.ts:235-251 | What any batch does to one session, exactly: if it answers requests for the session, the mirror is seeded afresh with the last such snapshot and the rest of the batch does not count; if not, a removal clears the mirror, and otherwise it is fed the output of the batch. |
| SupervisorClient.RepliesIff | ws-server/supervisor-client.ts:357-368 | A batch answers a request for the session exactly when some message is the first to settle a pending one and is a `subscribed` frame. |
| SupervisorClient.RemovalClearsIff | ws-server/supervisor-client.ts:320-326 | After a batch with a removal the session has a mirror if and only if the batch answers a request for it. |
| SupervisorClient.RemovedSessionRevived | ws-server/supervisor-client.ts:174-183 | Reply and removal in one chunk leave a mirror, a subscription and a cache entry of a dead session. |
| SupervisorClient.RunSound | ws-server/supervisor-client.ts:162-345 | In every reachable state each mirror is the ring of what it was fed. |
| SupervisorClient.KeptRun | ws-server/supervisor-client.ts:309-315 | While a session stays mirrored and no further request for it is answered, its mirror is fed exactly its own output, whatever happens to other sessions. |
| SupervisorClient.HoldsAllIff | ws-server/supervisor-client.ts:214-217 | A ring still holds its whole history exactly when that fits the cap or is one chunk. |
| SupervisorClient.MirrorIsStreamIff | ws-server/supervisor-client.ts:162-192 | Take the last reply to a request for a session, anywhere in a batch, then any events that do not end the subscription, other sessions' replies included. The mirror has been fed everything the socket carried from that reply on if and only if no output of the session followed it in its batch; it shows a tail of that if and only if it no longer starts with the snapshot, or the snapshot followed by the lost output ends with the snapshot. |
| SupervisorClient.SupervisorClient.AppendLocalScrollback | ws-server/supervisor-client.ts:208-218 | Appends to the mirror as specified; no mirror, no effect. |
| SupervisorClient.SupervisorClient.EnsureSubscribed | ws-server/supervisor-client.ts:162-171 | A mirrored session is served from the mirror, any other sends one request. |
| SupervisorClient.SupervisorClient.AfterAwait | ws-server/supervisor-client.ts:174-184 | The continuation subscribes and seeds the mirror afresh. |
| SupervisorClient.SupervisorClient.HandleMessage | ws-server/supervisor-client.ts:276-368 | Each frame changes cache, pending requests and mirrors as specified. |
| SupervisorClient.SupervisorClient.OnSocketData | ws-server/supervisor-client.ts:235-251 | All lines of a chunk are handled before any continuation runs. |
| SupervisorClient.SupervisorClient.Unsubscribe | ws-server/supervisor-client.ts:187-192 | Drops the mirror and tells the supervisor, if subscribed. |
| SupervisorClient.SupervisorClient.OnSocketClose | ws-server/supervisor-client.ts:257-265 | Nothing stays subscribed, mirrored or pending. |
| GatewayList.RunNames | shell/supervisor/ipc-server.ts:362-390 | On every wire of every run, a reply to a subscribe names a session that the frames before it tell of. |
| GatewayList.ReceiveCaches | ws-server/supervisor-client.ts:270-348 | A batch lists exactly what its frames list and the sessions for which it answers a request. |
| GatewayList.ListRightIff | ws-server/supervisor-client.ts:162-185 | The exact condition under which the client's list is right after a batch: no request is answered for a session that is gone when the batch ends. |
| GatewayList.GatewayListsSessions | ws-server/supervisor-client.ts:110-117 | End to end: supervisor run, wire, batches in any cut and calls in between. If every batch meets that condition, the list the gateway holds is exactly the set of live sessions. |
| GatewayList.SendsExactly | ws-server/supervisor-client.ts:162-192 | A call for a session without a mirror sends one request, under an id never used before; giving up a mirrored session sends one unsubscribe; no other event sends anything. |
| GatewayList.RunAsks | ws-server/supervisor-client.ts:383-408 | Over every run request ids ascend and each open request was sent for the session it is open for, so an answer seeds the mirror of the session asked about. |
| Pipeline.PipeDelivers | ws-server/supervisor-client.ts:235-251 | Messages printed one per line and sent in any chunks are handled in order, each once, and the connection is never dropped for length. |
| Pipeline.MirrorFollowsSession | ws-server/supervisor-client.ts:162-192 | Supervisor, pipe and gateway composed, from any state of each and after any earlier traffic, with other sessions opened and dropped meanwhile: after the last reply to a request for a session the mirror has been fed the snapshot and everything produced since if and only if the chunk that completed the reply completed no output of the session; and it shows a tail of all the session produced if and only if it no longer starts with the snapshot, or the snapshot followed by the lost output ends with the snapshot. |
| Pipeline.SplitAt | ws-server/supervisor-client.ts:235-251 | Every message of a run is handled at one place in one batch, with the pending requests and the messages around it that the end-to-end theorem speaks of. |
| WireLength.SnapshotLineBound | shell/supervisor/ipc-server.ts:375-385 | A snapshot within the byte cap takes at most six times as many code units on its line, and at most half the line cap if it has no control characters without a short escape and no surrogates. |
| WireLength.SnapshotLineTooLong | shared-shell/shell-ipc-protocol.ts:141-145 | The factor is reached: a ring full of escape characters has a snapshot whose line exceeds the line cap. |
| OutputCoalescing.StepKeepsInv | ws-server/ws-server.ts:588-605 | What waits for a session is non-empty, correctly counted, under 64 KiB, and has a callback queued, after every event. |
| OutputCoalescing.RunKeepsInv | ws-server/ws-server.ts:556-605 | The same over every run. |
| OutputCoalescing.StreamPreserved | ws-server/ws-server.ts:564-616 | What left the gateway for a session followed by what waits is what came in, unit by unit and with exits in place, over every run without a removal. |
| OutputCoalescing.AnalyzerSeesTheFlushes | ws-server/ws-server.ts:569-584 | In every reachable state the analyzer has been handed exactly the strings that were sent to the subscribers, in order. |
| OutputCoalescing.ExitComesLast | ws-server/ws-server.ts:607-631 | When an exit frame goes out, all output received before it has gone out, and nothing else. |
| OutputCoalescing.RemovalDropsWaiting | ws-server/ws-server.ts:633-640 | A removal loses exactly what was waiting. |
| OutputCoalescing.DeliveredInTime | ws-server/ws-server.ts:601-604 | Once as many callbacks have run as are queued now, whatever happens in between, everything received so far has left. |
| OutputCoalescing.FewFrames | ws-server/ws-server.ts:588-605 | Over any run a session's data leaves in at most one frame for every callback that ran, every exit of the session and every full 64 KiB that came in, however many chunks. |
| OutputCoalescing.OutputQueue.FlushOutput | ws-server/ws-server.ts:564-585 | Joins and emits the waiting parts, once. |
| OutputCoalescing.OutputQueue.OnOutput | ws-server/ws-server.ts:588-605 | Takes the specified step: ignore empty data, flush when full, schedule once. |
| OutputCoalescing.OutputQueue.RunImmediate | ws-server/ws-server.ts:601-604 | Takes the specified step of the oldest callback. |
| OutputCoalescing.OutputQueue.OnExit | ws-server/ws-server.ts:607-631 | Flushes before it emits the exit frame. |
| OutputCoalescing.OutputQueue.OnRemoved | ws-server/ws-server.ts:633-640 | Takes the specified step. |
| GatewayTables.LinkLinks | ws-server/ws-server.ts:230-238 | Adding a pair adds that pair alone and keeps the two maps inverse. |
| GatewayTables.UnlinkUnlinks | ws-server/ws-server.ts:240-253 | Removing a pair removes that pair alone, keeps the maps inverse and leaves no empty session set. |
| GatewayTables.UnlinkSessionUnlinks | ws-server/ws-server.ts:637-642 | Removing a session empties it alone and keeps the maps inverse. |
| GatewayTables.ClientGone | ws-server/ws-server.ts:255-272 | Taking a client off every session and out of its own map keeps the maps inverse. |
| GatewayTables.LeastUnique | ws-server/ws-server.ts:358-362 | Client sizes have one pointwise minimum. |
| GatewayTables.RowStepSends | ws-server/ws-server.ts:329-370 | After every event the effective size is the pointwise minimum of the recorded sizes, exists exactly while one is recorded, and is what the supervisor was last told; the event sends a resize exactly when it changes, and one unsubscribe exactly when the last of subscribers and watchers leaves. |
| GatewayTables.DetachSends | ws-server/ws-server.ts:240-253 | A detach sends at most one unsubscribe and at most one resize, exactly when due. |
| GatewayTables.CloseSends | ws-server/ws-server.ts:702-707 | A closing client that both subscribes and watches still causes at most one unsubscribe per session. |
| GatewayTables.SubscriptionBalance | ws-server/ws-server.ts:223-314 | Over every run the books balance: first arrivals equal unsubscribes sent, plus audiences lost to removal or disconnection, plus an audience still there. So none is missed, doubled or sent while somebody listens. |
| GatewayTables.SizesFitAlways | ws-server/ws-server.ts:341-377 | The size invariant in every reachable state. |
| GatewayTables.ResizeKeepsUsableIff | ws-server/ws-server.ts:341-350 | Recorded sizes stay at least one by one if and only if an accepted resize has neither number below one: positive fractions pass the guard and are stored as zero. |
| GatewaySizes.SizeInEffect | ws-server/ws-server.ts:329-377 | Read off the events alone: a client's wish is its last accepted resize, unless a detach, a removal, a disconnection or a close while attached came after it. A size is in effect exactly while somebody has a wish; its columns are the least whole columns, its rows the least whole rows over all wishes; and it is what the supervisor was last told. |
| GatewaySizes.RunTells | ws-server/ws-server.ts:223-377 | After any events the subscribers are exactly those who attached and have not left, the watchers exactly those who watch, and each recorded size is the whole cells of that client's wish. |
| GatewaySizes.RowStepTables | ws-server/ws-server.ts:223-350 | What one event does to subscribers, watchers and recorded sizes, numbers included. |
| GatewaySizes.GivenUpExactly | ws-server/ws-server.ts:240-253 | One event gives up the subscription exactly when it is a client's departure that leaves nobody attached or watching where somebody was, both read off the events. |
| Gateway.MinSize | ws-server/ws-server.ts:358-364 | The loop finds the pointwise minimum. |
| Gateway.Gateway.RecomputeEffectiveSize | ws-server/ws-server.ts:352-377 | Sets and sends the minimum if it changed; other sessions are untouched. |
| Gateway.Gateway.ForgetClientSize | ws-server/ws-server.ts:329-339 | Drops one size, and the effective size with the last one. |
| Gateway.Gateway.ApplyClientResize | ws-server/ws-server.ts:341-350 | Takes the row step for every session: whole columns and whole rows of an accepted resize are recorded for that client, as `GatewaySizes.SizeInEffect` reads them off the events. |
| Gateway.Gateway.ShouldKeepSupervisorSubscription | ws-server/ws-server.ts:223-228 | True exactly while somebody subscribes or watches. |
| Gateway.Gateway.AddSubscription | ws-server/ws-server.ts:230-238 | Takes the specified row step for every session and keeps the tables valid. |
| Gateway.Gateway.RemoveSubscription | ws-server/ws-server.ts:240-253 | Takes the specified row step for every session and keeps the tables valid. |
| Gateway.Gateway.RemoveAllSubscriptions | ws-server/ws-server.ts:255-272 | Leaves every session of a client as if one by one, sizes included. |
| Gateway.Gateway.AddStatusWatch | ws-server/ws-server.ts:274-282 | Takes the specified row step for every session and keeps the tables valid. |
| Gateway.Gateway.RemoveStatusWatch | ws-server/ws-server.ts:284-296 | Takes the specified row step for every session and keeps the tables valid. |
| Gateway.Gateway.RemoveAllStatusWatches | ws-server/ws-server.ts:298-314 | Leaves every watched session as if one by one. |
| Gateway.Gateway.OnClose | ws-server/ws-server.ts:702-707 | Takes the specified row step for every session and keeps the tables valid. |
| Gateway.Gateway.OnRemoved | ws-server/ws-server.ts:633-642 | Clears the one session and nothing else, without an unsubscribe. |
| Gateway.Gateway.OnDisconnected | ws-server/ws-server.ts:648-663 | Clears every session, without an unsubscribe. |
| AnalyzerRuns.FlappingIsCount | ws-server/output-analyzer.ts:455-468 | The alternating-run scan amounts to a count: a change is flapping exactly when at least four of all changes so far are at most 30 s old. |
| AnalyzerRuns.StoredIsEnough | ws-server/output-analyzer.ts:433-436 | Pruning the stored history at any later time gives what pruning the full log would. |
| AnalyzerRuns.TransitConsistent | ws-server/output-analyzer.ts:413-453 | A transition keeps the stored fields in step with the full log, which stays alternating, spaced and guarded. |
| AnalyzerRuns.ReactConsistent | ws-server/output-analyzer.ts:213-404 | Every output, input, typing, focus, resize and tick keeps them in step; output changes only a session that had no status, a tick changes at most once and only after the stabilization interval. |
| AnalyzerRuns.RunConsistent | ws-server/output-analyzer.ts:213-468 | The same over every run in which the gateway clock does not go back, whatever times clients claim. |
| AnalyzerRuns.FlapBound | ws-server/output-analyzer.ts:455-468 | Any such log has at most five changes and at most two promotions in any closed 30 s. |
| AnalyzerRuns.StatusIsCalm | ws-server/output-analyzer.ts:213-468 | However a session behaves, its status changes at most five times and is promoted to working at most twice in any closed 30 s, changes are at least 500 ms apart and alternate. |
| AnalyzerRuns.PendingIsRecentOutput | ws-server/output-analyzer.ts:213-226 | What the next tick writes to the screen is the longest tail of whole chunks since the last tick that fits 1 MiB, or the newest chunk alone. |
| AnalyzerRuns.ReportStep | ws-server/output-analyzer.ts:236-249 | A report names the status the session now has, every change is reported, and a heartbeat is due only 1.2 s after the last report of working. |
| AnalyzerRuns.HeartbeatsAreSpaced | ws-server/output-analyzer.ts:241-248 | Over every run no heartbeat comes within 1.2 s of an earlier report of working. |
| AnalyzerRuns.HoldYieldsIff | ws-server/output-analyzer.ts:299-385 | During the hold a session becomes working if and only if a tick sees the interrupt affordance and no prompt on a screen still for 5 s, with output at most 4 s old, no recent input, a status at least 500 ms old, and, if it has a status, fewer than four changes in the last 30 s. |
| AnalyzerRuns.HoldDoesNotStopAffordance | ws-server/output-analyzer.ts:379-383 | A state in which such a tick does promote, hold or no hold. |
| AnalyzerVerdicts.PromotedIff | ws-server/output-analyzer.ts:236-385 | Exactly when a session that is not working becomes working, and says so. Output of a session without a status, or a moved screen on a status 500 ms old, while no hold runs, the user does not type, typed at least 1.2 s ago, and the terminal is not focused or was focused at least 1.5 s ago; or the interrupt affordance on an idle screen heard within 4 s; and not four changes within 30 s. |
| AnalyzerVerdicts.PromotedOnMove | ws-server/output-analyzer.ts:307-315 | The same for a moved screen, guard by guard in one statement. |
| AnalyzerVerdicts.PromotedInRuns | ws-server/output-analyzer.ts:213-404 | The same in every run: status, time of the last change and history are those of the run's own log. |
| AnalyzerVerdicts.WaitsIff | ws-server/output-analyzer.ts:317-404 | Exactly when a session comes to wait for input, and says so: a tick on a status 500 ms old sees a screen still for 5 s with the last input 4 s old, and either no affordance, a prompt, or a working session not heard for 30 s. |
| AnalyzerVerdicts.HeartbeatIff | ws-server/output-analyzer.ts:241-248 | A working session repeats its status exactly on non-empty output 1.2 s after it last reported it. |
| AnalyzerVerdicts.HoldExactly | ws-server/output-analyzer.ts:421-427 | The hold of 15 s starts, or is prolonged, exactly when a change is called for that would be the fifth within 30 s. |
| AnalyzerVerdicts.TickSees | ws-server/output-analyzer.ts:277-296 | A tick writes all output heard to the screen, remembers what is visible, and notes the time exactly when the screen moved or an idle one affords an interrupt and was heard. |
| AnalyzerVerdicts.RunRecalls | ws-server/output-analyzer.ts:160-186 | What the guards read is what the signals of the run said last: times of output, input, typing and focus, and whether the user types and the terminal is focused. |
| AnalyzerVerdicts.RunResizes | ws-server/output-analyzer.ts:252-264 | For any terminal that keeps its size under writes: the screen judged has the size last asked for, in whole cells and at least one. |
| AnalyzerVerdicts.ResizeForcesLook | ws-server/output-analyzer.ts:252-264 | Besides a tick only a resize to another size touches what the last tick saw: the next tick then takes the screen for moved, unless nothing is visible. |
| AnalyzerSilence.FirstTick | ws-server/output-analyzer.ts:279-297 | The first tick of a silence drains the screen; after it only the interrupt affordance may act, for 4 s. |
| AnalyzerSilence.LateTick | ws-server/output-analyzer.ts:317-340 | A tick 30 s into a silence takes a working session to needs_input. |
| AnalyzerSilence.NeverAStatus | ws-server/output-analyzer.ts:363-388 | A late tick of a silence leaves a session without a status if and only if it has none and its screen shows the affordance and no prompt. |
| AnalyzerSilence.SilenceWithoutStatus | ws-server/output-analyzer.ts:368-375 | There is such a session. |
| AnalyzerSilence.SettledRun | ws-server/output-analyzer.ts:363-388 | Once settled, no tick or focus event of the silence reports or changes anything. |
| AnalyzerSilence.SilenceConverges | ws-server/output-analyzer.ts:277-404 | After any history, a silence whose first tick is at t1 has every working session in needs_input at any tick from t1 + 30 s on, reports that once, and reports nothing afterwards; a session is then without a status if and only if it had none and the affordance shows without a prompt. |
| OutputAnalyzer.ScanBack | ws-server/output-analyzer.ts:462-466 | The backward loop computes the length of the final alternating run. |
| OutputAnalyzer.IsWorkingNeedsInputFlapping | ws-server/output-analyzer.ts:455-468 | Decides flapping as specified. |
| OutputAnalyzer.VisitOne | ws-server/output-analyzer.ts:279-403 | Visiting one more session in a tick leaves the others as they were and adds at most its own report. |
| OutputAnalyzer.OutputAnalyzer.Transition | ws-server/output-analyzer.ts:413-453 | Takes the specified transition of one session and leaves the others alone. |
| OutputAnalyzer.OutputAnalyzer.Enqueue | ws-server/output-analyzer.ts:216-227 | The eviction loop on the pending chunks and its counter. |
| OutputAnalyzer.OutputAnalyzer.OnOutput | ws-server/output-analyzer.ts:213-250 | Takes the specified step of one session and leaves the others alone. |
| OutputAnalyzer.OutputAnalyzer.OnInput | ws-server/output-analyzer.ts:159-167 | Takes the specified step of one session and leaves the others alone. |
| OutputAnalyzer.OutputAnalyzer.OnUserTyping | ws-server/output-analyzer.ts:169-174 | Takes the specified step of one session and leaves the others alone. |
| OutputAnalyzer.OutputAnalyzer.OnTerminalFocus | ws-server/output-analyzer.ts:176-180 | Takes the specified step of one session and leaves the others alone. |
| OutputAnalyzer.OutputAnalyzer.Resize | ws-server/output-analyzer.ts:253-264 | Takes the specified step of one session; a size that is not positive is ignored. |
| OutputAnalyzer.OutputAnalyzer.Refresh | ws-server/output-analyzer.ts:283-297 | Writes the pending chunks once, and tells whether the visible screen moved. |
| OutputAnalyzer.OutputAnalyzer.JudgeStable | ws-server/output-analyzer.ts:317-401 | Judges an unmoved screen as specified. |
| OutputAnalyzer.OutputAnalyzer.TickOne | ws-server/output-analyzer.ts:279-402 | Takes the specified tick of one session. |
| OutputAnalyzer.OutputAnalyzer.TickAll | ws-server/output-analyzer.ts:277-404 | Each session takes exactly its own tick step and reports at most once. |
| OutputAnalyzer.OutputAnalyzer.Reset | ws-server/output-analyzer.ts:406-411 | Forgets exactly that session. |
| ServerSentEvents.FeedAllIsLines | desktop/src/main/main.ts:687-697 | Only the lines of the whole stream matter, not its chunks. |
| ServerSentEvents.StreamReadsBack | http-server/core/sse.ts:15-18 | For one-line events after the preamble, in any chunks: exactly what each event reads back as, in order, and no parser state left over. |
| ServerSentEvents.ReadBackFaithfulIff | desktop/src/main/main.ts:699-733 | An event reads back as itself if and only if name and data are non-empty and do not end in CR. |
| ServerSentEvents.RoundTripIff | desktop/src/main/main.ts:687-733 | The desktop sees exactly the events written if and only if every one has such a name and such data. |
| ServerSentEvents.StreamResumes | desktop/src/main/main.ts:656-672 | The reader's globals outlive a dropped connection: from any half-read state, the next stream in any chunks dispatches at most one event of the lost one, which is named, then exactly its own events, and leaves the reader clean. |
| ServerSentEvents.ManyDataFields | desktop/src/main/main.ts:699-733 | Several data fields make one event, whose data are the fields joined by line feeds, under the name last given. |
| ServerSentEvents.BufferIsOneLine | desktop/src/main/main.ts:688-696 | What is buffered between chunks is never more than one unfinished line. |
| ServerSentEvents.PreambleIsSilent | http-server/modules/events/index.ts:18-20 | The `: connected` comment dispatches nothing. |
| ServerSentEvents.EventReader.HandleChunk | desktop/src/main/main.ts:687-697 | The loop over the buffer computes the specified reader. |
| ServerSentEvents.EventReader.HandleBackendLine | desktop/src/main/main.ts:699-716 | One line changes the globals as specified. |
| ServerSentEvents.EventReader.DispatchEvent | desktop/src/main/main.ts:718-733 | Dispatch resets name and data, and drops empty data. |
| StableSort.FilterSort | shared/next-up.ts:79-82 | A stable sort commutes with leaving elements out. |
| StableSort.SortIsStable | shared/next-up.ts:79 | Sorting by the rank a comparator follows is a stable sort by that comparator. |
| StableSort.StableSortIsSort | shared/next-up.ts:79-82 | There is no other stable sort by it. |
| NextUpOrder.NormalizeSlackNextUpOrder | shared/next-up.ts:354-367 | The in-place re-sort of the Slack keys computes its specification. |
| NextUpOrder.SyncNextUpOrder | shared/next-up.ts:120-134 | The scan with `splice` and the set of present keys computes its specification. |
| NextUpOrder.SyncOrderSpec | shared/next-up.ts:120-134 | For distinct available keys: a permutation of them, in which the kept keys other than Slack keep the user's relative order and Slack keys stand in default order. |
| NextUpOrder.SyncComplete | shared/next-up.ts:120-134 | An order that has every available key is only cut down; nothing is inserted and nothing moves. |
| NextUpOrder.SyncOrderIdempotent | shared/next-up.ts:120-134 | Synchronising twice is synchronising once. |
| NextUpOrder.SyncEmptyOrder | shared/next-up.ts:120-134 | Without a user order the default order stands. |
| NextUp.ConvertersBanded | shared/next-up.ts:197-255 | Every converted item has a numeric priority that only its source can have. |
| NextUp.ComparatorsFollowRanks | shared/next-up.ts:257-276 | On converted items both comparators are total preorders given by a rank. |
| NextUp.MixedBandCycle | shared/next-up.ts:257-265 | The bands are needed: at any one priority there are items of different sources on which the default comparator runs in a circle. |
| NextUp.DoneKeyInjective | shared/next-up.ts:141-145 | The done key is an injective string encoding of the key, and of the status and date it was hidden at. |
| NextUp.SlackStaysInDefaultOrder | shared/next-up.ts:79-82 | The second sort leaves Slack items in default order. |
| NextUp.StateOrderComplete | shared/next-up.ts:85-87 | The order of a created state holds every available key once, Slack in default order. |
| NextUp.VisibleOrder | shared/next-up.ts:80-81 | For visible items the merge of a complete order is its filter, and every visible key is in it. |
| NextUp.HidingCommutes | shared/next-up.ts:69-83 | Whatever is hidden, the list is the full list with the hidden items left out and every other item where it was. |
| NextUp.MarkDoneHidesOne | shared/next-up.ts:106-118 | Marking a key done takes exactly that item out of the list and leaves the order and all other items; an unknown key changes nothing. |
| NextUp.CreateStateIsFixedPoint | shared/next-up.ts:85-95 | Creating the state again from itself changes nothing. |
| NextUp.BuildIsTheSort | shared/next-up.ts:69-83 | Any results two stable sorts may give for the two comparators are the modelled list. |
| NextUp.BuildOrdered | shared/next-up.ts:69-83 | The list is a sorted permutation of the visible items that are not done. |
| NextUp.BandsIgnoreUserOrder | shared/next-up.ts:267-291 | No user order moves an item across a band of display group, priority and manual priority. |
| NextUp.StoredOrderRulesInBand | shared/next-up.ts:267-276 | Inside a band the stored order decides, except that calendar events go by start time. |
| NextUp.UrgentFirst | shared/next-up.ts:286-295 | Urgent calendar events come first. |
| NextUp.UrgentIsUrgent | shared/next-up.ts:403-406 | An event is shown as urgent exactly when it runs now or starts within five minutes, and is not all-day. |
| NextUp.ConvertersWellKeyed | shared/next-up.ts:197-255 | Items converted from sources with distinct trimmed ids meet the hypotheses of the theorems above. |
| NextUpPlaces.ListedInPlaces | shared/next-up.ts:257-309 | Whatever order the user keeps and whatever is hidden, in terms of the input records: urgent events, then sessions that need attention, sessions in error, Slack, manual tasks, waiting or starting sessions, stopped or detached ones, the other events, running sessions, paused ones. Tasks go by the user's priority number, Slack by rank and then oldest first, events by start; without a user order, sessions and tasks go newest first. |
| NextUpPlaces.ListedExactly | shared/next-up.ts:69-83 | A record of the input (an event only while it is on today's calendar) is listed exactly if its hiding key is not done, then once, and nothing else is listed. |
| NextUpPlaces.ListedFollowsOrder | shared/next-up.ts:267-276 | In one place, and with the same priority number, sessions and tasks stand as the stored order has their keys. |
| CivilDates.NextDayNumber | http-server/utils/date.ts:25-26 | The closed day-number formula counts: the next civil day has the next number, leap years and month ends included. |
| CivilDates.NumberOrder | http-server/utils/date.ts:24-28 | Day numbers identify dates and order them as the calendar does. |
| CivilDates.DiffIsCounting | http-server/utils/date.ts:24-28 | The day difference is n exactly when counting n days from one date reaches the other, and it is antisymmetric. |
| CivilDates.WeekdaysCycle | http-server/modules/recurring-tasks/scheduler.ts:53 | Weekdays follow each other in turn. |
| CivilDates.CarryNumber | http-server/utils/date.ts:20 | The Date constructor carries days that do not fit a month as day arithmetic. |
| CivilDates.DaysInMonthIff | http-server/utils/date.ts:30-32 | Day zero of the next month is the last day of this one, except in February of the year 0. |
| DateKeys.NewDateExact | http-server/utils/date.ts:20-21 | The constructor leaves exactly the real dates after the year 99 as they are. |
| DateKeys.ParseIff | http-server/utils/date.ts:14-22 | Parsing accepts exactly the real dates of the years 100 to 9999 in the one four-two-two form, and finds the date written. |
| DateKeys.KeyRoundTripIff | http-server/utils/date.ts:7-22 | Printing then parsing gives the date back if and only if the year is 1000 to 9999. |
| DateKeys.ParsedKeyPrintsIff | http-server/utils/date.ts:7-22 | Parsing then printing gives the key back if and only if the year is at least 1000. |
| DateKeys.KeysDiffer | http-server/utils/date.ts:7-12 | Different dates have different keys, whatever the year. |
| DateKeys.TimeIff | http-server/modules/recurring-tasks/schedule-parse.ts:59-65 | Exactly the times of a day are accepted, in one form, with the right minute count. |
| RecurringTasks.IntervalDueIff | http-server/modules/recurring-tasks/scheduler.ts:56-63 | An interval task is due exactly on its anchor and every n days after it, by counting days. |
| RecurringTasks.MonthlyDueOnce | http-server/modules/recurring-tasks/scheduler.ts:65-69 | A monthly task is due on exactly one date of every month. |
| RecurringTasks.FiresExactlyWhenDue | http-server/modules/recurring-tasks/scheduler.ts:24-41 | Over any scheduler runs whose dates do not go back, a task generates on precisely the dates some run finds it due and creatable, except the date it last generated on. |
| RecurringTasks.FiresAtMostOncePerDate | http-server/modules/recurring-tasks/scheduler.ts:27-34 | The dates of generation strictly increase. |
| RecurringTasks.NewTaskFires | http-server/modules/recurring-tasks/service.ts:25-40 | A new task generates exactly on the due dates that get a run at or after its time, except its creation date when created already due. |
| RecurringTasks.AtMostOncePerTaskAndDate | http-server/modules/recurring-tasks/scheduler.ts:24-41 | Over all runs that add, remove and check tasks, from any stored tasks: no task generates twice for a date. |
| RecurringTasks.TasksIndependent | http-server/modules/recurring-tasks/scheduler.ts:27-35 | Among tasks that are added, removed, evicted and fired in any order, each generates as it would alone over the scheduler runs that find it in the list, and not at all once it has left. |
| RecurringTasks.AddedTaskGenerates | http-server/modules/recurring-tasks/service.ts:12-47 | Exactly once in any history: an added task generates on precisely the dates on which some scheduler run finds it in the list and due, except its creation date when created already due. |
| RecurringTasks.RecurringTaskList.RunTask | http-server/modules/recurring-tasks/scheduler.ts:28-34 | One task generates, and is marked, exactly when it fires. |
| RecurringTasks.RecurringTaskList.RunDueRecurringTasks | http-server/modules/recurring-tasks/scheduler.ts:24-41 | The loop updates every task and logs every generation as specified, and reports a change exactly when something was generated. |
| RecurringTasks.RecurringTaskList.CreateRecurringTask | http-server/modules/recurring-tasks/service.ts:25-46 | Puts the task in front with its initial date and keeps the list at 100. |
| RecurringTasks.RecurringTaskList.RemoveRecurringTask | http-server/modules/recurring-tasks/service.ts:49-57 | Removes the first task of that id and tells whether there was one. |
| RecurringTasks.RecurringTaskList.constructor | http-server/modules/sessions/persistence.ts:41 | At most 100 stored tasks are loaded. |
| RecurringDates.AddedTaskGeneratesOn | http-server/modules/recurring-tasks/scheduler.ts:43-69 | Frequency by frequency, in any history: an added task generates on a date exactly if it is enabled and creatable and some scheduler run of that date finds it in the list at or after the time its string denotes, and the date is one of its own: any date for a daily task; a listed weekday for a weekly one or one without frequency; the anchor or every n days after it; the day of the month, or the last one of a shorter month. Excepted is the date of its creation when it already met all this then. |
| RecurringDates.StoredTaskGenerates | http-server/modules/recurring-tasks/scheduler.ts:24-41 | The same for a stored task, except the date it had generated on before. |
| RecurringDates.NeverGenerates | http-server/modules/recurring-tasks/scheduler.ts:43-47 | A disabled task, one that is refused and one whose time cannot be read never generate. |
| RecurringDates.DueIff | http-server/modules/recurring-tasks/scheduler.ts:43-54 | The due test in those terms. |
| RecurringDates.AnchorIff | http-server/modules/recurring-tasks/scheduler.ts:56-60 | Exactly which date an interval is counted from: the stored one, or the date of creation when its year has four digits. |
| RecurringDates.FallsOnIff | http-server/modules/recurring-tasks/scheduler.ts:53 | The weekday that `getDay()` gives is the one found by counting days from Thursday 1 January 1970, forwards or backwards. |
| RecurringDates.ListStep | http-server/modules/recurring-tasks/service.ts:12-57 | A new task comes in front and pushes out the last of a hundred; a removal takes out that task alone; a scheduler run none; the order of the others stays. |
| SessionEntries.PlainStays | shared/sessionManager.ts:177-185 | An update applies to a session that is neither paused nor detached exactly when it is not older than the last one. |
| SessionEntries.NewestWins | shared/sessionManager.ts:177-185 | Last writer wins: any delivery order and repetition ends in the status and time of the newest update, or changes nothing when all are too old. |
| SessionEntries.OrderDoesNotMatter | shared/sessionManager.ts:354-363 | Two deliveries of the same updates end in the same status and last activity. |
| SessionEntries.ExitCodeConvergesIff | shared/sessionManager.ts:365-369 | The exit code is independent of the order if and only if the newest update decides it, or no update that still counts would have changed it. |
| SessionEntries.DivergesWhen | shared/sessionManager.ts:365-369 | Otherwise two concrete orders of the same updates end in different exit codes. |
| SessionEntries.PostingIff | http-server/modules/terminals/parse.ts:78-83 | Posting an event, which binds the session first, comes to the same as handling it (the time of the last status change apart) if and only if: for a session that is attached or that the event brings back, the event is not stale or tells no new binding; for any other detached session, it repeats the very disconnection. |
| SessionEntries.PostingSame | shared/sessionManager.ts:244-261 | For an attached session and an event that is not stale the two are equal in every field. |
| SessionEntries.OrderlyStep | shared/terminalEvents.ts:217-226 | Handling an event in time sets the time of the last update, and detaches only at a disconnection, for any parser that dates updates by their event and detaches on disconnections only. |
| SessionRegistry.StepKeepsInv | http-server/modules/terminals/apply.ts:14-33 | Every request keeps: tombstones, live sessions and queues disjoint; queues bounded and their own; shell entries pointing to live sessions. |
| SessionRegistry.RunKeepsInv | http-server/modules/terminals/apply.ts:14-126 | The same over every run. |
| SessionRegistry.StartedInv | http-server/modules/sessions/persistence.ts:33-39 | It holds at the start. |
| SessionRegistry.Created | http-server/modules/sessions/index.ts:167-197 | What a creation does to each table, flushing included. |
| SessionRegistry.RemovedForever | http-server/modules/terminals/apply.ts:118-126 | A removed id is never live again and nothing ever waits for it. |
| SessionRegistry.RemoveIsFinal | http-server/modules/sessions/index.ts:224-232 | After a removal, whatever is requested: not live, nothing waiting, no shell entry. |
| SessionRegistry.QueueIsLast200 | http-server/modules/terminals/apply.ts:83-88 | Until its session is created an id has waiting exactly the last 200 events that arrived for it, in order. |
| SessionRegistry.QueueThenCreate | http-server/modules/sessions/index.ts:171-196 | Deliveries before the creation leave the created session in the state to which the update that arrived last, and then the last 200 events, applied when the queues are flushed, take a new entry; no other table remembers them. |
| SessionRegistry.CreateThenPost | http-server/modules/terminals/index.ts:61-74 | What posts to a live session do, each of which binds it before the event is handled. |
| SessionRegistry.EarlyOrLate | http-server/modules/terminals/index.ts:61-74 | Deliveries before the creation and the last update and last 200 posts after it end in one state, all tables included, when those events are in order from the update on and none follows a disconnection. |
| SessionRegistry.LatePostRevives | shared/sessionManager.ts:249-257 | Otherwise the status can differ: an event after a disconnection finds a queued session detached, and brings a live one back. |
| SessionRegistry.LatePostRebinds | shared/sessionManager.ts:248 | And the binding can differ: a stale event rebinds a live session, not a queued one. |
| SessionRegistry.EventsBeforeOrAfter | http-server/modules/terminals/index.ts:61-74 | Up to 200 posts may come before or after the creation, with the same result in every table, when their times do not go back and none follows a disconnection. |
| SessionHistories.BindingIsLast | http-server/modules/terminals/parse.ts:43-51 | As long as it is not removed, and however often it is created again, a session is bound to the terminal reference and process id last named by a post for it, stale posts included. |
| SessionHistories.CreatedAgain | shared/sessionManager.ts:90-163 | Creating a live session makes it a new one, apart from the terminal it is bound to and the time of its last change of status. |
| SessionHistories.ShellStandsFor | http-server/modules/sessions/index.ts:319-326 | After any run from the stored sessions a shell session stands for the session that the last creation for it made, if not removed since; otherwise for the session of its own name, if live; otherwise for none. |
| SessionHistories.ReportIsUpdate | http-server/modules/sessions/index.ts:234-296 | A report of an agent's status is an update of the session its shell session stands for, and touches no session when there is none or the status is unknown; the session found is remembered for the shell session. |
| SessionHistories.PauseHolds | shared/sessionManager.ts:223-242 | A pause takes any live session that has neither ended nor been detached; until an update to running, a post for it, a re-creation or a removal, nothing of it changes but the time of its last activity. |
| SessionBackend.Backend.constructor | http-server/modules/sessions/persistence.ts:14-39 | Starts with the stored sessions live, each its own shell session. |
| SessionBackend.Backend.ApplyUpdate | shared/sessionManager.ts:177-185 | Applies to a live session and tells whether there was one. |
| SessionBackend.Backend.ApplyEvent | shared/sessionManager.ts:191-221 | Applies to a live session and tells whether there was one. |
| SessionBackend.Backend.OnTerminalUpdate | http-server/modules/terminals/apply.ts:14-22 | Takes the specified step. |
| SessionBackend.Backend.OnTerminalEvent | http-server/modules/terminals/apply.ts:24-33 | Takes the specified step, queueing with `push` and `shift`. |
| SessionBackend.Backend.BindSessionToTerminal | shared/sessionManager.ts:244-261 | Binds a live session and brings it back when detached, as specified. |
| SessionBackend.Backend.OnTerminalEventPost | http-server/modules/terminals/index.ts:45-76 | Takes the specified step: bind while parsing, then handle. |
| SessionBackend.Backend.FlushPendingTerminalUpdates | http-server/modules/terminals/apply.ts:90-96 | Applies the waiting update of a live session, and keeps it otherwise. |
| SessionBackend.Backend.FlushPendingTerminalEvents | http-server/modules/terminals/apply.ts:100-114 | The loop applies the waiting events in order, and keeps those without a session. |
| SessionBackend.Backend.OnCreate | http-server/modules/sessions/index.ts:147-197 | Takes the specified step: skip a removed id, create, forget the tombstone, map, flush. |
| SessionBackend.Backend.DropShellEntries | http-server/modules/sessions/index.ts:228-230 | Drops exactly the shell entries of the session. |
| SessionBackend.Backend.OnRemove | http-server/modules/sessions/index.ts:224-232 | Takes the specified step. |
| SessionBackend.Backend.OnPause | shared/sessionManager.ts:223-242 | Takes the specified step. |
| SessionBackend.Backend.OnTouch | shared/sessionManager.ts:165-175 | Takes the specified step. |
| SessionBackend.Backend.OnAgentStatus | http-server/modules/sessions/index.ts:234-296 | Takes the specified step: resolve, remember a direct hit, apply; tells whether a session was found. |

## Left out

Not modelled, or only as a parameter:

- Sockets, PTYs, ssh, WebSockets, the file system, databases, loggers, timers and clocks: they become events and parameters of the models. A socket over its backlog limit is part of an event.
- JSON: messages are values; `Pipeline` takes any printer and parser that agree and write one line. The parsers that check message fields, and the `internal_error` reply of a handler that throws.
- The VT screen, the prompt and affordance patterns, and the parser of terminal events: each is any deterministic function, the last with a state of its own.
- That dropping the oldest pending bytes leaves the screen the same: it cannot be said of an arbitrary screen.
- The analyzer's agent kind, reasons and matched text, which are for display and logs; `hadChunkSinceTick`, which nothing reads; `onCommandLine`, which only sets the agent kind.
- The `await` inside the analyzer's tick: a tick is one step for each session. Events that arrive while the screen is written, and ticks that overlap, are not modelled.
- Display fields: names, colours, links, descriptions, working directories, git state. Item and session records keep the fields that decide order and status.
- Aliasing: chunk buffers, rows and session entries are values in maps, which the methods replace; the program changes the objects in place. No object is shared between two keys in the program.
- Order of commands to the supervisor about different sessions: the log of commands is kept for each session. The iteration order of JavaScript maps and sets is left open.
- Exactly-once delivery to a WebSocket client that attaches while output waits: the replayed scrollback already holds those bytes and the flush sends them again (ws-server/ws-server.ts:564-605).
- That subscribers are connected clients and that sizes come from attached ones: attaching and watching are one step here, while a late continuation or a resize without attach break both.
- Request timeouts and reconnection of the gateway's supervisor client, and its requests other than `subscribe`.
- The publisher of manual tasks, whose order after a failed flush is not first in, first out; the settings files; routing; client metadata beyond the shell entry it may leave.
- `taskIdByTerminalRef`, which is not an exact inverse of the sessions, and the lookups by terminal, launch and working directory: a posted event carries the id it was resolved to (http-server/modules/terminals/parse.ts:43-51, 93-122).
- The kinds of posted events that are answered without being parsed, and a backend that does not own the state and so only binds (http-server/modules/terminals/index.ts:53-59, 72-74).
- Renaming of sessions, and detaching one by `detachSession`, which the backend does not call.
- `lastEffectiveUpdateAt`, which is written and never read.

Chosen representations:

- Terminal text is a sequence of 16-bit code units with the UTF-8 length written out; event streams and keys are strings of characters.
- Times and priorities are unbounded integers or reals; NaN and infinities do not occur, and a priority that the program would reject as not finite is given as already defaulted.
- Local time is a civil date of the year 100 or later and the minute of the day. Dates may not go back in the scheduler's theorems; the time of day may.
- `createManualTask` is a flag of each recurring task that says whether its text and priority are accepted (http-server/modules/manual-tasks/service.ts:12-26).

Stated for less than everything:

- SupervisorProtocol.Handover: for runs in which the socket stays open; what a destroyed socket was still sent is not a claim about its reader.
- Pipeline.MirrorFollowsSession: for messages whose lines fit the line cap, see `WireLength` for when they do; and for the last reply to a request for the session, since an earlier one is overwritten by it.
- NextUp.HidingCommutes: for items with distinct keys without outer blanks, and an order that holds every available key; the order of every created state is such an order.
- NextUp.SlackStaysInDefaultOrder: before any user order, which is the case the stored order is made from.
- AnalyzerSilence.SilenceConverges: a silence may have focus events, but no resize, since a resize makes the next tick see a moved screen.
- DateKeys.KeysDiffer: for the years from 0 on.
- GatewayList.GatewayListsSessions: for a client whose list starts empty. After a lost connection the old list stands until the supervisor's list arrives.
- SupervisorLifecycle.OneExitPerLife: a bound over all lives of a session; the exact count for one life is `SupervisorLifecycle.ExitThenRemoval`.
- SessionHistories.PauseHolds: until a post for the session, since only the parser knows whether that means running.
- SessionEntries.NewestWins: for sessions and updates that are neither paused nor detached; for the others the program keeps the status on purpose.
- SessionRegistry.EarlyOrLate: one direction, for runs; the exact condition for a single event is `SessionEntries.PostingIff`, and differences in the middle of a run may cancel out later, depending on the parser.
- SessionRegistry.EventsBeforeOrAfter: as EarlyOrLate.
- SessionRegistry.RemovedForever: for runs whose fresh UUIDs are not among the removed ids.
