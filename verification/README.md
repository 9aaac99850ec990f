# Verification of the Hopty agent

A Dafny model of the concurrent core of the Hopty agent, with proofs of what that core
promises in every run. `dafny verify dfyconfig.toml` checks the whole project.

## What is modelled

**The terminal lifecycle** (`internal/terminal/terminal.go`). The critical sections of a
session are functions on its fields (`TerminalFields`); the classes `Terminal.Session` and
`Terminal.Manager` run the same sections in place. `Lifecycle` lets everything that touches
one incarnation of a terminal interleave: the offer, the candidate callbacks, the DataChannel
callbacks, the shell waiter, the recovery timer, and any number of callers of `close`. A step
is one critical section, or one external call with its outcome. `World` puts all incarnations
together with the manager's map, the control loop and any number of calls of `CloseAll`. The
histories (offer generations, answers and candidates sent, callers, timers, connection states)
are part of the state, so that the theorems can speak about them. `TerminalTheorems` collects
the results; `Candidates`, `FlushOrder`, `Teardown`, `CloseOnce` and `RecoveryTimer` prove one
invariant each, and so does `ActiveOnce`. `StepEffects` says what every event brings about, `Progress` what can always
happen, `PeerOutlives` exactly when a peer connection is left open, `FailedLink`
when a failed link closes the session, and `LateReconnect` shows a close that comes too late.

**The control session** (`internal/control/session.go`, `internal/agent/daemon.go`). One
reader splits the inbound stream into two bounded channels, and requesters take replies from
one of them (`ControlSession`, `ReplyQueue`, and in place `ControlReader`). The order of the
agent's mutexes, and what each of them guards, is a model of its own (`LockOrder`,
`LockedCode`). `ControlEvents` dispatches the events.

**Smaller pieces.** The duplicate-name checker over JSON tokens (`Json`, `JsonDecoder`,
`DuplicateKeys`), the DataChannel frames and the copying of shell output (`Frames`,
`ShellOutput`), the identity file (`Identity`, `IdentityOutcome`, `IdentityFile`), the single
daemon (`SingleInstance`, `DaemonOutcome`, `RunDirectory`), the framing of the local socket (`LocalApi`), and the
profile block (`ShellBlock`).

## What the proofs found

Where the code and its documentation, or its evident intention, part ways, the model follows
the code.

- A peer connection can outlive its session. `offer` stores `t.pc` without looking at `closed`
  (`internal/terminal/terminal.go:123-125`). That happens if the offer was past its map lookup
  when `close` took its snapshot, and also if the lookup comes later, between the snapshot and
  the deletion from the map. `PeerOutlives.ExactlyIfNotStored` is the exact condition,
  `PeerOutlives.LateLookupLeavesPeer` a run of the second kind.
- A channel that is rejected stays open until its callback has closed it, also beyond the end
  of `close` or `CloseAll` (`internal/terminal/terminal.go:109-112`). Apart from channels in
  their callbacks, nothing but the accepted channel is ever open
  (`TerminalTheorems.OneShellOneChannel`).
- A session closed for a recovery timeout had no `Connected` processed between the arming and
  the firing of the timer. Between the firing and the close there may be one: `Stop` comes too
  late then (`LateReconnect.ClosedWhileConnected`, a run from the start). The reason text of a
  browser may also be the string `recovery_timeout` (`CloseCauses.TimeoutText`).
- `docs/protocol-v1.md:408` wants a failed channel to close at once. A processed `Failed` calls
  nobody (`TerminalTheorems.FailedOnlyArms`); when it closes the session all the same is
  `TerminalTheorems.FailedClosesExactlyIf`.
- A request takes the next reply, whatever its request id (`docs/protocol-v1.md:24` says that
  the id correlates them). After one timeout all later requests on the connection get foreign
  replies (`ReplyQueue.OwnReplyUntilTimeout`). When the reader stalls is
  `ReplyQueue.StalledExactlyIf`; five timeouts can do it (`ReplyQueue.FiveTimeoutsStall`), and
  it lasts until another request is written or the connection is given up
  (`ReplyQueue.StallEndsExactlyIf`). `pairing.state` counts as a reply, and a waiting request
  takes it (`ReplyQueue.PairingStateIsTaken`).
- A `terminal.close` event acts through its `Kind`; the payload documented for it
  (`docs/protocol-v1.md:229-243`) has none and closes nothing (`ControlEvents.ActsByKind`).
- A stream cut right behind a length prefix ends in the plain end-of-file error
  (`LocalApi.DecodeTruncated`).
- An identity file left incomplete by its creator is never repaired (`IdentityOutcome.BrokenForever`,
  `IdentityOutcome.CrashedCreator`). When a call can succeed at all is
  `IdentityOutcome.SucceedsExactlyIf`.
- Installing and uninstalling leaves one newline behind; the profile is the old one only if it
  was left alone (`ShellBlock.InstallThenUninstall`, `ShellBlock.RestoredExactlyIf`).
  Uninstalling twice may remove more than once (`ShellBlock.UninstallIsNotIdempotent`); exactly
  when is `ShellBlock.SecondRunChangesNothingExactlyIf`.

## Model

Every row states a property. The functions that only define what the code does in one step are
listed behind the table.

| member | source | states |
|---|---|---|
| TerminalTheorems.CandidatesConserved | internal/terminal/terminal.go:127-180 | In every reachable world, each local candidate is handed to `send` at most once; if the answer of the generation that accepted it was sent, it is handed over or still waiting, in exactly one place; if not, it is never handed over |
| TerminalTheorems.QuietMeansAllSent | internal/terminal/terminal.go:127-180 | With no offer under way and no callback before its send, a candidate was handed over exactly once if the answer of its generation was sent, and not at all otherwise |
| TerminalTheorems.AnswerBeforeCandidate | internal/terminal/terminal.go:145-172 | Every candidate signal is preceded by the answer of the very generation that accepted the candidate, restarts notwithstanding |
| TerminalTheorems.HeldInOrder | internal/terminal/terminal.go:148-168 | Candidates that had to wait for an answer leave in the order in which they were gathered, across offers |
| TerminalTheorems.MapHoldsTheLiving | internal/terminal/terminal.go:56-71 | No two undeleted incarnations share an id, and the map holds exactly the undeleted ones |
| TerminalTheorems.DeleteRemovesSelf | internal/terminal/terminal.go:334-336 | The delete by id in `close` removes the closing incarnation itself and no other entry |
| TerminalTheorems.OneCloseSignal | internal/terminal/terminal.go:316-346 | However many callers: no close signal until `close` gets to send it, exactly one from then on, after the removal from the map, with the first caller's reason; no caller returns before `close` has finished |
| TerminalTheorems.CloseAllTearsDown | internal/terminal/terminal.go:357-367 | When a call of `CloseAll` returns, every terminal in its snapshot is off the map and has sent one close signal, its shell and its accepted channel are closed, the open channels are exactly those in their callbacks, and a peer connection is open if and only if one exists that the snapshot of `close` missed; whoever began to close it, and whatever offer is under way |
| TerminalTheorems.CloseAllClosesEverything | internal/terminal/terminal.go:357-367 | Whatever happens between the call of `CloseAll` and its return: every terminal that was not deleted at the call is torn down at the return |
| Progress.CloseAllCanReturn | internal/terminal/terminal.go:357-367 | In every reachable world `CloseAll` can be called and can return |
| Progress.CloseCanReturn | internal/terminal/terminal.go:316-346 | Every caller of `close` can get its call back, at whatever stage another caller is, and the once-function has finished then |
| Progress.OfferCanBeAnswered | internal/terminal/terminal.go:93-157 | From every state without an offer under way, an offer or restart whose calls succeed sends the answer of the next generation, on the peer connection that is there or a new one, and sets the flag |
| Progress.HeldCandidatesCanLeave | internal/terminal/terminal.go:148-156 | After its answer, an offer can send exactly the candidates that waited, in order |
| Progress.ControlCanGoOn | internal/agent/daemon.go:284-298 | In every reachable world the control loop can get free for the next event: no offer and no call of `close` holds it for ever |
| TerminalTheorems.LoopWaits | internal/agent/daemon.go:285-298 | The control loop turns to the next event only when `offer`, or its call of `close`, has returned |
| TerminalTheorems.OneShellOneChannel | internal/terminal/terminal.go:108-238 | The open shell is exactly the one the fields name, until `close` is past it; an open channel is exactly the one the fields name, likewise, or one in its callback; a shell only behind an accepted channel; at most one shell and one peer connection ever |
| TerminalTheorems.NothingStartsAfterClosed | internal/terminal/terminal.go:108-238 | After a session is marked closed, over any further run of all terminals: no shell starts, no channel is accepted, and a channel that arrives is open exactly as long as it is in its callback |
| TerminalTheorems.ActiveExactlyOnce | internal/terminal/terminal.go:113-119 | A session sends one active signal for its shell, if it has one, or its callback can still send it; none without a shell |
| StepEffects.ShellStartsExactlyIf | internal/terminal/terminal.go:113-118 | When a channel opens: a shell starts, and the session names it, if and only if starting succeeds on an open session without one; otherwise `pty_start_failed` is called and nothing else changes |
| StepEffects.AcceptedExactlyIf | internal/terminal/terminal.go:108-114 | A channel is accepted if and only if it has the right label and is the first of an open session; otherwise it is rejected, and nothing else changes |
| StepEffects.RejectedIsClosed | internal/terminal/terminal.go:109-112 | A rejected channel is closed by its callback, and nothing else changes |
| StepEffects.DirectSendLeaves | internal/terminal/terminal.go:170-179 | A candidate whose callback is past the unlock can leave, and nothing else changes |
| StepEffects.CallersExactly | internal/terminal/terminal.go:86-346 | Every step adds exactly the callers of `close`, with exactly the reason texts, that a table of the events gives: shell exit, each kind of bad message, timeout, closed connection, browser, shutdown, failed start |
| StepEffects.MessageCalls | internal/terminal/terminal.go:267-296 | A message makes its session close with exactly the reason that the frame format gives, or changes nothing |
| StepEffects.FailedOfferEnds | internal/terminal/terminal.go:93-147 | An offer whose decoding, peer connection, negotiation or answer fails ends there and undoes nothing |
| TerminalTheorems.TimeoutOnlyAfterWindow | internal/terminal/terminal.go:297-315 | A session is closed for a recovery timeout only by a timer armed at least ten seconds before it fired, with no `Connected` processed in between |
| TerminalTheorems.OnePendingTimer | internal/terminal/terminal.go:297-322 | A pending timer is the one the field names, so there is at most one; none is pending after the critical section of `close` |
| TerminalTheorems.FailedOnlyArms | internal/terminal/terminal.go:297-304 | A processed `Disconnected` or `Failed` adds no caller of `close`, leaves `closeOnce` alone and changes nothing but the timer; on an open session a timer runs then, or has run out; on a closed one nothing changes |
| TerminalTheorems.FailedClosesExactlyIf | internal/terminal/terminal.go:297-322 | From a processed `Failed` with its timer running, over any run of all terminals: the timer can fire if and only if nothing reconnected, `close` took no snapshot, it did not fire yet, and ten seconds have passed since it was armed; `close` is called for it if and only if it fired; it closes the session if and only if that caller enters `closeOnce` |
| PeerOutlives.ExactlyIfNotStored | internal/terminal/terminal.go:98-126 | Once `close` has finished, a peer connection is open if and only if the offer held one at the snapshot that it had not stored, or created one after it |
| PeerOutlives.NoneWithoutLateOffer | internal/terminal/terminal.go:73-126 | None outlives the session if no offer stood between lookup and store at the snapshot and no later lookup finds the session |
| PeerOutlives.FoundUntilDeleted | internal/terminal/terminal.go:73-82 | An offer finds a session if and only if it is not deleted, closed or not |
| PeerOutlives.LateLookupLeavesPeer | internal/terminal/terminal.go:316-336 | A run from the start in which no offer was under way at the snapshot, nor any peer connection there, and yet one is left open |
| PeerOutlives.ClosingIsReached | internal/terminal/terminal.go:357-367 | The world from which that run starts is reached from the initial one |
| Teardown.FinishedIsTornDown | internal/terminal/terminal.go:316-346 | When `close` has finished, no shell is open, the open channels are exactly those in their callbacks, and a peer connection is open if and only if one exists that the snapshot missed |
| Teardown.PeerOutlivesExactlyIf | internal/terminal/terminal.go:98-126 | The condition above for one incarnation, over any run from the snapshot to the end of `close` |
| Teardown.NoLateOfferNoPeer | internal/terminal/terminal.go:98-126 | With no offer between lookup and store and none to come, no peer connection is created any more |
| Teardown.NothingStartsAfterClosed | internal/terminal/terminal.go:108-238 | The closed-session guarantee for one incarnation, over any run of its own |
| Teardown.OpenObjects | internal/terminal/terminal.go:98-346 | Exactly which shells, channels and peer connections are open, by fields, callbacks, the offer, the stage of `close` and its snapshot |
| Candidates.StepKept | internal/terminal/terminal.go:93-180 | Every step keeps: a candidate in at most one place, in exactly one under a sent answer, and every candidate behind its answer |
| FlushOrder.StepKept | internal/terminal/terminal.go:148-168 | Every step keeps: held candidates were sent in order, before all that are pending, which are in order too |
| CloseOnce.StepKept | internal/terminal/terminal.go:316-346 | Every step keeps: one close signal exactly from its sending on, with the first caller's reason; deleted exactly from the delete on; nobody returned before `closeOnce` has finished |
| ActiveOnce.StepKept | internal/terminal/terminal.go:113-119 | Every step keeps: active signals sent and still to be sent are as many as shells started |
| CloseOnce.FirstCallerStays | internal/terminal/terminal.go:317 | Whoever enters `closeOnce` first stays the first, and its reason stays |
| RecoveryTimer.StepKept | internal/terminal/terminal.go:297-322 | Every step keeps: timers match the history of connection states, one at most is pending, and a live session's named timer was not stopped |
| RecoveryTimer.DeadlineNeverMoves | internal/terminal/terminal.go:299-304 | No step moves the deadline of a timer; a repeated `Disconnected` or `Failed` changes no timer at all |
| RecoveryTimer.OneTimer | internal/terminal/terminal.go:299-311 | Any two pending timers are the same, and the session is then not closed |
| RecoveryTimer.ReconnectBeforeExpiry | internal/terminal/terminal.go:305-311 | `Connected` before the timer fires keeps it from firing in every continuation |
| RecoveryTimer.ReconnectAfterExpiry | internal/terminal/terminal.go:297-322 | `Connected` after it fired does not: from any state of the invariant with an expired timer, that run ends in a close for its timeout |
| LateReconnect.ClosedWhileConnected | internal/terminal/terminal.go:297-322 | Such a run from the start: the last state processed is `Connected`, and the session is closed for the timeout |
| FailedLink.OnlyArms | internal/terminal/terminal.go:297-304 | The arming guarantee for one incarnation |
| FailedLink.Closes | internal/terminal/terminal.go:297-322 | The exact conditions for one incarnation |
| RecoveryTimer.TimeoutMeansOutage | internal/terminal/terminal.go:297-315 | The timeout guarantee for one incarnation |
| CloseCauses.BrowserReason | internal/terminal/terminal.go:196-204 | The reason reported for a browser has 1 to 64 bytes, whatever it sent |
| CloseCauses.ReasonPassesThrough | internal/terminal/terminal.go:196-204 | A browser's reason is passed on unchanged if and only if it has 1 to 64 bytes |
| CloseCauses.TimeoutText | internal/terminal/terminal.go:196-204 | The text `recovery_timeout` comes from a timer or from a browser that sent it, and from nothing else |
| Lifecycle.Extend | internal/terminal/terminal.go:93-346 | Any run can be prolonged by any step enabled at its end |
| WorldSafety.StepKept | internal/terminal/terminal.go:56-367 | Every step of the world keeps all invariants: of each incarnation, of the map, of the serial offers, and of the running calls of `CloseAll` |
| WorldSafety.RunKept | internal/terminal/terminal.go:56-367 | So does every run |
| WorldSafety.Project | internal/terminal/terminal.go:56-367 | A run of the world is, seen from one incarnation, a run of that incarnation |
| WorldRuns.Lift | internal/terminal/terminal.go:56-367 | What one incarnation can do by itself, it can do among all terminals, leaving the others, the control loop and the calls of `CloseAll` alone |
| ControlEvents.RoutedIffActedOn | internal/control/session.go:37 | The reader routes a type to the daemon if and only if `handleControlEvent` acts on it for some payload |
| ControlEvents.OpensExactlyIf | internal/agent/daemon.go:337-341 | `terminal.open` opens a fresh terminal if and only if its id is not empty and not in use; otherwise nothing changes |
| ControlEvents.ActsByKind | internal/agent/daemon.go:342-351 | In every reachable world with a free control loop, a signal or close event for a known id begins an offer for `offer` and `ice_restart`, calls `close` with its reason for `close`, and changes nothing for any other kind, for none, or for an unknown id |
| ControlEvents.PairingExactlyIf | internal/agent/daemon.go:323-332 | An event pairs the agent if and only if it is `agent.paired`, verifies the pairing if and only if it is one of the two pairing events, and these touch no terminal |
| Terminal.Session.constructor | internal/terminal/terminal.go:69 | A new session has the zero value in every field |
| Terminal.Session.StorePeer | internal/terminal/terminal.go:123-125 | In place: whatever `closed` says, the peer connection is stored, and nothing else changes |
| Terminal.Session.BeginOffer | internal/terminal/terminal.go:127-130 | In place: resets the flag and drops the buffer; the rest is as before |
| Terminal.Session.FinishOffer | internal/terminal/terminal.go:148-152 | In place: sets the flag and hands out the whole buffer at once; the rest is as before |
| Terminal.Session.AcceptCandidate | internal/terminal/terminal.go:164-170 | In place: sent now if and only if the flag is set, else appended to the buffer; the rest is as before |
| Terminal.Session.SetDataChannel | internal/terminal/terminal.go:206-214 | In place: accepted and stored if and only if it is the first one of an open session; the rest is as before |
| Terminal.Session.StartPty | internal/terminal/terminal.go:215-231 | In place: a shell is stored if and only if it was started on an open session without one; the rest of the state is as before |
| Terminal.Session.ArmRecovery | internal/terminal/terminal.go:300-304 | In place: armed and named if and only if none is named and the session is open; the rest is as before |
| Terminal.Session.CancelRecovery | internal/terminal/terminal.go:306-311 | In place: forgets the timer and hands it out to be stopped; the rest is as before |
| Terminal.Session.MarkClosed | internal/terminal/terminal.go:318-324 | In place: marks closed and reads shell, channel, peer connection and timer at once; the rest is as before |
| Terminal.Manager.constructor | internal/terminal/terminal.go:50-54 | A new manager has no terminals |
| Terminal.Manager.Open | internal/terminal/terminal.go:56-71 | Succeeds exactly for a nonempty id that is not in the map; then adds a fresh zero session under it and changes no other entry |
| Terminal.Manager.Lookup | internal/terminal/terminal.go:74-79 | The session of the map, or none |
| Terminal.Manager.Delete | internal/terminal/terminal.go:334-336 | Removes that id and nothing else |
| Terminal.Manager.ActiveIDs | internal/terminal/terminal.go:347-355 | Every id of the map exactly once |
| Terminal.Manager.Snapshot | internal/terminal/terminal.go:358-363 | Exactly the sessions of the map, as many as it has entries |
| ShellOutput.CopyOutput | internal/terminal/terminal.go:250-266 | For any chunking and any interference: copying goes on until exactly one read has reported an error; the payloads sent are then a prefix of everything the reads delivered, and all of it unless the session was closed; every frame is at most 64 KiB and decodes to its chunk, also after the buffer was reused |
| ShellOutput.CopyOnce | internal/terminal/terminal.go:252-265 | One round sends what was read in one frame if the session is not closed, and leaves earlier frames alone |
| ShellOutput.SendChunk | internal/terminal/terminal.go:259 | The frame is new memory and carries the chunk through the decoder |
| ShellOutput.InterferenceIsSound | internal/terminal/terminal.go:206-346 | What the copier allows other goroutines to do covers every step of the lifecycle |
| Frames.VerdictMatchesDecoder | internal/protocol/protocol.go:86-114 | The session accepts a message if and only if it decodes as a PTY or a valid resize frame: the two validators agree on every input |
| Frames.DecodesExactly | internal/protocol/protocol.go:86-114 | Accepts exactly the frames the protocol allows, given byte by byte with their sizes and byte order, and splits off the first byte |
| Frames.VerdictExactly | internal/terminal/terminal.go:267-296 | For every message, text or binary, and every outcome of the PTY: the exact cause the session is closed for, by the decoder, if any |
| Frames.CallsExactly | internal/terminal/terminal.go:279-292 | The shell gets exactly the payload of a PTY frame and exactly the dimensions of a resize frame; the session stays open if and only if it takes them |
| Frames.EncodeResize | internal/protocol/protocol.go:116-124 | Succeeds exactly for dimensions from 1 to 1000; the frame has them byte by byte, higher byte first, and decodes |
| Frames.PutUint16 | internal/protocol/protocol.go:121-122 | The higher byte comes first, the two make up the value, and no other byte changes |
| ControlSession.RoutingTheorem | internal/control/session.go:21-51 | In every run, the daemon handles a prefix of the event-class envelopes and requests take a prefix of the others, in arrival order; at most 16 + 4 + 1 received envelopes are neither; all have version 1 |
| ControlSession.RoutedByType | internal/control/session.go:37-49 | In every run, the envelopes of the five wire types are, in order, those handled, queued as events and in hand, and all others those taken, queued as replies and in hand; neither kind is ever among the other |
| ControlSession.BoundIsReached | internal/control/session.go:21-23 | A run with 21 envelopes outstanding: the bound is exact |
| ControlSession.AllEventsCanBeHandled | internal/agent/daemon.go:289-294 | Whatever has arrived, all received events can get handled, in order, unless the reader dropped one |
| ControlSession.RoutedKept | internal/control/session.go:27-51 | Every step keeps the split: received events are those handled, queued and in hand; replies likewise; within the capacities |
| ReplyQueue.StallNeedsFive | internal/control/session.go:21-51 | The reader is stuck on the reply channel with nobody waiting only if timed-out requests and unsolicited replies are at least five together, given at most one answer per request the service got |
| ReplyQueue.StalledExactlyIf | internal/control/session.go:21-98 | In every run of such a service: stuck if and only if the connection still reads, nobody waits, and timed-out requests plus unsolicited replies exceed the unanswered requests by five |
| ReplyQueue.StallEndsExactlyIf | internal/control/session.go:45-49 | The next step ends a stall if and only if it is another written request or the cancellation |
| ReplyQueue.FiveTimeoutsStall | internal/control/session.go:90-98 | Five is enough: a run with five timeouts and five late answers ends stalled |
| ReplyQueue.LagTheorem | internal/control/session.go:75-98 | With requests one at a time, the request written as number n takes the reply-class envelope number n minus the timeouts before it, whatever it is; requests that could not be written do not count |
| ReplyQueue.OwnReplyUntilTimeout | internal/control/session.go:75-98 | If the service answers each request it got once and in order, that is the answer to number n minus the earlier timeouts; so it is its own if and only if no earlier request on this connection timed out, failed writes notwithstanding |
| ReplyQueue.PairingStateIsTaken | internal/control/session.go:37-49 | A run in which a waiting request takes an unsolicited `pairing.state` for its reply |
| ControlReader.Session.constructor | internal/control/session.go:21-23 | A new session has empty channels and histories |
| ControlReader.Session.Run | internal/control/session.go:27-51 | In place: ends only because a read failed, another version came, or the context ended while an envelope waited; all others went to their channels in order; nothing is lost between connection and consumers; the event channel is closed at the end |
| ControlReader.Session.Route | internal/control/session.go:37-49 | In place: the envelope is at the end of the channel that its wire type has, or was dropped because the context has ended |
| ControlReader.Session.RunOnce | internal/control/session.go:29-50 | In place: one round takes exactly one envelope off the connection, unless reading fails, and routes it, unless that ends the loop |
| ControlReader.Session.Await | internal/control/session.go:38-49 | Waiting ends with room in the channel or the end of the context; consumers extend what they took and keep the split |
| LockedCode.LockTheorem | internal/agent/daemon.go:84-243 | In every reachable state, for any number of goroutines and terminals: locks exclude, no two goroutines race for the map, a session, the flags, the connection or its writing, no cycle of goroutines waits on each other's locks, and some goroutine can go on as long as one is unfinished |
| LockedCode.BlockDisciplined | internal/terminal/terminal.go:316-346 | Every piece of code takes its locks in the order closeOnce, stateMu, session mu, manager mu, controlMu, writeMu, gives all back, and accesses shared data only under its guard, writing only with the guard for itself |
| LockedCode.BlockTouches | internal/agent/daemon.go:84-243 | What each piece of code reads and writes, in order |
| LockedCode.ClosesWithoutSessionMutex | internal/terminal/terminal.go:316-333 | `close` calls into the libraries with no lock but its own once |
| LockedCode.ExclusionKept | internal/agent/daemon.go:84-91 | Every step keeps mutual exclusion |
| LockOrder.NoCycle | internal/terminal/terminal.go:316-346 | For any disciplined programs, no chain of waiting goroutines closes, with readers that queue behind waiting writers included |
| LockOrder.NoDeadlock | internal/terminal/terminal.go:316-346 | For any disciplined programs, an unfinished state has a goroutine that can go on |
| LockOrder.WaitingClimbs | internal/agent/daemon.go:163-166 | Whoever is waited for is unfinished, and if it waits itself, waits for something later in the order |
| DuplicateKeys.HasDuplicateKeys | internal/protocol/protocol.go:126-174 | False if and only if the tokens are one complete JSON value (RFC 8259) with nothing after it, in which no object at any depth repeats a name |
| DuplicateKeys.Value | internal/protocol/protocol.go:129-168 | Accepts exactly a value free of repetitions at the cursor, and then stands right behind it; every recursive call has consumed tokens |
| DuplicateKeys.ObjectBody | internal/protocol/protocol.go:139-156 | Accepts exactly members with distinct names and clean values up to the closing brace |
| DuplicateKeys.ArrayBody | internal/protocol/protocol.go:157-164 | Accepts exactly clean elements up to the closing bracket |
| DuplicateKeys.OneMember | internal/protocol/protocol.go:142-153 | Accepts exactly a member whose name was not seen and whose value is clean |
| JsonDecoder.Decoder.Token | internal/protocol/protocol.go:130 | The library's token cursor: in place equal to its specification `Next`, errors included |
| Json.OneValue | internal/protocol/protocol.go:169-173 | A token sequence renders a value if and only if it parses to that value without a rest, so the value is unique |
| Json.ParseRendered | internal/protocol/protocol.go:129-168 | Parsing a rendered value gives it back with whatever follows |
| Json.ParsedRenders | internal/protocol/protocol.go:129-168 | What was parsed renders to the tokens it was parsed from |
| Identity.OneIdentity | internal/identity/identity.go:20-78 | For any number of processes, partial and failed writes and crashes at any step: all calls that succeed return the same 64 bytes, the whole of a secure file; a created file is secure and a prefix of its one creator's key |
| IdentityOutcome.BrokenForever | internal/identity/identity.go:38-55 | Once the file is incomplete and nobody writes it, no call succeeds in any continuation, not even one under way before, and the file stays as it is |
| IdentityOutcome.CrashedCreator | internal/identity/identity.go:57-78 | For every key and every number of bytes short of it, a run from an empty directory that ends with that prefix in the file and nobody to write the rest |
| IdentityOutcome.SucceedsExactlyIf | internal/identity/identity.go:20-78 | At any point of any run, a process that is under way can still succeed if and only if it has only a successful write to close, or there is no file, or a secure one that is complete or still being written; that includes the loser of the race to create it |
| IdentityOutcome.NewCallSucceedsExactlyIf | internal/identity/identity.go:20-36 | The same for a call that starts then: if and only if there is no file, or a secure one that is complete or still being written |
| IdentityOutcome.FailureIsReported | internal/identity/identity.go:20-78 | A process for which any call failed, the last write and closing the file included, never succeeds |
| IdentityFile.LoadOrCreate | internal/identity/identity.go:20-36 | Unless a call fails, succeeds if and only if there is no file or a secure one of 64 bytes; success returns the content; an existing file is never changed; a new one holds a prefix of the new key, and that key on success |
| IdentityFile.Load | internal/identity/identity.go:38-55 | Unless a call fails, returns the content of a secure file of 64 bytes, not-exist if there is none, and an error otherwise; succeeds in no other case |
| IdentityFile.Create | internal/identity/identity.go:57-78 | Unless a call fails, returns the key of a secure complete file that is there after all, and the new key, then in the file, if there is none; never changes an existing file |
| IdentityFile.Restart | internal/identity/identity_test.go:9-21 | Unless a call fails, a second call returns the same key, whatever it would have generated itself |
| IdentityFile.Directory.CreateExclusive | internal/identity/identity.go:62-68 | Creates only where nothing was |
| IdentityFile.Directory.Write | internal/identity/identity.go:69 | Whatever happens, the file is a prefix of the key; on success the whole |
| SingleInstance.OneDaemon | internal/agent/daemon.go:60-78 | For any number of daemons starting, failing, closing and crashing: at most one is past the lock, a listening one holds the lock and owns the socket path, and nobody ever removed a socket another one was listening on |
| DaemonOutcome.RestartIsPossible | internal/agent/daemon.go:367-379 | With the lock free, a new daemon can get to serving unless the path names something else than a socket; leftovers of a crash are in nobody's way |
| DaemonOutcome.ForeignFileStays | internal/agent/daemon.go:375-377 | A file at the path that is no socket keeps every daemon from serving and is never removed |
| DaemonOutcome.ServesExactlyIf | internal/agent/daemon.go:60-78 | At any point of any run, a daemon can still get to serving if and only if nothing has ended its start and, as long as it has not looked, the path names no foreign file |
| DaemonOutcome.FailureEndsStart | internal/agent/daemon.go:60-78 | A failed call, a lock held by another, a foreign file or a taken path ends the start: that daemon never serves |
| DaemonOutcome.ServesOnlySecured | internal/agent/daemon.go:74-78 | A daemon begins to serve only right after it has secured its socket |
| DaemonOutcome.ListenerTakesPath | internal/agent/daemon.go:105-130 | A listening daemon that stops listening takes its path with it, unless unlinking fails |
| DaemonOutcome.CloseLeavesNothing | internal/agent/daemon.go:127-140 | A serving daemon can always close, and then leaves neither lock nor socket |
| RunDirectory.Start | internal/agent/daemon.go:60-78 | Unless a call fails, starts if and only if nobody has the lock and the path names no foreign file; a started daemon holds the lock and its own, secured socket; one that does not start leaves the lock as it was, leaves the path alone if another holds the lock, and never removes anything but a socket |
| RunDirectory.Close | internal/agent/daemon.go:127-140 | Frees the lock, after the last removal of the path; the path is then gone, or unchanged if both removals failed |
| RunDirectory.Directory.RemoveSocket | internal/agent/daemon.go:367-379 | Unless a call fails, succeeds if and only if the path names no foreign file; success leaves nothing there, failure changes nothing |
| LocalApi.NeverMisread | internal/localapi/localapi.go:83-122 | A stream of messages cut off anywhere reads as exactly the complete ones in order and then an end-of-file error; the whole stream as all of them |
| LocalApi.Transfer | internal/localapi/localapi.go:83-122 | Any messages written and as many read back are the same, in order, and the stream is then empty, however reads split it, if and only if no write fails |
| LocalApi.DecodeEncoded | internal/localapi/localapi.go:83-122 | A frame decodes to its payload and leaves what follows |
| LocalApi.DecodeTruncated | internal/localapi/localapi.go:83-95 | A proper part of a frame is an error, and which of the two |
| LocalApi.DecodesExactly | internal/localapi/localapi.go:83-95 | The format byte by byte: which streams decode, to what, and with which of the three errors all others fail; lengths of 0 and above 4096 are refused |
| LocalApi.EncodesLength | internal/localapi/localapi.go:115-120 | A frame is its length, highest byte first, and the payload |
| LocalApi.ReadMessage | internal/localapi/localapi.go:83-95 | In place: the result, the error and the rest of the stream are those of the format |
| LocalApi.ReadFull | internal/localapi/localapi.go:85-95 | Fills the buffer with the front of the stream if there is enough, for every split into pieces; otherwise drains it with the right error |
| LocalApi.WriteMessage | internal/localapi/localapi.go:107-122 | Writes exactly the frame, or a prefix of it if a write fails; fails otherwise only for a payload outside 1 to 4096 bytes, and then writes nothing |
| LocalApi.Uint32RoundTrip | internal/localapi/localapi.go:88-116 | The length prefix reads back as the length |
| ShellBlock.DeletesEveryOccurrence | cmd/hopty/main.go:361 | For any text and any unbordered block, what remains is exactly the characters outside all occurrences, in order |
| ShellBlock.BlockUnbordered | cmd/hopty/main.go:251 | No proper prefix of the managed block is its suffix |
| ShellBlock.BlockText | cmd/hopty/main.go:251 | The block, line by line, as the installer has it too |
| ShellBlock.UnchangedIffAbsent | cmd/hopty/main.go:361-364 | Nothing changes if and only if the block does not occur |
| ShellBlock.AppendThenRemove | cmd/hopty/main.go:353-370 | Removing an appended block gives the text back if and only if the text did not contain the block |
| ShellBlock.InstallThenUninstall | install/install.sh:35-41 | For every profile: if the installer appends, uninstalling gives the profile plus one newline; if it does not, it gives what uninstalling alone would |
| ShellBlock.RestoredExactlyIf | install/install.sh:35-41 | Installing and uninstalling restores the profile if and only if it had both lines and no block |
| ShellBlock.InstallTwice | install/install.sh:35-41 | A second run of the installer changes nothing |
| ShellBlock.UninstallIsNotIdempotent | cmd/hopty/main.go:353-370 | For every way to split a block around another one, two runs remove more than one |
| ShellBlock.SecondRunChangesNothingExactlyIf | cmd/hopty/main.go:353-370 | For every text, a second run changes nothing if and only if no window of the text contains a whole block and spells the block with what no block covers |
| ShellBlock.Profile.RemoveShellBlock | cmd/hopty/main.go:353-370 | In place: succeeds if and only if no call fails; success leaves the text without its blocks; a missing file, or one without a block, is left alone even on failure |

## Steps

These functions have no contract of their own; the theorems above are about them.

- `CloseCauses.Reason` (internal/terminal/terminal.go:86-346): the reason text of every caller of `close`
- `Lifecycle.DoOffer` (internal/terminal/terminal.go:93-157): `offer`, cut at its critical sections, external calls and sends
- `Lifecycle.DoCandidate` (internal/terminal/terminal.go:159-180): `localCandidate` and the send behind its unlock
- `Lifecycle.DoChannel` (internal/terminal/terminal.go:108-121): the DataChannel callbacks, `startPTY`, the shell's exit, and `message`
- `Lifecycle.DoLink` (internal/terminal/terminal.go:297-315): `connectionState`, the firing of a timer, and the passing of time
- `Lifecycle.DoClose` (internal/terminal/terminal.go:316-346): `close`, with the callers that wait for the one that runs it
- `World.DoWorld` (internal/terminal/terminal.go:56-367): `Open`, `Signal`, `CloseAll`, the control loop, and the steps inside each incarnation
- `TerminalFields.Fields.BeginOffer` (internal/terminal/terminal.go:127-130): the reset before an answer
- `TerminalFields.Fields.FinishOffer` (internal/terminal/terminal.go:148-152): the flag is set and the buffer taken, at once
- `TerminalFields.Fields.AcceptCandidate` (internal/terminal/terminal.go:164-170): buffer, or leave to the callback
- `TerminalFields.Fields.SetDataChannel` (internal/terminal/terminal.go:206-214): accept the first channel of a session that is not closed
- `TerminalFields.Fields.StartPty` (internal/terminal/terminal.go:215-231): start the one shell of a session that is not closed
- `TerminalFields.Fields.ArmRecovery` (internal/terminal/terminal.go:300-304): arm a timer if none is named and the session is not closed
- `TerminalFields.Fields.CancelRecovery` (internal/terminal/terminal.go:306-311): stop and forget the timer
- `TerminalFields.Fields.MarkClosed` (internal/terminal/terminal.go:318-324): mark closed and read what there is to close
- `Frames.DecodeFrame` (internal/protocol/protocol.go:86-114): the frame decoder
- `Frames.Verdict` (internal/terminal/terminal.go:267-296): what a DataChannel message does to its session
- `ControlSession.Do` (internal/control/session.go:27-99): reading, routing, cancellation, handling, requesting, taking, timing out
- `LockedCode.Code` (internal/agent/daemon.go:84-243): the lock operations of each piece of code
- `Identity.Do` (internal/identity/identity.go:20-78): the file operations of one process
- `SingleInstance.Do` (internal/agent/daemon.go:60-140): `Start`, the listener's end, `Close`, and crashes

## Left out

- WebRTC, ICE, DTLS, PTY and process internals: only their successes, failures and callbacks
  appear. Callbacks are assumed to run on goroutines of their own, since `pc.Close` runs inside
  `closeOnce`. A PTY read is assumed to return at least one byte or an error.
- Candidates from the browser (`internal/terminal/terminal.go:182-194`): they reach the library
  and change no field of the session, so a candidate signal is a step without effect.
- Terminal classes and interleaving together: `Terminal.Session` proves each critical section in
  place, `Lifecycle` interleaves the same sections as functions on values. The two meet in
  `TerminalFields`; goroutines on shared objects are not modelled as such.
- Clocks: each incarnation has its own, advanced by any amount at any time. Timers may fire
  arbitrarily late, never early.
- Liveness: a blocked channel operation, a lock or a timer may stay enabled for ever. In
  `LockOrder` waiting for a reply, for the network or for a channel counts as work that ends, by
  its timeout if need be. So waiting for a channel while a lock is held, as `createPairing` does,
  is no part of the waiting that is proved free of cycles.
- `waitGroup.Wait` in `Close`: the handlers it waits for are not modelled.
- JSON struct mapping: whether a payload decodes is an input of the model, and encoding succeeds.
  Escapes and the UTF-8 of names are resolved before `DuplicateKeys` compares them, as in the
  library, which also replaces malformed UTF-8 instead of rejecting it as
  `docs/protocol-v1.md:26` demands. A number outside the library's range is a bad token.
- UTF-8 validity of error frames is a parameter. Exit and error frames are decoded, but no code
  of the agent sends them.
- `DecodeEnvelope` and `DecodePayload`: a duplicate check followed by library calls.
- Keys, nonces, signatures and TLS: keys are 64 opaque bytes.
- ReplyQueue.OwnReplyUntilTimeout: a request whose write fails is taken not to reach the service.
- The service: replies are any envelopes; some theorems assume that it answers at most once, or
  in order. Pairing and resynchronisation run on the service.
- Reconnecting: a new connection is a new `ControlSession`; backoff, keepalive, the `connected`
  flag and the report of active terminals are left out.
- IdentityFile.Load: `os.ReadFile` is one read there; `Identity` has it piece by piece, with
  writers in between.
- SingleInstance: foreign programs that touch the run directory, and `uninstall` removing it.
- RunDirectory.Close: `CloseAll` and the handlers run between its two removals without touching
  the directory; `OneDaemon` covers the interleavings.
- ShellBlock.InstallThenUninstall: `grep -F` is containment and `printf` appending; creating an
  empty profile and the other shell steps are left out.
- ShellBlock.Profile.RemoveShellBlock: file permissions.
- Configuration, upgrade, status printing, command line and environment filtering: short
  straight code without a property that spans operations.
