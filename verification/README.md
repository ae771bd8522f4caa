# Proofs about kunobi-daemon

A Dafny model of the protocol and codec parts of the kunobi-daemon crate: code that keeps shared
state under a lock, that several processes run at once, or that must agree with what another
function reads back. `dafny verify dfyconfig.toml` checks the whole project.

| file | what it models |
|---|---|
| `CommandLine.dfy`, `EnvironmentBlock.dfy` | the Windows command line and environment block printers, against their readers |
| `WriterSlot.dfy`, `Outstanding.dfy` | the relay's replaceable writer and its set of requests in flight, with parked threads |
| `Watch.dfy`, `Lifecycle.dfy` | the WATCH subscription, server and client, and the request gate it samples |
| `Wire.dfy`, `Handshake.dfy`, `HandshakeOutcome.dfy` | framing, negotiation and the two-party handshake over byte queues: what a session means, and how every handshake comes out |
| `ReadinessChannel.dfy`, `Selection.dfy` | the launcher's channel, the wait for a selected candidate, and the two together |
| `Endpoint.dfy`, `RecordSlot.dfy` | socket election and discovery records between crashing processes |
| `Replacement.dfy`, `Generation.dfy`, `Retry.dfy` | replacing a daemon, generation numbers and sessions, attempt budgets |
| `Common.dfy` | words, options and results shared by the others |

Objects that change in place are classes whose methods are proved against a step function on
values. A protocol is a state machine: one step for each section under a lock or each system call,
`Next` defined for every step in every state (a step that is not enabled changes nothing), and
`Run(steps)` for any sequence of steps, so a theorem about `Run` is about every interleaving. Crashes
and failures are steps like any other.

What the proofs take from outside the crate:

- A file lock is exclusive and is released when its holder dies.
- Inode numbers are fresh, a Unix rename replaces a name in one step, and an open file is its inode.
- A refused connection means that nobody listens.
- The monotonic clock does not go back, and a sleep does not return early.
- Epochs, versions and writer generations, which are 64-bit counters, do not wrap.
- The default change kind of an event is a snapshot (proto/lifecycle.proto:79-85) and the default
  message kind a lifecycle message (proto/lifecycle.proto:36-41).
- Decoding gives back the handshake messages and events that were encoded; the bytes themselves are
  opaque.

Where the code and its documentation or the obvious expectation differ, the code is modelled:

- `WriterSlot.write_observed` sets its boundary flag for an empty window (src/transport.rs:171), so a
  pause can be granted in the middle of a record. `WriterSlot.EmptyWindowSplitsARecord` is such a run
  and `WriterSlot.PauseSplitsExactlyAfterAnEmptyWindow` the exact condition over all runs.
- `Signaled::wait` promises a new round at once for a `ready` that arrived during a round
  (src/readiness/channel.rs:667-668). It reads the version and the readiness under the lock one after
  the other, and a `ready` posted between the two is not seen before the next poll:
  `Signaled.ReadyCanGoUnseen`. `Signaled.NewsIsMissedExactlyBetweenChecks` is the exact condition.
- `SocketGuard` is documented never to unlink a successor's endpoint (src/local/unix_socket.rs:113-114).
  `capture` takes whatever socket is at the path, so a capture after the own listener has stopped can:
  `Endpoint.LateCaptureRemovesALiveSuccessor`. `Endpoint.GuardRemovesItsOwnExactlyIfItCapturedIt` is
  the exact condition.
- `Generation::select` notifies after it has released the lock (src/generation.rs:184-186), so for a
  moment a generation may retire while the retirement loop sleeps untold:
  `Sessions.SelectionNotifiesLate`. `Sessions.NoRetirementIsMissed` accounts for it.
- The back-off in src/retry.rs is documented as starting at the delay and doubling up to the maximum.
  The attempt is counted before the shift, so the first wait is already twice the delay
  (`Retry.FirstWaitIsDoubled`), and the shift is capped at 63, so with a delay of one second and a
  maximum above 2^63 it stops one doubling early (`Retry.DelayDoublesExactly`).
- Inherited environment variables are not checked by `environment_block`, so an untouched invalid one
  does not read back: `EnvironmentBlock.UncheckedNameReadsBackChanged`.
  `EnvironmentBlock.BlockReadsBackExactly` is the exact condition.
- A plain `publish_record` takes no slot lock, so it may be removed by a cleanup that never compared
  it: `RecordProtocol.PlainPublicationCanBeRemoved`. `RecordProtocol.ActsOnWhatItCheckedExactly` is
  the exact condition, and `RecordProtocol.SlotIsSerializable` holds when everybody uses the slot.

## Model

| member | source | states |
|---|---|---|
| CommandLine.AppendArgument | src/local/command_line.rs:45-70 | the counting loop prints an argument so that every backslash run before a quote or the closing quote is doubled, for any argument |
| CommandLine.Build | src/local/command_line.rs:20-36 | refuses exactly an empty or quoted program and any NUL, with the right error, and otherwise builds the line |
| CommandLine.Split | src/local/command_line.rs:255-322 | the reference splitter, loop by loop, computes the reading the round trip is about |
| CommandLine.NextWord | src/local/command_line.rs:283-318 | one argument of the splitter: odd and even backslash runs, doubled quotes, blanks inside quotes |
| CommandLine.NextProgram | src/local/command_line.rs:258-272 | the program name: quotes toggle, a blank outside them ends it |
| CommandLine.ReadPrinted | src/local/command_line.rs:45-70 | reading a printed argument gives that argument back and stops exactly at its end, whatever follows |
| CommandLine.RoundTrip | src/local/command_line.rs:20-70 | for every quote-free program and all arguments, splitting the printed line gives back exactly the program and the arguments, under both readings of a doubled quote |
| CommandLine.LinesAreDistinct | src/local/command_line.rs:20-70 | two different invocations never print the same line |
| CommandLine.RoundTripExactlyWhenQuoteFree | src/local/command_line.rs:20-36 | the round trip holds if and only if the program has no quote, so the refusal is exact |
| EnvironmentBlock.Build | src/local/command_line.rs:86-122 | fails exactly when some change is invalid, with the error of the first one, and otherwise writes the block of the edited environment |
| EnvironmentBlock.ReadsBackExactlyWhenValid | src/local/command_line.rs:433-451 | a block parses back to the variables it was written from if and only if all of them are valid |
| EnvironmentBlock.BlockReadsBackExactly | src/local/command_line.rs:86-122 | with valid changes, the block of any inherited environment reads back as that environment edited if and only if every inherited variable no change touches is valid |
| EnvironmentBlock.UncheckedNameReadsBackChanged | src/local/command_line.rs:86-122 | the failing input: an inherited name ending in an equals sign comes back without it, its value with it in front |
| EnvironmentBlock.ApplyIsLastWins | src/local/command_line.rs:478-484 | the in-place edit script gives each name, without regard to case, the value of its last change or else its inherited value |
| EnvironmentBlock.SortIsSorted | src/local/command_line.rs:86-122 | the variables come out in the order of their folded names |
| EnvironmentBlock.SameNameIsAsciiCase | src/local/command_line.rs:131-133 | two names are one variable exactly if they differ in nothing but the case of ASCII letters |
| EnvironmentBlock.FoldedIsUpperCase | src/local/command_line.rs:124-129 | folding takes each unit to upper case and no other unit anywhere |
| EnvironmentBlock.BeforeIsUnitOrder | src/local/command_line.rs:124-129 | the order of the block is that of the upper-case names at the first unit in which they part |
| EnvironmentBlock.InsertIsPermutation | src/local/command_line.rs:86-122 | sorting loses and invents no variable |
| EnvironmentBlock.FindSorted | src/local/command_line.rs:86-122 | the sort is stable: a lookup finds the same variable before and after |
| EnvironmentBlock.BlockHoldsTheEditedEnvironment | src/local/command_line.rs:86-133 | the block of valid changes over distinct inherited names parses back, strictly sorted by folded name, to exactly the inherited map with the changes applied last-wins |
| WriterSlot.Slot.ReplacePaused | src/transport.rs:69-88 | an open slot gets the newcomer as its next generation, paused, unfailed and at its offset, and half-closes the old writer; a closed slot half-closes the newcomer instead |
| WriterSlot.Slot.TryPause | src/transport.rs:92-103 | a pause is granted only at a boundary of a healthy, open slot, with the bytes written |
| WriterSlot.Slot.Resume | src/transport.rs:106-110 | lifts the pause and nothing else |
| WriterSlot.Slot.Shutdown | src/transport.rs:121-125 | the current writer is half-closed and the end is remembered for later writers |
| WriterSlot.Slot.Close | src/transport.rs:132-138 | the current writer is half-closed and the slot is closed for good |
| WriterSlot.Slot.WriteObserved | src/transport.rs:150-180 | a window is taken whole, or the writer is half-closed and the caller told which generation to wait out; a closed slot takes nothing |
| WriterSlot.NoWindowIsReplayed | src/transport.rs:150-180 | in every run each window is handed to at most one writer, and a writer that failed one is never handed anything again |
| WriterSlot.EveryWindowIsHandedOn | src/transport.rs:150-180 | until the slot closes every submitted window is handed on, but for the one in progress |
| WriterSlot.WritersTakeWhatTheyAreHanded | src/transport.rs:150-180 | conservation: what each writer took is exactly the windows handed to it, whole and in the producer's order |
| WriterSlot.EveryWriterIsHalfClosed | src/transport.rs:57-138 | every replaced writer is half-closed, and the current one once the input ended or the slot closed |
| WriterSlot.ProducerIsNeverStranded | src/transport.rs:69-180 | a parked producer is still paused or not yet replaced, and never parked on a closed slot: no wake-up is lost |
| WriterSlot.PauseIsAtBoundary | src/transport.rs:92-103 | a granted pause reports exactly the bytes the current writer took, in whole windows, at the end of a record if no window was empty |
| WriterSlot.PauseSplitsExactlyAfterAnEmptyWindow | src/transport.rs:92-103 | over every run, a granted pause splits a record if and only if an empty window was written straight after an unfinished one |
| WriterSlot.BoundaryFlagExactUnlessEmptyMidRecord | src/transport.rs:171 | the one write that breaks it: a write keeps an exact boundary flag exact if and only if the window is not empty or the data already ended a record |
| WriterSlot.EmptyWindowSplitsARecord | src/transport.rs:171 | a run in which an empty window lets a pause split a record |
| WriterSlot.PauseFreezes | src/transport.rs:92-110 | from a pause to the resume no window is handed on, whatever else happens |
| WriterSlot.GrantedPauseFreezes | src/transport.rs:92-110 | in every run, from the call that was granted a pause to the resume nothing is handed on |
| WriterSlot.ReplacementFreezes | src/transport.rs:69-88 | after a replacement nothing is handed to the newcomer before a resume, whatever else happens |
| WriterSlot.PauseIsGrantedExactly | src/transport.rs:92-103 | over every run a pause is granted if and only if none is in force, the input has not ended, the slot is open, the current writer neither failed nor overran its count, and the last window it took is empty or ends a line |
| WriterSlot.ResumeReleasesTheWindow | src/transport.rs:106-160 | after the resume of an open slot the waiting window goes to the current writer |
| WriterSlot.ReplacementReleasesTheProducer | src/transport.rs:69-180 | a producer that waits out a failed write returns once the writer is replaced |
| WriterSlot.CloseReleasesTheProducer | src/transport.rs:132-180 | closing lets a producer go wherever it waits |
| WriterSlot.ProducerParksExactly | src/transport.rs:150-180 | over every run a producer blocks if and only if the slot is paused before its write, or its failed writer not yet replaced, and the slot is open |
| WriterSlot.ReplacementsAreHalfClosed | src/transport.rs:69-88 | the replacing call half-closes the writer it replaced, and a newcomer to a closed slot is half-closed at once and given nothing |
| Outstanding.OutstandingSet.Begin | src/transport.rs:362-370 | adds one request to the multiset, or marks an overflow at capacity |
| Outstanding.OutstandingSet.Settle | src/transport.rs:381-394 | removes one request of its key, only in the current epoch, and wakes exactly when it must |
| Outstanding.OutstandingSet.Clear | src/transport.rs:398-405 | empties the set, starts a new epoch and forgets an overflow |
| Outstanding.OutstandingSet.Fail | src/transport.rs:412-420 | hands over exactly the requests that were tracked, leaves none, starts a new epoch and forgets an overflow |
| Outstanding.FailingKeys | src/transport.rs:467-475 | reports each taken request exactly once, a key used by two requests twice, in key order |
| Outstanding.NoWakeUpIsLost | src/transport.rs:351-359 | in every reachable state with the lock free, a thread parked in `wait_settled` means the set is not settled |
| Outstanding.ReleasedOnlyWhenNothingIsInFlight | src/transport.rs:432-455 | a caller leaves `wait_settled` only when no request, report or transition is under way, tracked or not |
| Outstanding.ReleasedExactlyWhenQuiet | src/transport.rs:432-455 | a caller that checks leaves if and only if no request is in flight, no failure is being reported, no transition is under way and no overflow is remembered, all by the history of the run; otherwise it parks |
| Outstanding.CountersAreOpenGuards | src/transport.rs:412-494 | in every run the counters of failures and transitions are the guards started and not yet dropped |
| Outstanding.OverflowIsHistory | src/transport.rs:362-420 | in every run an overflow is remembered exactly from the request that found the set full to the next clear or failure |
| Outstanding.CountersStayInRange | src/transport.rs:302-329 | in every run nothing underflows, the total stays within the capacity, and it is zero exactly when no key is left |
| Outstanding.CountIsTheLedger | src/transport.rs:362-394 | in every run without an overflow each key's count is its begins minus its replies in the current epoch plus the replies that answered nothing, so begins minus replies if and only if there was no such stray |
| Outstanding.InFlightIsTheLedger | src/transport.rs:362-394 | the same ledger for the requests really in flight, in every run, overflow or not |
| Outstanding.EpochsOnlyGrow | src/transport.rs:398-420 | epochs never go back |
| Outstanding.LateReplySettlesNothing | src/transport.rs:374-394 | a connection that read its epoch before a fail or clear settles nothing ever after, even for a reused key |
| Watch.ControlService.MarkReady | src/control.rs:43-47 | the flag is set whatever it was, and only the first call notifies |
| Watch.ControlService.StartDrain | src/lifecycle.rs:68-82 | only the first call is true, and it wakes observers |
| Watch.ControlService.MarkRetiring | src/control/watch.rs:74-83 | draining is closed before retirement is published |
| Watch.ControlService.SelectionCommitted | src/control/watch.rs:48-72 | refuses exactly a selection that would go back or contradict the published one, and publishes any other |
| Watch.WatchClient.Changed | src/control/watch.rs:225-247 | an event is accepted exactly when it decodes and continues the last one: next in sequence, same process, nothing that only moves forward moved back, and a change kind the state bears out; an error ends the subscription and keeps the last good event |
| Watch.Follow | src/control/watch.rs:188-247 | a client fed an acceptable stream never fails and ends on its last event |
| Watch.SentIsAccepted | src/control/watch.rs:145-168 | an event sent with the kind the server computed passes every client check, and the kind names exactly what changed |
| Watch.EveryEventIsAccepted | src/control/watch.rs:96-168 | under every interleaving of updates with the server's separate samples, the client accepts every event and every change kind is exact |
| Watch.NoChangeIsLost | src/control/watch.rs:101-143 | whenever the server waits, its last event equals the current state or a wake-up for the difference is pending |
| Watch.QuiescentMeansUpToDate | src/control/watch.rs:96-143 | once nothing can move, the last event the client accepted is the truth |
| Watch.FlagsAreHistory | src/control/watch.rs:74-83 | in every run the service is ready and draining exactly since the first call that asked for it, and retiring once that call is through |
| Watch.SelectionIsTheHighestCommit | src/control/watch.rs:48-72 | the published selection is the highest generation properly committed, with a build it was committed with |
| Watch.ServerStopsOnlyWhenExhausted | src/control/watch.rs:96-168 | without a connection failure a subscription ends only when the sequence numbers are used up |
| Watch.SubscriptionsCatchUp | src/control/watch.rs:96-168 | from every state any run reaches, with sequence numbers left and no `mark_ready` between its two steps, the server left to itself waits after at most fourteen steps, and the last event it sent is the truth |
| Lifecycle.Gate.Begin | src/lifecycle.rs:58-65 | admits exactly while the gate is open |
| Lifecycle.Gate.StartDrain | src/lifecycle.rs:68-82 | closes the gate once, and reports completion at once when nobody is inside |
| Lifecycle.Gate.DropGuard | src/lifecycle.rs:187-196 | the last guard of a closed gate reports completion and wakes waiters |
| Lifecycle.NoWakeUpIsLost | src/lifecycle.rs:94-136 | under every interleaving a sleeping drain or observer whose condition holds has a change it has not seen |
| Lifecycle.DrainedStaysDrained | src/lifecycle.rs:125-136 | after a drain has returned, and whatever steps follow, the gate is closed and no guard is held |
| Lifecycle.DrainIsReportedOnce | src/lifecycle.rs:68-82 | the start and the completion of a drain are each reported once, in order, exactly when they have happened |
| Lifecycle.ClosedExactlySinceADrain | src/lifecycle.rs:68-136 | in every run the gate is closed if and only if somebody has asked for a drain |
| Lifecycle.GuardsAreHistory | src/lifecycle.rs:58-65 | in every run a request is inside exactly from its admission, while the gate was open, to its drop |
| Lifecycle.WaitsEnd | src/lifecycle.rs:92-136 | from every reachable state, whoever waits for what has come about returns within four steps of its own, asleep or not |
| Lifecycle.CallsAndWakes | src/lifecycle.rs:92-136 | a fresh wait is taken, and a sleeper stirs exactly when there has been a change |
| Wire.NegotiateIsSymmetric | src/wire.rs:179-217 | the two peers compute the same agreement, or both none |
| Wire.AgreementIsExact | src/wire.rs:172-217 | there is an agreement exactly when both offers are valid, name one service, admit the version and cover each other's requirements; it is for this version, the capabilities both support and the smaller frame limit |
| Wire.OrdinaryOffersAgree | src/wire.rs:172-217 | two different ordinary offers do agree, and on what |
| Wire.AgreedOffersAreSound | src/wire.rs:172-217 | nobody agrees with a nil service id, an ill-formed identity component, terms out of order or a frame limit out of range |
| Wire.ValidComponentIsByParts | src/identity.rs:43-60 | a check of every position is the check as made: split at the dots, every part begins and ends with a letter or digit |
| Wire.RefusalsReadBack | src/wire.rs:264-307 | a refusal reads back as its reason; a client is told it is too old exactly if it lacks the version or a required capability, reads refusals and sent a valid offer for the service |
| Wire.Le32ReadsBack | src/wire.rs:331-347 | the length prefix reads back for every 32-bit length |
| Wire.ReadFrameOfPrefix | src/wire.rs:406-420 | on any part of a frame and what follows a reader waits or takes exactly that body and exactly its bytes |
| Wire.BodyIsFramed | src/wire.rs:406-420 | conversely a body is read from any bytes only if they begin with its own frame |
| Wire.BadLengthIsRefusedAtOnce | src/wire.rs:406-420 | with four bytes or more a reader gives up if and only if they begin no frame that could be sent |
| Wire.Framed.Send | src/wire.rs:394-404 | an oversized message moves no byte and poisons nothing; an incomplete write poisons the codec; a poisoned codec writes nothing |
| Wire.Framed.Receive | src/wire.rs:406-420 | reads exactly one message and nothing of the next; any error, an undecodable body included, poisons the codec |
| Handshake.SessionMeansAgreement | src/wire.rs:433-469 | over every run, a session on either side means both negotiated and accepted and hold the one agreement of the two offers |
| Handshake.SessionsReadInOrder | src/wire.rs:433-469 | a side in session consumed exactly the handshake bytes and then whole frames, and returned the peer's bodies in order, none missing |
| Handshake.RefusalsAreGenuine | src/wire.rs:475-493 | a refusal a client reports was sent to it if and only if the server made no offer; an offer is taken for a refusal only as its own refusal field says |
| Handshake.NothingIsLeftUnread | src/wire.rs:394-420 | a reader that cannot go on after all bytes were written has returned every body sent to it |
| Handshake.FailureIsFinal | src/wire.rs:385-420 | a failed side never moves another byte in either direction |
| Handshake.HandshakeProgresses | src/wire.rs:433-469 | no deadlock: until both sides are in session or one failed, some side can move |
| HandshakeOutcome.CompatiblePeersStayUp | src/wire.rs:433-469 | peers whose offers agree never fail in a run without an outside fault, however their bytes are cut and interleaved |
| HandshakeOutcome.CompatiblePeersGetASession | src/wire.rs:433-469 | from every state such peers reach, a bounded number of steps brings both into a session on the one agreement of their offers, with every message sent so far read by its peer |
| HandshakeOutcome.NoSessionWithoutAgreement | src/wire.rs:433-469 | peers whose offers do not agree are never in session on either side, in any run |
| HandshakeOutcome.RefusedClientFailsOnlyWithTheReason | src/wire.rs:450-493 | a client that reads refusals and is refused fails, in any run without an outside fault, only with the reason |
| HandshakeOutcome.RefusedClientLearnsWhy | src/wire.rs:450-493 | from every state it reaches there is a way on to its knowing the reason |
| HandshakeOutcome.MessagesAreTakenExactly | src/wire.rs:394-404 | over every run a message is taken exactly in session, one at a time, and within the frame limit of the agreement |
| HandshakeOutcome.ServerSessionAgainstAnybody | src/wire.rs:433-469 | whatever bytes a peer sends and however they arrive, a server in session was sent the magic number, an offer it negotiated its agreement with, and the acceptance |
| HandshakeOutcome.ClientSessionAgainstAnybody | src/wire.rs:433-469 | the same for a client: an offer that is no refusal, agreed with, and the acceptance |
| HandshakeOutcome.InvalidOffersGoNowhere | src/wire.rs:433-469 | a side whose own offer is invalid never writes a byte |
| HandshakeOutcome.FaultsFailOneSide | src/wire.rs:385-420 | a fault fails its side and leaves the other alone |
| ReadinessChannel.ProgressLine | src/readiness/channel.rs:139-157 | fails exactly on a detail too long or not printable, and otherwise encodes a sayable message within the limit |
| ReadinessChannel.ParseIsExact | src/readiness/channel.rs:122-137 | a bounded line decodes to a message if and only if it is that message's encoding |
| ReadinessChannel.Decoder.Push | src/readiness/channel.rs:171-186 | one byte, with the buffer always below the message limit |
| ReadinessChannel.ReadMessages | src/readiness/channel.rs:326-353 | however the stream is cut into reads, the posts are those of its bytes, plus the close if it ended first; a dropped channel only cuts them short |
| ReadinessChannel.OnlyTheLastPostIsFinal | src/readiness/channel.rs:326-353 | reading ends with the first final event: every post before the last is progress |
| ReadinessChannel.FeedAppends | src/readiness/channel.rs:326-353 | feeding a stream in two parts is feeding it whole |
| ReadinessChannel.FeedIsByLine | src/readiness/channel.rs:171-186 | the byte-at-a-time decoder is the protocol read line by line |
| ReadinessChannel.HonestDaemonIsHeard | src/readiness/channel.rs:139-186 | any progress reports followed by ready are heard as exactly those |
| ReadinessChannel.DyingDaemonIsHeardAsDead | src/readiness/channel.rs:326-353 | a daemon that dies anywhere before its last byte is never taken for ready or malformed |
| ReadinessChannel.Shared.Post | src/readiness/channel.rs:302-316 | every post is a new version, and only progress counts as progress |
| ReadinessChannel.StatusIsFirstFinal | src/readiness/channel.rs:230-244 | the launcher's state is what the first final event made it, over every event sequence |
| ReadinessChannel.AnswerIsFixedForGood | src/readiness/channel.rs:230-261 | once ready, died or malformed, no later event, time or patience changes the answer |
| ReadinessChannel.AnswerIsWhatTheDaemonSaid | src/readiness/channel.rs:246-261 | over every event sequence the answer is ready, died or malformed if and only if that is the first final thing the daemon said, and otherwise a wait for exactly the rest of the silence, or silent |
| ReadinessChannel.SilenceRunsFromTheLastMessage | src/readiness/channel.rs:246-261 | until then only silence ends the wait, counted exactly from the latest message |
| Selection.AwaitSelection | src/selection.rs:94-113 | stops in the first round whose evidence decides, with that round's verdict by hindsight |
| Selection.VerdictIsHonest | src/selection.rs:192-228 | a proof counts only in time, a commit once read is never reported as not committed, and no wait stays open past either bound |
| Selection.VerdictIsExact | src/selection.rs:192-228 | every verdict if and only if its evidence: a failed read or probe, a proof in time, time left, and at the end whether a commit was ever read |
| Selection.FirstCommitIsFirst | src/selection.rs:211-215 | the proof budget runs from the earliest committed read |
| Signaled.WrappingOnlyAddsFailures | src/readiness/channel.rs:642-664 | wrapping evidence in a channel changes a verdict only where a round has no proof and the channel failed, and then only to that failure |
| Signaled.AwaitSignaled | src/readiness/channel.rs:642-678 | the same answer in the same round as the bare evidence, or the channel's reason at the first round without a proof that meets a failed channel |
| Signaled.NewsIsMissedExactlyBetweenChecks | src/readiness/channel.rs:457-475 | over every run, a launcher parked for news has seen every message or a notification is on its way; one in the inner wait has unseen news if and only if ready was posted between its two checks |
| Signaled.ReadyCanGoUnseen | src/readiness/channel.rs:666-678 | the run in which that happens: ready unseen, nothing left to wake the launcher before its next poll |
| Signaled.AtMostOneExtraRoundPerMessage | src/readiness/channel.rs:666-678 | over every run at most as many waits end because of news as messages were posted, both counted from the history |
| Signaled.WaitsEndOnlyForAReason | src/readiness/channel.rs:457-475 | over every run a wait ends only for a message since the probe began, a decided channel, no time left, or the end of the inner wait, which only a ready daemon's launcher is in; it parks exactly while there is no such reason |
| Signaled.EveryWaitCanEnd | src/readiness/channel.rs:457-475 | from every state any run reaches, the launcher and the clock alone bring a wait to its end within five steps |
| Endpoint.Host.BindPrivate | src/local/unix_socket.rs:48-53 | binding succeeds exactly on a free path and listens on a fresh inode |
| Endpoint.Host.Acquire | src/local/unix_socket.rs:69-111 | alone, it wins exactly on a free path or a dead socket, yields to a lock or a live listener, and leaves other files alone |
| Endpoint.Host.DropGuard | src/local/unix_socket.rs:134-147 | removes exactly the inode it observed, and only under the lock |
| Endpoint.GuardRemovesItsOwnExactlyIfItCapturedIt | src/local/unix_socket.rs:115-147 | over any acquirers, captures by anybody at any time, drops and crashes, a guard removes a socket its holder captured, and its own endpoint if and only if the captured one was its own |
| Endpoint.RemovalsAreHarmless | src/local/unix_socket.rs:69-147 | `acquire` unlinked only sockets nobody listened on; with captures made while the own listener is live, a guard only its own process's endpoint |
| Endpoint.LateCaptureRemovesALiveSuccessor | src/local/unix_socket.rs:120-132 | a run in which a capture made after the own listener stopped removes a live successor's endpoint |
| Endpoint.ServerIsReachableUntilRemoved | src/local/unix_socket.rs:69-147 | a serving winner is at the path if and only if its endpoint was not removed, and only a guard that captured another's socket can have removed it |
| Endpoint.OneWinnerAtATime | src/local/unix_socket.rs:69-111 | two winners serve at once only if such a guard removed one of them, so never when captures are made in time |
| Endpoint.NobodyWinsAgainstAServer | src/local/unix_socket.rs:83-111 | while one serves at the path no other call gets as far as unlinking or binding |
| Endpoint.LockIsNeverLeftBehind | src/local/unix_socket.rs:69-147 | in every run whoever holds the bind lock is in the middle of a call |
| Endpoint.AFreshCallWins | src/local/unix_socket.rs:69-111 | in every state any run reaches with the lock free, a fresh call on a free path or a dead socket, left alone, wins and serves at the path |
| Endpoint.AFreshCallLeavesOtherFiles | src/local/unix_socket.rs:83-91 | a file that is no socket sends it away and stays |
| Endpoint.ADroppedGuardRemovesExactly | src/local/unix_socket.rs:134-147 | in every state any run reaches with the lock free, a guard dropped alone removes exactly the socket it observed |
| Endpoint.AcquireIsBounded | src/local/unix_socket.rs:69-111 | every step a call takes leaves it fewer: no call goes round in circles |
| RecordSlot.MatchesIsEquality | src/publication.rs:348-358 | the bounded comparison is equality |
| RecordSlot.ReadLimited | src/publication.rs:184-222 | the bounded read returns the whole record or refuses it, never a part |
| RecordSlot.Directory.Publish | src/publication.rs:108-168 | the record becomes the contents asked for, or on a failure before the rename stays what it was, and no other name in the directory changes: no temporary is left and a taken one is untouched |
| RecordSlot.Directory.Repair | src/publication.rs:282-289 | publishes exactly when the record differs |
| RecordSlot.Directory.ReplaceIf | src/publication.rs:295-307 | publishes exactly when the predicate accepts the record found; a record over the limit is an error |
| RecordSlot.Directory.RemoveIfMatches | src/publication.rs:311-318 | removes exactly an equal record |
| RecordSlot.Directory.RemoveIf | src/publication.rs:322-332 | asks only about a record that is there and within the limit, and removes exactly what the predicate accepts |
| RecordProtocol.InvariantHolds | src/publication.rs:108-332 | over every run of users, readers and crashes, temporaries stay private until renamed, renamed files never change, and lock holders' checks stay true |
| RecordProtocol.ReadsAreAtomic | src/publication.rs:184-222 | a lock-free read in pieces answers what reading the whole record at the moment of its open would: missing, whole within the limit, or refused beyond it |
| RecordProtocol.NoTornRecord | src/publication.rs:108-168 | with partial writes and crashes anywhere, what is in place and what any reader answers is something a publisher was asked to publish, whole |
| RecordProtocol.SlotIsSerializable | src/publication.rs:264-332 | when everybody uses the slot, the record is the result of its operations one at a time, each deciding on the very record it replaced or removed |
| RecordProtocol.AloneDoesWhatItIsAsked | src/publication.rs:264-332 | in every state any run reaches with the lock free, the steps of any operation, left alone, leave what it was asked for where it wants to act, and otherwise the record as it was, and let go of the lock |
| RecordProtocol.ReadsAlone | src/publication.rs:184-222 | in every reachable state a fresh read, left alone, finishes with the answer for the record in place |
| RecordProtocol.ReadsAreBounded | src/publication.rs:184-222 | in every run a read takes in no more than one byte past its limit |
| RecordProtocol.LockIsNeverLeftBehind | src/publication.rs:264-332 | in every run whoever holds the slot lock is in the middle of an operation |
| RecordProtocol.Perform | src/publication.rs:264-332 | the directory object and the protocol agree: a call leaves the record the protocol's steps leave |
| RecordProtocol.ActsOnWhatItCheckedExactly | src/publication.rs:264-332 | over every run, plain publications included, an operation acted on the very record it had checked if and only if no plain rename between its decision and its effect left another |
| RecordProtocol.CleanupRemovesItsOwnExactly | src/publication.rs:311-318 | a cleanup takes a record that is not its own exactly when a plain publication replaced its own after the comparison |
| RecordProtocol.CleanupRemovesOnlyItsOwn | src/publication.rs:311-318 | so when everybody uses the slot an old owner never removes a differing successor record |
| RecordProtocol.PlainPublicationCanBeRemoved | src/publication.rs:103-106 | without the slot lock that fails: a run in which a plain publication is removed by a cleanup that compared another record |
| Replacement.Machine.Advance | src/replacement.rs:167-193 | one answer moves the machine as the transition table says, ends it, or is refused as invalid |
| Replacement.PlayRound | src/replacement.rs:209-246 | one round: the call, its deadline checks and the next deadline or sleep |
| Replacement.Run | src/replacement.rs:200-247 | the driver loop computes the rounds the theorems are about |
| Replacement.CallsFollowTheScript | src/replacement.rs:167-193 | for any adapter and clock, every call asks for the first step of the mode's order not yet done, and only a recheck, a drain or a live proof is asked twice |
| Replacement.MilestonesInOrder | src/replacement.rs:167-193 | commit at most once and only after a live proof and a revalidation; exclusive start after drain; overlap never drains and retires only after the commit |
| Replacement.ResultIsHonest | src/replacement.rs:200-247 | every outcome and failure says truly how far the run got, and a failure says committed exactly when the commit was made, however late it returned |
| Replacement.DeadlinesAreKept | src/replacement.rs:200-247 | no call is made past its deadline, and retries share the deadline of their phase |
| Replacement.DeadlineFailuresAreLate | src/replacement.rs:200-247 | a deadline is blamed only once it has come, by the round that ended the run |
| Replacement.AllDoneCompletes | src/replacement.rs:200-247 | with time in hand and an adapter that does what it is asked, seven calls complete either mode |
| Replacement.Wait | src/replacement.rs:236-245 | a retry sleeps one poll interval, cut short exactly where the deadline comes first |
| Replacement.BudgetsStartWithTheirPhase | src/replacement.rs:230-236 | each change of phase starts that phase's own budget between the last call of the old phase and the first of the new: drain or retire on the drain budget, setup again after a drain |
| Replacement.CallsAreBounded | src/replacement.rs:200-247 | at most seven calls plus one for each poll interval begun in the budgets; with an unlimited drain only its retries are not bounded |
| Replacement.EveryReplacementEnds | src/replacement.rs:200-247 | with a drain budget every run ends, whatever the adapter answers |
| Allocation.Store.Allocate | src/generation.rs:15-42 | the scan finds the next number and writes the counter before returning it; a refusal leaves the counter alone |
| Allocation.CounterReadsBack | src/generation.rs:21-25 | the counter reads back as the number written, for every 64-bit number and any surrounding Unicode whitespace |
| Allocation.ParsesExactly | src/generation.rs:21-35 | what is read as a number, exactly: at least one digit and nothing else after at most one plus sign, and no more than 64 bits hold |
| Allocation.AllocationIsTheNextFree | src/generation.rs:15-42 | the result is one above something taken and above everything taken; refused exactly for an unreadable counter or when the largest number is taken |
| Allocation.GenerationsIncrease | src/generation.rs:15-42 | across crashes before or after publishing, numbers handed out strictly increase |
| Allocation.AttemptsAreCounted | src/generation.rs:15-42 | after any attempts, the next one leaves its number in the counter unless it died before publishing, and hands it out exactly if it returned |
| Sessions.Generation.constructor | src/generation.rs:139-153 | a generation that starts superseded starts its drain clock |
| Sessions.Generation.Select | src/generation.rs:170-188 | refuses to go back, starts the drain clock only once, and notifies exactly on a change, after its section under the lock |
| Sessions.Generation.Admit | src/generation.rs:190-200 | a lease exactly while not retired, counted from the start |
| Sessions.Generation.TryRetire | src/generation.rs:214-246 | retires exactly when eligible and idle or past the limit, and says which |
| Sessions.Lease.MarkLegacy | src/generation.rs:284-293 | marking twice counts once |
| Sessions.Lease.Drop | src/generation.rs:295-308 | takes the lease out of both counts and notifies |
| Sessions.CountsAreLeases | src/generation.rs:190-308 | in every run the counts are the leases held and the marked ones among them, and no counter goes below zero |
| Sessions.LeasesAreHistory | src/generation.rs:190-308 | in every run a session is held exactly from its admission, while the generation was not retired, to its drop |
| Sessions.LegacyIsHistory | src/generation.rs:284-293 | and it is legacy exactly if it was marked since |
| Sessions.NewsIsToldOnce | src/generation.rs:170-308 | in every run each selection that moved and each session that ended is notified exactly once, or is about to be |
| Sessions.NoticesGoOut | src/generation.rs:184-186 | what is about to be notified is, by its own step |
| Sessions.NothingGoesBack | src/generation.rs:170-246 | selection never moves back, the drain clock never restarts, retirement is permanent and after it sessions only end |
| Sessions.SelectionIsTheHighest | src/generation.rs:170-188 | in every run the selection is the highest ever asked for |
| Sessions.RetiresExactly | src/generation.rs:214-246 | over every run an attempt to retire succeeds if and only if a newer generation was selected or a staged candidate passed over for its lifetime, and no session is left or the drain limit has passed; it reports which, with the sessions held |
| Sessions.DrainClockIsFirstNewer | src/generation.rs:170-188 | the drain clock is the time a newer generation was first selected, from the history of the selection alone |
| Sessions.RetirementIsJustified | src/generation.rs:214-246 | behind every retirement is a moment when the generation was superseded or an expired candidate, not the selected one, and had no session or was past the limit |
| Sessions.NoSessionIsAbandonedEarly | src/generation.rs:214-246 | a retired generation holds a session only if the drain limit has passed since a newer one was first selected |
| Sessions.NoRetirementIsMissed | src/generation.rs:108-137 | over every run of the loop and of everybody else, a sleeping loop whose generation may retire has an unseen notice, a selection about to send one, a pause that has passed since it read the time left, or an expired staging lifetime, for which it sleeps at most one interval |
| Sessions.TheLoopRetires | src/generation.rs:108-137 | over every run, a sleeping loop with a reason to wake retires its generation if it may, within one round, and reports what a call to retire would have |
| Sessions.TheLoopEndsWhenItRetires | src/generation.rs:108-137 | a loop that retires its generation ends with that step |
| Sessions.SleepsNoLessThanItShould | src/generation.rs:108-137 | the loop does not spin: it sleeps its interval or exactly to the drain limit, and wakes only for a notice or when that time has passed |
| Sessions.SelectionNotifiesLate | src/generation.rs:184-186 | the window between the lock section of a selection and its notification, as a run: retirement possible, the loop asleep and untold |
| Retry.State.Reserve | src/retry.rs:30-38 | the saturating word arithmetic of one reservation, in range for every policy and clock |
| Retry.State.Exhaust | src/retry.rs:41-43 | spends the whole budget and keeps the schedule |
| Retry.DelayGrows | src/retry.rs:30-38 | more attempts never wait less, and never more than the maximum |
| Retry.DelayDoublesExactly | src/retry.rs:30-38 | the delay is exact doubling with a cap if and only if attempts are at most 63, the delay is not one, or the maximum is at most 2^63 |
| Retry.FirstWaitIsDoubled | src/retry.rs:30-38 | the wait after the first attempt is twice the initial delay, saturated and capped, and is the initial delay if and only if that is zero or the maximum |
| Retry.ReservationSchedules | src/retry.rs:30-38 | the next attempt lies between the smaller of delay and maximum and the maximum from now, up to the end of the clock |
| Retry.AllowedIsNextTime | src/retry.rs:23-48 | an attempt is allowed exactly from the announced next time |
| Retry.LaunchesAreLimited | src/retry.rs:23-38 | across any crashes a campaign launches at most what its limit leaves |
| Retry.TheWholeLimitCanBeUsed | src/retry.rs:23-38 | asked late enough, a fresh campaign launches as often as its limit says |
| Retry.AttemptLaunchesExactly | src/retry.rs:23-38 | after any run an attempt launches exactly if the stored budget has one left and its time has come; dying before the launch spends it all the same, dying before the write does not |
| Retry.LaunchesAreSpaced | src/retry.rs:23-38 | any two launches are at least the earlier one's back-off apart, whatever the clock did in between, and back-offs do not shrink |
| Retry.GivingUpIsFinal | src/retry.rs:41-43 | after a permanent failure nothing is launched again |

## Left out

- Async twins of the handshake, the replacement loop, the selection wait and the channel waits: they take the same decisions as the blocking forms.
- Operating system code (`src/local/unix.rs`, the Windows files, process spawning, signals, peer credentials): only its effects listed as assumptions appear.
- Protobuf encoding and unknown enum values: message bodies are opaque bytes with a lossless codec.
- `src/admission.rs`, `src/observation.rs`, `src/client.rs`, `src/socket_path.rs`, `src/serve.rs`, `src/upgrade.rs`, `src/launch.rs`, `src/warmup.rs`: counters, naming checks and I/O loops that would add easier members.
- `src/publication/windows.rs`: retries tied to NTFS; the Unix rename carries the protocol.
- The per-message capability check of an established session (src/wire.rs:224-258).
- Capability masks are sets of bit numbers rather than 64-bit words.
- `Lifecycle::drain_until`, `unless_draining` and the elapsed times in snapshots.
- `ControlService::handle`: request dispatch; only the state it reads and changes is modelled.
- The cutting of an extension from the file names that `allocate` scans (src/generation.rs:27-35): the model takes file stems.
- What the callback of `run_until_retired` does while it runs: any steps of any run.
- Watch.NoChangeIsLost: the send timeout of a subscription appears as a failure that may come at any step.
- Permissions and modes of sockets, records and directories.
