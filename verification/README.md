# RetroPark: netplay, presentation and option models

RetroPark runs emulator cores behind one host runtime. This project models the parts of it that are
hard to get right and proves what they are for.

**Rollback netplay.** A session never waits: it feeds a predicted remote input, keeps a ring of
snapshots, and when a real input contradicts what was fed it reloads the earliest wrong frame and
replays. `RollbackModel` is one tick as a function of the session and of what the transport does;
`RollbackSession` is the class, over the runtime, the transport and the wire codec, proved equal to
that function field by field and message by message. `RollbackProofs` has the invariant of one
session, `RollbackWindow` its bounds and `RollbackPeers` the system of two sessions over FIFO channels
stepped in any order; `RollbackBounds` states the bounds over whole runs, with their exact conditions.
`RollbackStable` frees the players to give any input at every tick: the pair converges when a stalled
frame is retried with the same input, and there is a run where it does not when the input changes.
`RollbackRetry` is the receiver's side of that, `RollbackStatus` what every returned status means,
`RollbackChecksums` which checksums are taken, sent and held, and `RollbackPrediction` what is fed for
the remote player and what is kept. The reference everything is compared with is the session that
waits for every real input.

**Lockstep netplay.** `LockstepModel`, `LockstepProofs` and `LockstepPeers` do the same for the
delayed-input session, here with two machines that may differ, so that the window in which the
checksums catch a difference is exact: a delay of at most 120 frames. `LockstepStatus` says, for every
session and link, which status a half-tick returns, what it takes and what it keeps. `NetSession` is
the class.

**Shared by both.** `Handshake` (hello, agreement, state transfer), `NetMessages` and `NetProtocol`
(wire format), `Transport` (message channels), `Crc32`, `Runtime` (advance, save states, rewind) and
`RefCoreRollback`, a concrete core for which the abstract results are stated outright.

**Presentation.** `TwoTimeline` is the protocol by which a core and the host share images: producer,
GPU and host steps, the producer's rule taken from the ABI. `VulkanBackend` is the timeline part of
the presenting code and is shown to be the protocol's host; `SurfaceRing` says which frame is newest.

**Audio, TCP, options.** `AudioQueue` is the backlog counter as interleaved atomic steps of any number
of submits and callbacks. `TcpTransport` is the framing, its loops, and both loops together under any
segmentation. `CoreOptions` is the option table and the parser of declarations, `OptionsJson` the
printer and a reader that follows RFC 8259.

## Conventions

A core is a triple of functions: `step` on a state and the inputs of both ports, `save` and `load`.
`Exact` says that every state saves to a non-empty blob that loads back; results that need it say so.
A `World` fixes a core, a start state and each player's input as a function of the frame, which is
the hypothesis that a retry passes the same input again. `ready` and `incoming` are the messages that
arrive before a call returns.

## Where the code and what is said about it differ

- The desync that `check_desync` finds is overwritten by `tick` with `Stalled` or `Ok`
  (src/net/RollbackSession.cpp:99-100, 112-113). The model keeps the code: the results are about the
  checksum maps, and `RollbackStatus` says exactly when a tick returns `Desync`.
- A checksum is taken when a tick ends with a multiple of 60 verified
  (src/net/RollbackSession.cpp:116-117). A verified mark that jumps over such a frame leaves its checksum
  out; `RollbackChecksums` says exactly which frames are checksummed. The maps that hold the checksums
  are not pruned.
- The retention slack is added in 32 bits (src/net/RollbackSession.cpp:132). At a prediction limit of
  2^32 - 2 it is 0 and the input that predictions repeat is pruned; only predictions change.
- The stall guard is off until the first remote input arrives (src/net/RollbackSession.cpp:96), so the
  bounds on replay and on the ring hold when the first input arrives in time, and exactly then
  (`RollbackBounds`).
- The checksum maps of the lockstep session are said to be kept past the checksum round trip
  (src/net/NetSession.cpp:111-112). That is so up to a delay of 120 frames and not beyond.
- Starting a session again does not clear its maps (src/net/RollbackSession.cpp:31-33,
  src/net/NetSession.cpp:37-38). `Handshake` gives the condition, empty maps, and what a left-over input does.
- The two sessions compare core ids differently (src/net/NetSession.cpp:30,
  src/net/RollbackSession.cpp:25). On ids the sessions build themselves this makes no difference.

## Model

| member | source | states |
|---|---|---|
| `RollbackPeers.PeersConverge` | src/net/RollbackSession.cpp:59-130 | in every reachable state of two sessions over FIFO channels, under any interleaving of ticks and deliveries, both hold the same snapshot of every frame both have verified |
| `RollbackPeers.VerifiedIsTrue` | src/net/RollbackSession.cpp:75-113 | every snapshot at or below `verified` is the state a session that waited for all real inputs would hold, and the mark itself has one |
| `RollbackPeers.ChecksumsNeverClash` | src/net/RollbackSession.cpp:116-130 | own and received checksums of a frame always agree, on each peer and between the peers: no false desync |
| `RollbackPeers.RightGuessesShowTheTruth` | src/net/RollbackSession.cpp:102-110 | a peer whose unverified frames were fed the real input is in the true current state |
| `RollbackPeers.StepRefinesWaiting` | src/net/RollbackSession.cpp:59-114 | refinement: each step of the pair is, for the settled part of a session, some number of steps of a session that only runs a frame once both inputs are known |
| `RollbackPeers.TrailingPeerRuns` | src/net/RollbackSession.cpp:95-110 | when everything in flight arrives, the peer that is not ahead runs its frame; two such peers are never both stalled |
| `RollbackPeers.RoundsVerify` | src/net/RollbackSession.cpp:59-114 | liveness: after n + 1 rounds of ticks that deliver everything, both peers have run n + 1 frames and verified n |
| `RollbackPeers.StepOk` | src/net/RollbackSession.cpp:59-114 | every tick of either peer keeps the invariant of the pair |
| `RollbackProofs.TickCoherent` | src/net/RollbackSession.cpp:59-114 | every tick keeps: state and snapshots are the fold over the inputs fed, the verified prefix was fed the real inputs, every snapshot and input from the retention floor up is still there |
| `RollbackProofs.TickVerifies` | src/net/RollbackSession.cpp:76-93 | after a tick at F > 0 with a confirmed input, `verified` is min(`confirmed` + 1, F); otherwise 0 |
| `RollbackProofs.TickRunsInsideWindow` | src/net/RollbackSession.cpp:95-110 | frame F runs if and only if no input has arrived yet or F <= `confirmed` + `maxPrediction` |
| `RollbackProofs.TickSends` | src/net/RollbackSession.cpp:61-65 | what a tick sends continues a gapless stream of the player's inputs and of true checksums |
| `RollbackProofs.DrainCoherent` | src/net/RollbackSession.cpp:66-74 | taking any prefix of the peer's stream keeps the invariant and confirms exactly its highest frame |
| `RollbackProofs.ReconcileCoherent` | src/net/RollbackSession.cpp:75-94 | reconciling never fails to load, keeps the invariant and verifies up to min(`confirmed`, F - 1) |
| `RollbackProofs.SnapshotLoads` | src/net/RollbackSession.cpp:81 | when a tick rolls back to g, the snapshot of g exists and restores the state before g |
| `RollbackProofs.RollBackCoherent` | src/net/RollbackSession.cpp:80-92 | a rollback to the earliest wrong frame replays to a session whose verified frames were all fed the real input |
| `RollbackProofs.PrunedInputs` | src/net/RollbackSession.cpp:131-136 | pruning below the floor drops no input the invariant needs |
| `RollbackWindow.TickKeepsWindow` | src/net/RollbackSession.cpp:95-101 | a tick keeps a session within `maxPrediction` + 1 frames of the confirmed one, when its first input arrives by frame `maxPrediction` |
| `RollbackWindow.ReplayIsBounded` | src/net/RollbackSession.cpp:79-89 | a tick of a session inside its window replays at most `maxPrediction` frames, when an input has arrived or arrives by frame `maxPrediction` |
| `RollbackWindow.LateFirstInputReplaysEverything` | src/net/RollbackSession.cpp:96 | without that condition the bound is false: a late first input replays all F frames |
| `RollbackWindow.RingIsBounded` | src/net/RollbackSession.cpp:131-136 | the ring of a session inside its window holds at most 2 * `maxPrediction` + 3 entries, once an input has arrived or while at most `maxPrediction` frames have run |
| `RollbackWindow.RingUnboundedBeforeFirstInput` | src/net/RollbackSession.cpp:131-136 | before the first input nothing is pruned: the ring holds at least every frame run |
| `RollbackRetry.SecondInputKeepsWhatIsSettled` | src/net/RollbackSession.cpp:63-93 | a second, different input for a verified frame, anywhere among a tick's messages, keeps the verified mark, every snapshot and what was fed at every other frame; and exactly when it changes the guess for the current frame |
| `RollbackStable.RepeatedInputsConverge` | src/net/RollbackSession.cpp:61-65 | players free to give any input at every tick: the pair converges whenever every retry of a frame repeats the input given before |
| `RollbackStable.ChangedRetryDiverges` | src/net/RollbackSession.cpp:61-65 | for every exact core, start and inputs there is a run in which the host retries frame 2 with another input and both peers verify frame 3 with snapshots that differ exactly when the core can tell the two inputs apart |
| `RollbackStable.SomeRunDiverges` | src/net/RollbackSession.cpp:95-100 | so a core that can tell inputs apart has a run that does not repeat its inputs and does not converge |
| `RollbackBounds.TimelyRunsAreBounded` | src/net/RollbackSession.cpp:79-105 | in every run whose first inputs arrive by frame M, no tick replays more than M frames and a peer with an input holds at most 2M + 3 snapshots |
| `RollbackBounds.ReplayBoundIsExact` | src/net/RollbackSession.cpp:79-96 | in any reachable state, a peer without an input has its next replay bounded by M, whatever arrives, if and only if it has run at most M frames |
| `RollbackBounds.RingBeforeFirstInput` | src/net/RollbackSession.cpp:131-136 | in every run, a peer without an input holds exactly as many snapshots as it has run frames, so the ring bound fails exactly beyond 2M + 3 frames |
| `RollbackBounds.ConfirmedInputKept` | src/net/RollbackSession.cpp:131-136 | `remote[confirmed]` is there exactly unless the slack has wrapped to 0 and the confirmed frame is verified |
| `RollbackBounds.ConfirmedInputAlwaysKept` | src/net/RollbackSession.cpp:132 | over whole runs it is always there exactly when the prediction limit is not 2^32 - 2 |
| `RollbackStatus.DesyncMeansSnapshotLost` | src/net/RollbackSession.cpp:59-114 | a tick returns Desync if and only if the session was connected, send and poll worked, and a needed snapshot did not load |
| `RollbackStatus.ClashIsOverwritten` | src/net/RollbackSession.cpp:99-100 | a session whose checksums clash returns Ok |
| `RollbackStatus.StatusOfTick` | src/net/RollbackSession.cpp:59-114 | every status of every tick, for every core, session and transport: Disconnected exactly when it was or sending or polling fails, Desync exactly when a needed snapshot does not load, Stalled exactly when the session is `maxPrediction` or more frames past the confirmed one, and otherwise Ok; the frame moves on Ok only |
| `RollbackStatus.SentByTick` | src/net/RollbackSession.cpp:61-65 | every message of every tick, for every core and transport: the input when sending works, then the checksum of the verified snapshot when a positive multiple of 60 is verified and the tick was not cut short |
| `RollbackStatus.ReconcilePlace` | src/net/RollbackSession.cpp:75-94 | the mark moves to the horizon unless a needed snapshot does not load, and then nothing else changes; one rollback is counted exactly when a misprediction was found and replayed |
| `RollbackStatus.DisconnectedTickDoesNothing` | src/net/RollbackSession.cpp:60-74 | a tick that is or becomes disconnected runs nothing, takes no snapshot and no checksum, and keeps only the input given and what was received |
| `RollbackChecksums.TickChecksums` | src/net/RollbackSession.cpp:116-125 | a tick that ends with a positive multiple of 60 verified records the true checksum of that frame and sends it after the input; any other tick records and sends none |
| `RollbackChecksums.ChecksumsArrive` | src/net/RollbackSession.cpp:67-73 | in every run a peer has sent exactly the checksums it recorded and the other holds exactly those it has taken, all of true states |
| `RollbackChecksums.RecordedExactlyWhenMarked` | src/net/RollbackSession.cpp:116-121 | in every run the checksum of frame f is recorded if and only if f is a positive multiple of 60 and some tick ended with f as the verified mark |
| `RollbackPrediction.TickFeeds` | src/net/RollbackSession.cpp:83-87 | what a tick feeds for the remote player, in the frame it runs and in every frame it replays: the real input once it is there, else the last one received, zeros before the first |
| `RollbackPrediction.KeptExactly` | src/net/RollbackSession.cpp:131-136 | in every run snapshots and inputs are kept from `maxPrediction` + 2 frames below the verified mark on, and none older |
| `RollbackSession.RollbackSession.Tick` | src/net/RollbackSession.cpp:59-114 | the whole new session, the messages sent and the returned status equal the model, for every core, session and transport behaviour |
| `RollbackSession.RollbackSession.Drain` | src/net/RollbackSession.cpp:66-74 | takes everything ready, in order, and tells an empty transport from a failed one |
| `RollbackSession.RollbackSession.Reconcile` | src/net/RollbackSession.cpp:75-94 | step 3 of the tick on the fields, including a snapshot that does not load |
| `RollbackSession.RollbackSession.RollBack` | src/net/RollbackSession.cpp:80-91 | load, replay and count, creating missing map entries as `std::map` indexing does |
| `RollbackSession.RollbackSession.Simulate` | src/net/RollbackSession.cpp:102-110 | step 5 of the tick on the fields |
| `RollbackSession.RollbackSession.SaveRing` | src/net/RollbackSession.cpp:53-57 | stores the save blob, an empty one for a core of save size 0, nothing when saving fails |
| `RollbackSession.RollbackSession.MaybeSendChecksum` | src/net/RollbackSession.cpp:116-124 | records and sends the checksum of the verified snapshot on every 60th frame |
| `RollbackSession.RollbackSession.CheckDesync` | src/net/RollbackSession.cpp:125-130 | reports a desync exactly when some frame has two different checksums |
| `RollbackSession.RollbackSession.Prune` | src/net/RollbackSession.cpp:131-136 | drops everything below `verified` less the slack, `maxPrediction` + 2 in 32 bits, from four maps |
| `RollbackPredict.RbFirstMispredicted` | src/net/RollbackPredict.cpp:4-18 | the earliest frame of the range whose real input differs from the one fed; the sentinel is ambiguous for one bound only |
| `RollbackModel.FirstMispredicted` | src/net/RollbackPredict.h:21-26 | the found frame is mispredicted and no earlier frame of the range is |
| `RollbackPredict.RbPruneBelow` | src/net/RollbackPredict.h:28-32 | keeps exactly the entries from the floor up |
| `LockstepPeers.PeersFollowCanon` | src/net/NetSession.cpp:59-123 | under every interleaving with any time-outs and retries, a peer at frame n that has not reported a desync is in the canonical state: host inputs on port 0, join inputs on port 1, shifted by the delay, neutral before |
| `LockstepPeers.SameMachinesAgree` | src/net/NetSession.cpp:59-123 | equal machines never report a desync and hold equal states at equal frames |
| `LockstepPeers.SkewIsBounded` | src/net/NetSession.cpp:73-83 | the two frames are never more than delay + 1 apart |
| `LockstepPeers.TrailingPeerCompletes` | src/net/NetSession.cpp:59-83 | no deadlock: a peer that is not ahead completes its frame once what is in flight arrives |
| `LockstepPeers.RoundsComplete` | src/net/NetSession.cpp:59-123 | liveness: equal machines run as many frames as there are rounds |
| `LockstepPeers.DivergenceStopsTheMatch` | src/net/NetSession.cpp:94-118 | with delay <= 120, no peer ever gets past frame f + delay + 1 when the checksums of frame f differ |
| `LockstepPeers.DivergenceIsReported` | src/net/NetSession.cpp:106-110 | a peer that completes the comparison of frame f + delay + 1 reports the desync there |
| `LockstepPeers.RoundsCatchDivergence` | src/net/NetSession.cpp:94-118 | machines whose checksums of frame f differ are stopped after f + delay + 2 rounds |
| `LockstepPeers.LongDelayHidesDivergence` | src/net/NetSession.cpp:116-118 | with delay > 120 no desync is ever reported, however the machines differ: the own checksum is pruned before the other can be taken |
| `LockstepPeers.DesyncIsReal` | src/net/NetSession.cpp:106-110 | a reported desync is a real difference of two checksums, older than the input delay |
| `LockstepPeers.StepOk` | src/net/NetSession.cpp:59-123 | every half-tick keeps the invariant of the pair and no frame number falls |
| `LockstepStatus.StatusOfRecv` | src/net/NetSession.cpp:68-123 | the status of every second half-tick, read off the session and the link: Waiting exactly when the owed input is missing on an open link; Disconnected exactly when it is missing on a closed one or a checksum is due and does not go out; Desync exactly when two checksums of a frame then differ; with the state, frame, messages sent and messages left |
| `LockstepStatus.KeptByRecv` | src/net/NetSession.cpp:111-121 | a half-tick that completes a frame keeps inputs from three frames back and checksums from 120 back; any other keeps everything |
| `LockstepStatus.StatusOfSend` | src/net/NetSession.cpp:59-66 | the first half-tick disconnects exactly when sending fails, and files its input at frame + delay either way |
| `LockstepStatus.DisconnectedStays` | src/net/NetSession.cpp:60-69 | a disconnected session changes nothing, sends nothing and takes nothing |
| `LockstepStatus.AwaitTakes` | src/net/NetSession.cpp:73-83 | what a receive takes is the messages up to and including the first that brings the owed input, all of them when none does, none when none is owed |
| `LockstepProofs.DrainOk` | src/net/NetSession.cpp:74-82 | draining takes no message beyond the input it waits for, so a checksum of frame f is taken only after frame f + delay |
| `LockstepProofs.CompleteOk` | src/net/NetSession.cpp:84-122 | running a frame on canonical inputs keeps the invariant, or stops at a difference |
| `LockstepProofs.NoClashNonePassed` | src/net/NetSession.cpp:105-118 | a frame completed without a mismatch has passed over no difference inside the window |
| `LockstepProofs.PruneOk` | src/net/NetSession.cpp:111-118 | the pruning windows keep the inputs still needed and the checksums of the last two periods |
| `LockstepProofs.GiveOk` | src/net/NetSession.cpp:59-66 | giving an input, first or again, keeps the order of the sent stream |
| `NetSession.NetSession.TickSend` | src/net/NetSession.cpp:59-66 | the pending input, the message and the status are those of the model |
| `NetSession.NetSession.TickRecvAndAdvance` | src/net/NetSession.cpp:68-123 | the whole new session, what it sends and what it leaves in the transport equal the model |
| `NetSession.NetSession.Tick` | src/net/NetSession.h:20 | both halves in sequence |
| `NetSession.NetSession.DrainUntil` | src/net/NetSession.cpp:73-83 | stops at the needed input, a time-out or a closed transport, and tells which |
| `NetSession.NetSession.Complete` | src/net/NetSession.cpp:84-122 | run, report, compare, prune and move on, in that order |
| `NetSession.NetSession.Report` | src/net/NetSession.cpp:94-105 | the checksum of the state after this frame, on every 60th frame |
| `NetSession.NetSession.Compare` | src/net/NetSession.cpp:106-110 | finds a mismatch exactly when one exists |
| `NetSession.NetSession.Prune` | src/net/NetSession.cpp:111-118 | keeps inputs from frame - 3 and checksums from frame - 120 |
| `Handshake.IdentityIsMutual` | src/net/NetSession.cpp:21-35 | over a lossless transport the hello exchange succeeds on both sides or on neither, exactly for equal ABI versions, equal content and equal core ids cut to 63 bytes, and otherwise both sides return the same error; for both session kinds |
| `Handshake.AgreedIsTheHosts` | src/net/RollbackSession.cpp:26-28 | both sides end with the host's delay or prediction limit, and a rollback limit of 0 becomes 8 on both |
| `Handshake.MeetOnBytes` | src/net/RollbackSession.cpp:22-28 | the outcome for every incoming message, byte by byte: not a hello is Internal, another version than 9 is AbiMismatch whatever the rest, other content or another id is BadArg, and every other hello is accepted with the host's value |
| `Handshake.MeetOnHello` | src/net/NetSession.cpp:27-33 | for a hello that a session sent: accepted if and only if version, content and core agree |
| `Handshake.IdOnWire` | src/net/NetSession.cpp:30 | which id fields match: every byte for lockstep, those up to the end of the text for rollback |
| `Handshake.HelloOnWire` | src/net/RollbackSession.cpp:18-21 | the hello a session sends, byte by byte |
| `Handshake.SyncOnBytes` | src/net/RollbackSession.cpp:46-50 | the outcome for every second message: not a whole state message is Internal, a state the core refuses is Unsupported, an empty one is passed over, any other is loaded |
| `Handshake.StatesAgree` | src/net/RollbackSession.cpp:31-51 | with an exact core the join side starts whenever the host does, and in the host's state |
| `Handshake.JoinTakesTheBlob` | src/net/NetSession.cpp:49-57 | the join side loads the blob cut to its length modulo 2^32; an empty one leaves its state alone |
| `Handshake.EmptySaveKeepsStates` | src/net/NetSession.cpp:40-43 | with save size 0 the two sides agree exactly when their states did before |
| `Handshake.SameIdIsSameText` | src/net/RollbackSession.cpp:10-25 | on ids as the sessions build them, comparing all 64 bytes and comparing up to the terminator agree |
| `Handshake.IdComparisonsDiffer` | src/net/NetSession.cpp:30 | on arbitrary fields they differ |
| `Handshake.HandshakeStartsTheMatch` | src/net/RollbackSession.cpp:31-51 | what the two starts leave in the session objects is the start state of the convergence results, if and only if their maps are empty |
| `Handshake.LockstepHandshakeStartsTheMatch` | src/net/NetSession.cpp:37-57 | the same for the lockstep results |
| `Handshake.LeftoverInputIsFed` | src/net/NetSession.cpp:73-90 | a remote input left from an earlier match is fed without taking a message |
| `Handshake.LeftoverInputBreaksAgreement` | src/net/NetSession.cpp:37-38 | a session restarted with one leaves the canonical run exactly when the core can tell it from the peer's input |
| `RollbackSession.RollbackSession.Handshake` | src/net/RollbackSession.cpp:16-29 | result, agreed limit and message for every incoming hello, in the order the code checks |
| `RollbackSession.RollbackSession.StartHost` | src/net/RollbackSession.cpp:31-41 | result, session and messages of the host side, every failure included; the maps are left alone |
| `RollbackSession.RollbackSession.StartJoin` | src/net/RollbackSession.cpp:43-51 | result, session, core state and messages of the join side |
| `NetSession.NetSession.Handshake` | src/net/NetSession.cpp:21-35 | the same for the lockstep session |
| `NetSession.NetSession.StartHost` | src/net/NetSession.cpp:37-47 | result, session and messages of the host side |
| `NetSession.NetSession.StartJoin` | src/net/NetSession.cpp:49-57 | result, session, core state and messages of the join side |
| `Transport.Endpoint.Send` | src/net/LoopbackTransport.cpp:5-13 | appends the message, or fails on a closed channel |
| `Transport.Endpoint.Recv` | src/net/LoopbackTransport.cpp:14-25 | takes the oldest message, or says why there is none |
| `Transport.MakeLoopbackPair` | src/net/LoopbackTransport.cpp:34-40 | two endpoints over two channels, crosswise |
| `Transport.ChannelIsFifo` | src/net/LoopbackTransport.cpp:5-25 | under any interleaving of sends and receives messages come out in the order they went in |
| `NetProtocol.HelloLayout` | src/net/NetProtocol.cpp:52-58 | the tag, size and place of every field of a hello |
| `NetProtocol.StateSyncLayout` | src/net/NetProtocol.cpp:59-64 | the same for a state message |
| `NetProtocol.InputLayout` | src/net/NetProtocol.cpp:17-71 | the same for an input message, axes in two's complement |
| `NetProtocol.ChecksumLayout` | src/net/NetProtocol.cpp:72-76 | the same for a checksum message |
| `NetMessages.MessageOnBytes` | src/net/NetSession.cpp:79-81 | what a running session makes of any bytes: an input or a checksum exactly when the tag says so and all its bytes are there, anything else ignored |
| `NetProtocol.HelloRoundTrip` | src/net/NetProtocol.cpp:26-58 | decode after encode gives the hello back exactly when the last id byte is 0 |
| `NetProtocol.StateSyncRoundTrip` | src/net/NetProtocol.cpp:33-64 | gives the state back exactly when the blob is shorter than 2^32 bytes |
| `NetProtocol.InputRoundTrip` | src/net/NetProtocol.cpp:39-71 | gives every input message back |
| `NetProtocol.ChecksumRoundTrip` | src/net/NetProtocol.cpp:44-76 | gives every checksum message back |
| `NetProtocol.StateSyncReencodes` | src/net/NetProtocol.cpp:33-64 | re-encoding a decoded state message gives a prefix of it |
| `NetProtocol.InputReencodes` | src/net/NetProtocol.cpp:39-71 | re-encoding a decoded input message gives a prefix of it |
| `NetProtocol.ChecksumReencodes` | src/net/NetProtocol.cpp:44-76 | re-encoding a decoded checksum message gives a prefix of it |
| `NetProtocol.HelloReencodes` | src/net/NetProtocol.cpp:52-58 | re-encoding a decoded hello gives its first 89 bytes with the last id byte zeroed |
| `NetProtocol.Put` | src/net/NetProtocol.cpp:5-7 | the byte loop appends the little-endian bytes |
| `NetProtocol.Get` | src/net/NetProtocol.cpp:8-10 | reads exactly when enough bytes are left, and never past the end |
| `NetProtocol.DecodeHello` | src/net/NetProtocol.cpp:52-58 | accepts exactly the tagged messages of at least 89 bytes |
| `NetProtocol.DecodeStateSync` | src/net/NetProtocol.cpp:59-64 | accepts exactly the tagged messages that hold the announced blob |
| `NetProtocol.DecodeInput` | src/net/NetProtocol.cpp:65-71 | accepts exactly the tagged messages of at least 284 bytes |
| `NetProtocol.DecodeChecksum` | src/net/NetProtocol.cpp:72-76 | accepts exactly the tagged messages of at least 13 bytes |
| `NetProtocol.EncodeHello` | src/net/NetProtocol.cpp:26-32 | the wire format of a hello |
| `NetProtocol.EncodeInput` | src/net/NetProtocol.cpp:39-43 | the wire format of an input, which decodes to it |
| `Crc32.Table.Crc32` | src/net/Crc32.h:5-20 | the table-driven loop computes the bit-serial CRC of section 8 of RFC 1952 for every byte sequence |
| `Crc32.ResidueLaw` | src/net/Crc32.h:17-20 | for every buffer: started at all ones, the buffer followed by its own checksum leaves the register 0xDEBB20E3 |
| `Crc32.ZeroByteChecksum` | src/net/Crc32.h:17-20 | one zero byte has the checksum 0xD202EF8D |
| `Crc32.DigitsChecksum` | src/net/Crc32.h:16-20 | the digits 1 to 9 have the checksum 0xCBF43926 |
| `Crc32.Table.Fill` | src/net/Crc32.h:8-15 | entry i of the table is i after eight bit steps |
| `Crc32.TableStep` | src/net/Crc32.h:18 | one lookup and shift equal eight bit steps |
| `Crc32.ByteUpdateIsBijective` | src/net/Crc32.h:18 | for each byte the register update has exactly one preimage of every register |
| `Crc32.SerialInjective` | src/net/Crc32.h:18 | different registers stay different through any common suffix |
| `Crc32.BurstIsDetected` | src/net/Crc32.h:16-19 | buffers of equal length that differ only inside four consecutive bytes have different checksums |
| `Runtime.RewindThenReplay` | src/runtime/Runtime.cpp:415-439 | rewind switched on in any history, then n forward frames, with bound M or 600: exactly min(n, M) - 1 rewinds succeed, and k rewinds then the original inputs restore the state |
| `Runtime.SwitchedFresh` | src/runtime/Runtime.cpp:415-424 | switching rewind on or off leaves nothing of the old history: an empty ring from the current state, bound M or 600; a core that saves nothing is refused and keeps what it had |
| `Runtime.RewindStepsBack` | src/runtime/Runtime.cpp:426-439 | a rewind succeeds exactly with two snapshots left, and the ring stays a linked history of the shortened timeline |
| `Runtime.AdvanceCaptures` | src/runtime/Runtime.cpp:312-338 | for any core, what one frame captures: the state before it, the newest ones up to the bound, unless rewind is off, a rewound-to frame is shown again or the core saves nothing |
| `Runtime.AdvanceKeepsLinked` | src/runtime/Runtime.cpp:312-338 | consecutive snapshots stay one frame apart and the newest stays the pre-state of the displayed frame |
| `Runtime.RewindAndShow` | src/runtime/Runtime.cpp:426-439 | a rewind and the next present move the display one frame back |
| `Runtime.RewindRingPush` | src/runtime/RewindRing.h:11-15 | keeps the newest `max` entries in order |
| `Runtime.Runtime.Advance` | src/runtime/Runtime.cpp:312-338 | capture unless replaying, then one step on the latched inputs |
| `Runtime.Runtime.Present` | src/runtime/Runtime.cpp:384-393 | advances unless paused |
| `Runtime.Runtime.LoadState` | src/runtime/Runtime.cpp:408-413 | refuses an empty buffer, else what the core makes of it |
| `Runtime.Runtime.SetRewind` | src/runtime/Runtime.cpp:415-424 | clears the history and defaults the bound to 600, or refuses a core of save size 0 |
| `Runtime.Runtime.Rewind` | src/runtime/Runtime.cpp:426-439 | the three outcomes and the new history |
| `RefCoreRollback.RefCoreIsExact` | cores/refcore_rollback/RefCoreRollback.cpp:45-55 | the reference core meets the save and load hypothesis of the rollback results |
| `RefCoreRollback.SerializedIs` | cores/refcore_rollback/RefCoreRollback.cpp:46-50 | a saved state is the four little-endian bytes of the accumulator |
| `RefCoreRollback.UnserializedIs` | cores/refcore_rollback/RefCoreRollback.cpp:51-55 | loading reads the first four bytes of any buffer that has them |
| `RefCoreRollback.VerifiedSnapshotsCount` | cores/refcore_rollback/RefCoreRollback.cpp:33-37 | in every match of two sessions over this core, a verified snapshot counts the frames and the host's real key presses |
| `RefCoreRollback.ChangedKeyDiverges` | cores/refcore_rollback/RefCoreRollback.cpp:37 | a retry that holds the key differently leaves the two peers with different verified snapshots |
| `RefCoreRollback.ChecksumIsFaithful` | cores/refcore_rollback/RefCoreRollback.cpp:46-50 | its checksums tell any two accumulators apart |
| `RefCoreRollback.StartingApartIsCaught` | src/net/NetSession.cpp:94-110 | two lockstep peers of this core that start apart are stopped after delay + 2 rounds |
| `RefCoreRollback.RollbackCore.RunFrame` | cores/refcore_rollback/RefCoreRollback.cpp:33-44 | one step of the core, and every pixel of the frame |
| `RefCoreRollback.RollbackCore.Serialize` | cores/refcore_rollback/RefCoreRollback.cpp:46-50 | four little-endian bytes, or a refusal that writes nothing |
| `RefCoreRollback.RollbackCore.Unserialize` | cores/refcore_rollback/RefCoreRollback.cpp:51-55 | accepts any buffer of at least four bytes |
| `TwoTimeline.FirstCompositeReadsItsFrame` | src/render/vulkan/VulkanBackend.cpp:484-562 | the slot of a frame holds that frame throughout its first composite |
| `TwoTimeline.SafeExactlyWhenSeparateOrSingle` | include/retropark/retropark_abi.h:57-68 | that holds in every run exactly when the host signals a consume timeline of its own or there is one slot |
| `TwoTimeline.SharedTimelineOverwrites` | include/retropark/retropark_abi.h:62-66 | for every N >= 2 on one timeline, a run in which the producer overwrites the slot being read |
| `TwoTimeline.OwnSignalMeetsTheWait` | include/retropark/retropark_abi.h:62-66 | on one timeline the producer's own last signal meets its reuse wait, exactly when there are two slots or more |
| `TwoTimeline.EachValueOnce` | src/render/vulkan/VulkanBackend.cpp:491-561 | producer values are composited in strictly rising order, so each at most once |
| `TwoTimeline.EveryFrameOnceExactlyWithOneSlot` | src/render/vulkan/VulkanBackend.cpp:491-561 | the composited frames are all frames in order, each exactly once, in every run if and only if there is one slot |
| `TwoTimeline.FrameSkipped` | src/render/vulkan/VulkanBackend.cpp:484-491 | with two slots or more a run in which a published frame is never composited |
| `TwoTimeline.TimelinesRise` | src/render/vulkan/VulkanBackend.cpp:529-551 | both timelines only rise and each signal raises its timeline strictly |
| `TwoTimeline.BlockedProducerIsReleased` | src/render/vulkan/VulkanBackend.cpp:529-551 | when the host is idle, its next composite releases a blocked producer if and only if the newest published frame is less than a ring behind |
| `TwoTimeline.InFlightReleases` | src/render/vulkan/VulkanBackend.cpp:529-551 | a composite being read always releases the producer when it is over |
| `TwoTimeline.EveryBlockedProducerIsReleased` | src/render/vulkan/VulkanBackend.cpp:484-562 | from every reachable state, finishing what was begun leads to a state in which the producer may begin |
| `TwoTimeline.NeverStuck` | src/render/vulkan/VulkanBackend.cpp:484-562 | some step is possible in every reachable state |
| `TwoTimeline.StepOk` | src/render/vulkan/VulkanBackend.cpp:484-562 | every step of producer and host keeps the invariant of the protocol |
| `VulkanBackend.VulkanBackend.CompositeAndPresent` | src/render/vulkan/VulkanBackend.cpp:466-563 | result, waits, signals and remembered value of a present |
| `VulkanBackend.VulkanBackend.PresentWindowed` | src/render/vulkan/VulkanBackend.cpp:571-684 | the same for a swapchain present |
| `VulkanBackend.VulkanBackend.AllocateSurfaces` | src/render/vulkan/VulkanBackend.cpp:311-345 | a new batch starts with nothing consumed and a consume timeline |
| `VulkanBackend.PathsAgree` | src/render/vulkan/VulkanBackend.cpp:566-684 | both present paths wait for and signal the same timeline values |
| `VulkanBackend.NewExactlyWhenHighest` | src/render/vulkan/VulkanBackend.cpp:484-491 | in any sequence of presents, a frame is consumed if and only if its value is above every one presented before; it then waits for that value and signals the next, on the consume timeline with two slots or more; any other present touches no timeline |
| `VulkanBackend.RepeatsAreSilent` | src/render/vulkan/VulkanBackend.cpp:484-491 | a present of a frame no newer than one presented before acquires nothing and touches no timeline |
| `VulkanBackend.NewValuesRise` | src/render/vulkan/VulkanBackend.cpp:491-561 | whatever is presented in whatever order, the values consumed rise strictly |
| `VulkanBackend.BackendIsTheHost` | src/render/vulkan/VulkanBackend.cpp:484-562 | a present is the protocol's first composite, or a repeat when that is not enabled |
| `SurfaceRing.LatestIsNewestCurrent` | src/render/SurfaceRing.cpp:22-38 | after any calls the ring shows the newest submit to an existing slot of the allocation in force |
| `SurfaceRing.SlotsRoundRobin` | src/render/SurfaceRing.cpp:16-20 | the n-th slot handed out after an allocation is n modulo the slot count |
| `SurfaceRing.SlotsAndSize` | src/render/SurfaceRing.cpp:5-14 | as many slots as asked for, one when none are, and the size of the last allocation |
| `SurfaceRing.SurfaceRing.ReallocateSurfaces` | src/render/SurfaceRing.cpp:8-14 | a new generation with nothing ready |
| `SurfaceRing.SurfaceRing.NextProducerSlot` | src/render/SurfaceRing.cpp:16-20 | hands out the cursor and moves it round |
| `SurfaceRing.SurfaceRing.AcceptSubmit` | src/render/SurfaceRing.cpp:22-30 | accepts exactly the current generation and an existing slot |
| `SurfaceRing.SurfaceRing.LatestReady` | src/render/SurfaceRing.cpp:32-38 | the newest accepted frame, if it is of the current generation |
| `AudioQueue.BacklogIsExact` | src/audio/XAudio2Output.cpp:51-94 | in every interleaving the counter is the frames added and not yet subtracted |
| `AudioQueue.NeverClamps` | src/audio/XAudio2Output.cpp:87-93 | a successful compare-and-swap never subtracts more than the counter holds |
| `AudioQueue.ReturnsToZeroExactlyWithChannels` | src/audio/XAudio2Output.cpp:79-94 | the counter is 0 whenever all buffers have ended, exactly when there is a channel or nothing can be submitted |
| `AudioQueue.NoChannelsLeaks` | src/audio/XAudio2Output.cpp:84 | with no channel a run leaks a frame, for any producer that can submit one |
| `AudioQueue.SoleProducerStaysAtTarget` | src/audio/XAudio2Output.cpp:96-107 | a sole producer that submits at most what is wanted keeps the backlog within the target |
| `AudioQueue.SoleProducerFits` | src/audio/XAudio2Output.cpp:68 | and its runs never come near the 32-bit limit |
| `AudioQueue.FillsToTarget` | src/audio/XAudio2Output.cpp:96-107 | a sole producer that submits what it is told while no buffer ends brings the backlog to exactly the target |
| `AudioQueue.ToldNothingExactlyWhenFull` | src/audio/XAudio2Output.cpp:105 | it is told 0 exactly when the backlog is at the target |
| `AudioQueue.DroppedExactlyWhenFull` | src/audio/XAudio2Output.cpp:51-56 | a buffer is dropped, and nothing added for it, exactly when all sixteen slots are in use |
| `AudioQueue.StepOk` | src/audio/XAudio2Output.cpp:51-94 | every atomic step of any thread keeps the invariant |
| `AudioQueue.RetrySucceeds` | src/audio/XAudio2Output.cpp:71-73 | a failed exchange retried without interference succeeds |
| `AudioQueue.EndedFrames` | src/audio/XAudio2Output.cpp:82-86 | the callback subtracts exactly what the submit added |
| `TcpTransport.ReceivedIsPrefix` | src/net/TcpTransport.cpp:65-104 | however the byte stream is split, what was received is a prefix of what was sent |
| `TcpTransport.AllArrives` | src/net/TcpTransport.cpp:65-104 | when nothing can move any more, exactly the messages sent were received, in order |
| `TcpTransport.EveryStepProgresses` | src/net/TcpTransport.cpp:72-86 | every partial send or receive moves both loops closer to their end |
| `TcpTransport.FramesUnique` | src/net/TcpTransport.cpp:98-103 | a stream of frames can be cut into frames in one way only |
| `TcpTransport.TcpTransport.Send` | src/net/TcpTransport.cpp:65-78 | writes exactly one frame and fails only when it is closed or a system call fails, then with a proper part of it written; its calls are steps of the writer of the segmentation results |
| `TcpTransport.TcpTransport.SendAll` | src/net/TcpTransport.cpp:70-74 | writes everything in as many calls as it takes, or stops at the first that fails |
| `TcpTransport.HeaderBytes` | src/net/TcpTransport.cpp:67-68 | the header is the four little-endian bytes of the length |
| `TcpTransport.WritesOfSend` | src/net/TcpTransport.cpp:70-76 | whatever the sizes moved by its calls, a send is a run of the writer that takes up one message |
| `TcpTransport.ReadsOfRecv` | src/net/TcpTransport.cpp:80-103 | whatever the sizes moved by its calls, a receive is a run of the reader that hands over one message |
| `TcpTransport.TcpTransport.RecvExact` | src/net/TcpTransport.cpp:79-89 | reads exactly n bytes in as many calls as it takes; it fails if and only if a call fails, and loses the fewer bytes it read |
| `TcpTransport.TcpTransport.Recv` | src/net/TcpTransport.cpp:90-104 | a success takes exactly one frame off the stream; while no call fails it succeeds whenever it blocks or a byte is there, for any frame below 2^31 bytes, and otherwise reports that nothing is there; its calls are steps of the reader of the segmentation results |
| `OptionsJson.OptionsReadBack` | cores/libretro_shim/LibretroShim.cpp:560-590 | for every option list with arbitrary byte strings, a reader following sections 4, 5 and 7 of RFC 8259 gets back exactly that list |
| `OptionsJson.OptionIs` | cores/libretro_shim/LibretroShim.cpp:580 | the text of an option, character by character: the four texts under their names, in this order, then the values |
| `OptionsJson.ValueIs` | cores/libretro_shim/LibretroShim.cpp:584 | the text of a value |
| `OptionsJson.ListIs` | cores/libretro_shim/LibretroShim.cpp:575-588 | the list: the options between square brackets, separated by commas |
| `OptionsJson.EscapeIs` | cores/libretro_shim/LibretroShim.cpp:560-570 | the escape of each byte |
| `OptionsJson.TextBack` | cores/libretro_shim/LibretroShim.cpp:572-590 | the text of any value of strings, arrays and objects reads back as that value |
| `OptionsJson.StringBack` | cores/libretro_shim/LibretroShim.cpp:560-570 | an escaped string reads back and ends at its own quotation mark |
| `OptionsJson.PrintedIsInjective` | cores/libretro_shim/LibretroShim.cpp:572-590 | different option lists have different texts |
| `OptionsJson.PrintedIsVisible` | cores/libretro_shim/LibretroShim.cpp:560-590 | the text holds no control character and no zero byte |
| `OptionsJson.JsonEscape` | cores/libretro_shim/LibretroShim.cpp:560-570 | the loop appends the escape of every byte |
| `OptionsJson.CoreOptionsJson` | cores/libretro_shim/LibretroShim.cpp:572-590 | the printing loops produce the text of the option list |
| `CoreOptions.EffectiveIsMeaning` | cores/libretro_shim/LibretroShim.cpp:138-158 | after any declarations, sets and polls the value in force is the newest accepted set, else the first declaration's default |
| `CoreOptions.FirstDeclarationWins` | cores/libretro_shim/LibretroShim.cpp:90-95 | a key is known exactly when it was declared, as first declared |
| `CoreOptions.AfterIsInverse` | cores/libretro_shim/LibretroShim.cpp:90-95 | the index and the list stay inverse to each other |
| `CoreOptions.LatchIsUnseen` | cores/libretro_shim/LibretroShim.cpp:159-163 | the update latch is true exactly when a set was accepted since the last poll |
| `CoreOptions.NothingIsNeverDeclared` | cores/libretro_shim/LibretroShim.cpp:595-597 | the empty key, which a null key is looked up as, never has a value |
| `CoreOptions.SetIsLocal` | cores/libretro_shim/LibretroShim.cpp:608-615 | a set changes its own key only, and only if it is declared |
| `CoreOptions.LegacyRecovers` | cores/libretro_shim/LibretroShim.cpp:191-216 | harvesting a description, a semicolon and any tokens separated by bars recovers the description, the non-empty tokens in order and the first as default, for any number of spaces |
| `CoreOptions.LegacyIsSane` | cores/libretro_shim/LibretroShim.cpp:191-216 | for every text: values are non-empty and bar-free, the default is the first, the description stops at the semicolon |
| `CoreOptions.DescribedFields` | cores/libretro_shim/LibretroShim.cpp:227-234 | what a descriptor gives: key, description and further text; the values up to the first null or 128, each with its label or itself; the declared default when non-empty, else the first value |
| `CoreOptions.HarvestIsHistory` | cores/libretro_shim/LibretroShim.cpp:88-95 | a harvest is its declarations made one by one, so the results on histories are about it |
| `CoreOptions.LegacyAllAt` | cores/libretro_shim/LibretroShim.cpp:191-213 | one option for each legacy variable, a null text being an empty one |
| `CoreOptions.DescribedAllAt` | cores/libretro_shim/LibretroShim.cpp:227-234 | one option for each descriptor |
| `CoreOptions.ParseVariable` | cores/libretro_shim/LibretroShim.cpp:193-213 | the parsing loops compute that |
| `CoreOptions.ParseValues` | cores/libretro_shim/LibretroShim.cpp:202-207 | the value loop keeps the non-empty tokens in order |
| `CoreOptions.ReadDefinition` | cores/libretro_shim/LibretroShim.cpp:229-234 | labels default to values, the default to the first value, at most 128 values |
| `CoreOptions.Shim.AddOption` | cores/libretro_shim/LibretroShim.cpp:90-95 | ignores an empty or known key, else appends |
| `CoreOptions.Shim.GetVariable` | cores/libretro_shim/LibretroShim.cpp:138-158 | the value in force |
| `CoreOptions.Shim.CoreOptionGet` | cores/libretro_shim/LibretroShim.cpp:595-607 | the same value as the callback gives |
| `CoreOptions.Shim.GetVariableUpdate` | cores/libretro_shim/LibretroShim.cpp:159-163 | reports and clears the latch |
| `CoreOptions.Shim.CoreOptionSet` | cores/libretro_shim/LibretroShim.cpp:608-615 | records and latches a known key, with the two error codes |
| `CoreOptions.Shim.SetVariables` | cores/libretro_shim/LibretroShim.cpp:191-216 | harvests every declaration in order |
| `CoreOptions.Shim.SetCoreOptions` | cores/libretro_shim/LibretroShim.cpp:217-258 | harvests every descriptor in order |

## Left out

- GPU, D3D11, GL and swapchain calls, shaders and compositors: foreign interfaces; only timeline values and the new-frame test are kept, and submissions and fence waits are taken to succeed.
- Rendering, audio output of a frame, frame-rate bookkeeping and the checks of `advance` before it runs the core: a driven core is loaded and `run_frame` succeeds.
- `refcore_present_vk` waits on the produce timeline; the producer's rule here is the one of the ABI. Repeated composites and paused re-presents, which that rule does not protect, are outside the protocol.
- Concurrent reads of the surface ring that mix two submits: accepting and reading are atomic steps. `Runtime.Runtime.Present` and the sessions are likewise called from one thread.
- Real time: a blocking receive sees what is in the channel when it is called; messages that arrive while it waits count as already there. Sockets, `select`, Winsock start-up and sleeps are replaced by any behaviour they may have.
- A time-out in the middle of a TCP frame drops the bytes read; `TcpTransport.TcpTransport.RecvExact` says so, and the results on any segmentation are about runs without it. Message sizes are below 2^31.
- Delivery out of order or with loss: both transports of the repository are FIFO, and the two-peer results are about FIFO channels.
- Pausing, rewinding or loading a state during netplay, and what a session does after it has reported a desync in lockstep: there it stops, as its caller does.
- Frame counters are 64 bits wide; `RollbackSession.RollbackSession.Tick` and the lockstep half-ticks require that they do not wrap, and the two-peer systems count frames without bound.
- `AudioQueue` is modelled on values, not as a class: atomics and a callback on another thread have no sequential form, and every result is about all interleavings. Runs whose outstanding frames reach 2^32 are excluded, except that a sole producer is shown never to get there. The target that `open` works out, the telemetry counters and teardown are not modelled. The leak without channels needs an audio system that accepts a voice of no channels: one that refuses it leaves nothing to submit to.
- A surrogate pair in a `\u` escape is refused by the reader of `OptionsJson`, and numbers and literals are not part of it: the printer emits neither. Bytes above 0x7F pass through as they are.
- The stable storage behind the strings that the option calls return: pointer lifetimes.
- Harness, input mapping, manifests, module loading, the Dolphin and RPCS3 cores, `PixelConvert`, `FramebufferCopy` and the static registry: they would only add easy members.
