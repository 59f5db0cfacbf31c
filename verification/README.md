# Audio and Bluetooth HAL models

Dafny models of the stateful core of the Android audio and Bluetooth reference HALs, with proofs of
what their operations keep, undo and promise over whole runs.

| files | what they model |
|---|---|
| `StreamWorker.dfy` | The handshake between a client thread and the worker thread of an audio stream: pause, resume, stop and `waitForAtLeastOneCycle` |
| `AudioStores.dfy`, `AudioConfigs.dfy`, `AudioPatches.dfy`, `AudioDevices.dfy`, `AudioProfiles.dfy`, `AudioRuns.dfy` | The audio module's tables as values: ports, port configs, routes, patches, the patch index, open streams and connected devices, with the calls that change them, their invariant and its consequences over runs |
| `AudioLaws.dfy` | What those calls come to, said in terms of the tables and the request alone |
| `AudioModule.dfy` | The audio module as an object whose methods loop, back up and roll back as the original does, proved against the calls on the tables |
| `StreamConnections.dfy` | Moving open streams from the devices of one patch to those of another, or not at all |
| `StreamDevices.dfy` | The two together: which devices each open stream is on, over whole runs |
| `StreamCommands.dfy`, `StreamOut.dfy`, `StreamIn.dfy` | The command machines of output and input streams with the driver's callbacks |
| `StreamOutDiagrams.dfy` | The two published state diagrams of output streams, and exactly when a stream keeps to them |
| `StreamOutWorker.dfy`, `StreamInWorker.dfy` | The stream workers as objects over a bounded queue and a buffer |
| `EffectBuffers.dfy`, `EffectContext.dfy` | The queues and the work buffer of an audio effect under parameter changes and reopens |
| `HciPackets.dfy`, `HciPacketizer.dfy`, `H4Protocol.dfy` | H4 framing: the resumable parser and the partial-write sender, against a simple recursive parser (Bluetooth Core Specification, Volume 4, Part A, section 2, and Part E, sections 5.4.1 to 5.4.5) |
| `TxHandler.dfy` | The router's command queue with its single credit, driven by a task worker |
| `HalStates.dfy`, `HciRouter.dfy` | The router's state machine and the client agent that mirrors it |
| `Basics.dfy` | An option type and a minimum |

The usual shape is a specification on values (a step function or a table operation), lemmas about it,
and a class in the source's own imperative form whose methods are proved equal to it.

## Assumptions

- One client thread drives a stream worker; every locked section is one step. Spurious wake-ups are
  steps of their own, and what they can cost is stated.
- The task worker of the command queue is a single FIFO thread, and client callbacks do not re-enter the
  router or change registrations while clients are being told.
- Calls on an audio module, an effect and a stream worker are serialised; a driver callback is one step
  between commands.
- Vendor hooks, drivers, message queues and the file descriptor answer through parameters. A
  driver transfers at most the frames it is asked for. The byte stream carries type bytes 0 to 5.
- For the devices of streams over runs: a patch connects configs of devices to other configs, no other
  patch uses the latter, and rollback calls succeed.

## Where the code departs from its promises

- `StreamWorker.cpp:113` notifies outside the lock. The notification of the start can reach a client
  that already waits for a pause, and the next resume request is then lost
  (`StaleStartNotificationLosesResume`).
- `Module.cpp:1201-1211`: an update of a patch that the streams refuse restores the patch but not its
  index entries, and an exclusive sink can then be given away twice (`LateUpdateBreaksIndex`,
  `LateFailureSharesExclusiveSink`, `ExclusiveSinkCanBeShared`). For a new patch the same branch compares an iterator that
  `push_back` has invalidated; the model takes the new patch back, as intended, and says what the branch
  does as written while the list has not moved (`LateCreateLeavesEmptyPatch`).
- `Module.cpp:1162-1171` refuses a patch because of an exclusive sink that was not asked for, when it is
  merely reachable (`AcceptedExactly`, `UnaskedSinkRefuses`).
- `Module.cpp:1302-1353`: an update of a port config that changes only the format keeps a channel mask
  and a sample rate that the new format may not support (`UpdateSupported`, `FormatOnlyUpdateIsUnsupported`).
- `h4_protocol.cc:66-69,91`: the value returned by a completed `Send` leaves out the last write
  (`H4Protocol.Send`).
- `hci_router.cc:612-617`: a command with an empty callback blocks the queue (`CompletableIffCallback`,
  `EmptyCallbackHappens`).
- `Stream.cpp:620-622`: a drain accepted while a transfer is paused is not recorded
  (`PausedDrainIsForgotten`). Flushes, bursts and time-outs do not clear a pending drain, although the
  diagram's notes say that bursts and flushes do (`OnlyDrainsChangeDrain`, `FlushedDrainIsAnnounced`,
  `BurstKeepsClipTransition`).
- `Stream.cpp` departs from the state diagrams of output streams in these ways, and in no others
  (`ActionsFollowDiagram`, `RunsFollowDiagram`). With callbacks: a notice left behind by a flush
  holds a later draining (`LeftBehindNoticeHoldsBurst`); a forced synchronous drain goes to idle
  (`ForcedDrainDeparts`); an early-notify drain is accepted while a transfer is paused
  (`PausedEarlyDrainDeparts`); a failure enters the error state without an error callback
  (`AsyncFailureDeparts`); room in the buffer can be announced while paused or for a notice left behind
  (`PausedBufferDeparts`, `FlushedNoticeDeparts`); a clip can end before its early notification
  (`EarlyEndDeparts`); a full drain can end with a next clip waiting (`NextClipDeparts`); and a clip
  report can act on a paused drain, or on one that a flush or a burst has ended (`PausedClipDeparts`,
  `FlushedDrainDeparts`, `BurstDrainDeparts`, `SilentEndDeparts`). Without callbacks: a burst can stay in draining
  (`SyncBurstStaysDraining`); failures happen in states from which none is drawn
  (`SyncFailureDeparts`); and a clip report can move a stream that is not draining, or to transferring
  (`ElapsedDrainDeparts`). A burst after closing is accepted.
- `EffectImpl.cpp:399` asserts more than holds (`AssertCanFail`).

## Model

| member | source | states |
|---|---|---|
| `StreamWorker.StepKeepsInv` | audio/aidl/common/StreamWorker.cpp:25-173 | Every locked section, flag load, cycle boundary and notification of either thread keeps the agreement between the shared state, the request flag, the worker's local state and what the client waits for, spurious wake-ups included, unless the client leaves a wait early |
| `StreamWorker.NoRequestLost` | audio/aidl/common/StreamWorker.cpp:44-84 | Over every run in which the client never leaves a wait early to harm, no pause, resume, stop or start request is lost: a blocked client's request is flagged, or its answer is written and about to be announced, or the worker has left the loop |
| `StreamWorker.WorkerProgress` | audio/aidl/common/StreamWorker.cpp:116-172 | While a client is blocked the worker is not finished, and each of its steps releases the client or lowers a rank of at most 18 |
| `StreamWorker.ClientStepKeepsRank` | audio/aidl/common/StreamWorker.cpp:44-84 | Nothing the client or a spurious wake-up does meanwhile raises that rank |
| `StreamWorker.BoundedRelease` | audio/aidl/common/StreamWorker.cpp:116-172 | In any run a blocked client is released within 18 worker steps, spurious wake-ups or not |
| `StreamWorker.EarlyReturnCanLose` | audio/aidl/common/StreamWorker.cpp:147-169 | Converse of NoRequestLost: from every state in which the client leaves a wait before the flag is cleared, a run of regular steps loses the next request |
| `StreamWorker.LostForever` | audio/aidl/common/StreamWorker.cpp:116-172 | A lost request stays unanswered through every later run without a spurious wake-up or a failing cycle |
| `StreamWorker.CleanRunIsHarmless` | audio/aidl/common/StreamWorker.cpp:61-84 | Without spurious wake-ups, and when the start notification finds nobody waiting for another change, the client never leaves a wait early |
| `StreamWorker.StaleStartNotificationLosesResume` | audio/aidl/common/StreamWorker.cpp:104-113 | A concrete run without spurious wake-ups: the notification of the start, sent outside the lock, wakes a client that already waits for a pause, and its next resume request is lost |
| `StreamWorker.WaitForAtLeastOneCycle` | audio/aidl/common/StreamWorker.cpp:61-67 | Whenever waitForAtLeastOneCycle returned true, one whole cycle began and ended with CONTINUE between the call and the return, over every run in which no wait is left early |
| `StreamWorker.EarlyReturnSkipsCycle` | audio/aidl/common/StreamWorker.cpp:61-84 | The guarantee rests on that: leaving the second wait early before a whole cycle is over reports a cycle that was not seen |
| `StreamWorker.CleanRunGuarantees` | audio/aidl/common/StreamWorker.cpp:25-173 | Both guarantees for every clean run from the initial state |
| `StreamWorker.WaitFailsOnlyWhenStopped` | audio/aidl/common/StreamWorker.cpp:61-67 | In a clean run waitForAtLeastOneCycle returns false only when the worker is stopped |
| `StreamWorker.StopWaitsForExit` | audio/aidl/common/StreamWorker.cpp:44-53 | stop leaves the state stopped and does not return before the worker has left its loop, in any run |
| `StreamWorker.FailedInitNeverCycles` | audio/aidl/common/StreamWorker.cpp:86-114 | In every run in which the initialisation fails, the worker is left stopped with its error set and never begins a cycle |
| `StreamWorker.FailedInitReleasesStart` | audio/aidl/common/StreamWorker.cpp:25-42 | And the client that started it is not left waiting |
| `StreamWorker.ErrorMeansFailure` | audio/aidl/common/StreamWorker.cpp:104-165 | Over every run in which no wait is left early, an error is reported exactly when the initialisation failed or a cycle aborted |
| `HciPackets.ParseAppend` | bluetooth/hci/h4_protocol.cc:119-138 | Parsing a stream in two pieces, carrying the unfinished frame over, delivers the packets and leaves the rest that parsing the whole does |
| `HciPackets.ChunkingIrrelevant` | bluetooth/hci/h4_protocol.cc:119-138 | Every way of cutting a stream into reads delivers the same packet sequence and ends in the same state as one parse of the whole stream |
| `HciPackets.RestIsSettled` | bluetooth/hci/hci_packetizer.cc:52-103 | What is left over is empty, an unfinished frame or starts with a type byte outside the tables |
| `HciPackets.DataOnTheWire` | bluetooth/hci/hci_packetizer.cc:39-46 | In literal bytes: ACL and ISO data, with a two-byte length, low byte first, at the third header byte, are delivered whole, followed by the parse of what comes after |
| `HciPackets.CommandOnTheWire` | bluetooth/hci/hci_packetizer.cc:39-46 | The same for commands and SCO data, with a one-byte length at the third header byte |
| `HciPackets.EventOnTheWire` | bluetooth/hci/hci_packetizer.cc:39-46 | The same for events, with a one-byte length at the second |
| `HciPackets.CutFrameWaits` | bluetooth/hci/hci_packetizer.cc:52-103 | As long as the last byte of a well-formed frame is missing, nothing is delivered and nothing is given up |
| `H4Protocols.PacketsReachTheirCallbacks` | bluetooth/hci/h4_protocol.cc:94-117 | Each of the five packet types is handed to its own callback |
| `HciPackets.ParseIsSound` | bluetooth/hci/hci_packetizer.cc:52-103 | Every packet delivered has a body of exactly the header size plus the length its header states |
| `HciPackets.FramingRoundTrip` | bluetooth/hci/h4_protocol.cc:47-138 | The concatenated frames of any list of well-formed packets of the five types parse back to exactly that list, with nothing left over |
| `HciPackets.TransportRoundTrip` | bluetooth/hci/h4_protocol.cc:47-138 | The same when the frames are cut into reads in any way |
| `HciPacketizers.HciPacketizer.OnDataReady` | bluetooth/hci/hci_packetizer.cc:52-103 | Consumes at least one byte, never past the end of the packet or of the buffer, appends exactly those bytes to what was collected, and reports ready exactly when header and payload are complete |
| `HciPacketizers.HciPacketizer.TakeHeader` | bluetooth/hci/hci_packetizer.cc:59-86 | The header phase: collects up to the header size, then turns to the payload whose length the header states |
| `HciPacketizers.HciPacketizer.TakePayload` | bluetooth/hci/hci_packetizer.cc:88-102 | The payload phase: collects up to the stated length and then starts afresh |
| `H4Protocols.H4Protocol.SendDataToPacketizer` | bluetooth/hci/h4_protocol.cc:119-138 | One read, whatever its size, delivers to the callbacks exactly what the reference parser finds in the pending bytes followed by the read, in order, and keeps exactly the parser's rest |
| `H4Protocols.H4Protocol.Consume` | bluetooth/hci/h4_protocol.cc:122-136 | Each pass of the loop consumes a byte and agrees with the reference parser |
| `H4Protocols.H4Protocol.OnPacketReady` | bluetooth/hci/h4_protocol.cc:94-117 | Hands the packet to the callback of its type |
| `H4Protocols.H4Protocol.OnDataReady` | bluetooth/hci/h4_protocol.cc:140-158 | A read error leaves the parser alone, end of file disconnects once, and data goes to the parser unless disconnected |
| `H4Protocols.H4Protocol.Send` | bluetooth/hci/h4_protocol.cc:47-92 | Under arbitrary short writes, retries and errors, exactly a prefix of the type byte followed by the data is put on the wire: as much as the writes take before the first failure; the value returned equals the bytes written exactly when the writes do not take the whole frame |
| `H4Protocols.DropWritten` | bluetooth/hci/h4_protocol.cc:72-89 | After a short write the remaining entries hold exactly the bytes not yet written, and the cursor stays inside the vector |
| `TxHandlers.StepKeepsInv` | bluetooth/bluetooth_hal/hci_router.cc:128-285 | Every post, worker task, event and step inside a task keeps the conservation of commands, the single-credit protocol and the wake lock accounting |
| `TxHandlers.CommandsInOrder` | bluetooth/bluetooth_hal/hci_router.cc:153-227 | In every interleaving the commands sent are a prefix of those posted, at most one is sent and not completed, every posted command is completed, queued or still in a task, and busy holds exactly when the queue is not empty |
| `TxHandlers.CompletionMatchesCallback` | bluetooth/bluetooth_hal/hci_router.cc:195-227 | The command popped at completion is the one whose callback was handed out, and it is the one in flight |
| `TxHandlers.CallbackAnswersEvent` | bluetooth/bluetooth_hal/hci_router.cc:195-211 | Over every run, each callback was run for an event with the opcode of its own command |
| `TxHandlers.ForeignEventsChangeNothing` | bluetooth/bluetooth_hal/hci_router.cc:195-211 | With nothing under way, a run without an event for the command in flight neither runs a callback nor completes a command |
| `TxHandlers.PacketsInOrder` | bluetooth/bluetooth_hal/hci_router.cc:229-249 | Over every run, packets other than commands reach the transport once and in the order they were posted |
| `TxHandlers.AtMostTenTasks` | bluetooth/bluetooth_hal/include/public/bluetooth_hal/util/worker.h:31-119 | A post is accepted exactly while fewer than ten tasks wait |
| `TxHandlers.WakelockCoversTasks` | bluetooth/bluetooth_hal/hci_router.cc:262-278 | With all votes cast, the router task wake lock is held exactly while a task is queued |
| `TxHandlers.CompletableIffCallback` | bluetooth/bluetooth_hal/hci_router.cc:604-626 | In every reachable state, some continuation completes the command in flight if and only if it has a callback |
| `TxHandlers.CallbackCompletes` | bluetooth/bluetooth_hal/hci_router.cc:195-227 | The converse half: from any tasks queued and any point of the event handling, a run completes a command that has a callback |
| `TxHandlers.EmptyCallbackBlocks` | bluetooth/bluetooth_hal/hci_router.cc:604-626 | A command in flight whose callback is empty is never completed, and nothing behind it is, in any run |
| `TxHandlers.EmptyCallbackHappens` | bluetooth/bluetooth_hal/hci_router.cc:612-617 | A concrete run from the start that sends a command without a callback and leaves another waiting behind it for ever |
| `TxHandlers.EventCompletes` | bluetooth/bluetooth_hal/hci_router.cc:604-626 | With nothing under way, an event with its opcode completes the command in flight |
| `TxHandlers.TxHandler.TxTaskDispatcher` | bluetooth/bluetooth_hal/hci_router.cc:153-175 | The object's handling of one task takes it to the state of the corresponding step |
| `TxHandlers.TxHandler.DoSendOrQueueCommand` | bluetooth/bluetooth_hal/hci_router.cc:177-193 | Queues the command and sends it exactly when nothing is in flight |
| `TxHandlers.TxHandler.DoOnCommandCallbackCompleted` | bluetooth/bluetooth_hal/hci_router.cc:213-227 | Pops the completed command and sends the next one, or becomes idle |
| `TxHandlers.TxHandler.DoGetCommandCallback` | bluetooth/bluetooth_hal/hci_router.cc:195-211 | Hands out the callback of the command in flight exactly when the opcode matches |
| `HalStates.AgentMirrorsRouter` | bluetooth/bluetooth_hal/hci_router.cc:515-584 | In every run of router and agent calls the agent's mismatch check never fires; between calls its state is the router's, chip-ready holds exactly in BtChipReady and Running, and enabled implies Running |
| `HalStates.ClientNotesAlternate` | bluetooth/bluetooth_hal/hci_router_client_agent.cc:61-194 | For each registration, catch-up calls included, ChipReady and ChipClosed alternate, and so do Enabled and Disabled |
| `HalStates.PhaseMeansAlternating` | bluetooth/bluetooth_hal/hci_router_client_agent.cc:104-170 | A client log whose on and off notes are in step with the agent's flags alternates between them |
| `HalStates.UpdateKeepsInv` | bluetooth/bluetooth_hal/hci_router.cc:515-584 | A completed state update lands where the transition table and the stack's registration say, and keeps agent and router in agreement |
| `HalStates.UpdatesExactly` | bluetooth/bluetooth_hal/hci_router.cc:353-369 | In any reachable state an update completes exactly when it shuts down, goes one state up, or reports the chip ready again or after running; nothing else is accepted |
| `HalStates.BringUpEndsRunning` | bluetooth/bluetooth_hal/hci_router.cc:515-584 | The ordinary bring-up from the start ends in Running, and the stack hears of all seven changes in order |
| `HalStates.UpdateTellsStack` | bluetooth/bluetooth_hal/hci_router.cc:576-580 | The stack hears of each change once, and of the start that follows chip-ready |
| `HalStates.UpdateTellsClients` | bluetooth/bluetooth_hal/hci_router_client_agent.cc:104-170 | What every client hears of an update, in order: chip ready or closed if that changed, disabled if it was enabled, and the change |
| `HalStates.MismatchExactly` | bluetooth/bluetooth_hal/hci_router_client_agent.cc:104-118 | The agent refuses a change exactly when it is ahead of the router |
| `HalStates.InitializeEnds` | bluetooth/bluetooth_hal/hci_router.cc:380-431 | Initialising ends in Init with the stack registered, or in shutdown without it when the transport fails; a running router refuses |
| `HalStates.PowerOnEnds` | bluetooth/bluetooth_hal/hci_router.cc:371-378 | Power on reaches Init without touching the stack's registration |
| `HalStates.CloseEnds` | bluetooth/bluetooth_hal/hci_router.cc:433-464 | Closing and cleaning up end in shutdown with the stack forgotten; only an accelerated close of a running chip changes nothing |
| `HalStates.DispatchTells` | bluetooth/bluetooth_hal/hci_router_client_agent.cc:88-102 | Every client sees a packet; a successful reset while running enables Bluetooth first, once |
| `HalStates.RegistrationTells` | bluetooth/bluetooth_hal/hci_router_client_agent.cc:61-86 | A client is registered once, hears at once what it has missed, in order, and can leave |
| `HalStates.InitializeKeepsInv` | bluetooth/bluetooth_hal/hci_router.cc:389-431 | Bringing up the modules keeps agent and router in agreement on every path, failure included |
| `HalStates.ChipReadyStartsStack` | bluetooth/bluetooth_hal/hci_router.cc:544-584 | From FirmwareReady, reporting the chip ready ends in Running exactly when the stack has registered its callback |
| `HciRouters.HciRouter.Update` | bluetooth/bluetooth_hal/hci_router.cc:515-584 | Does what the state machine says, or stops for the reason it says |
| `HciRouters.HciRouter.DoInitializeModules` | bluetooth/bluetooth_hal/hci_router.cc:389-431 | The same for bringing up the modules |
| `HciRouters.HciRouter.DoClose` | bluetooth/bluetooth_hal/hci_router.cc:433-445 | The same for closing |
| `HciRouters.HciRouter.DoCleanup` | bluetooth/bluetooth_hal/hci_router.cc:447-464 | The same for cleaning up |
| `HciRouters.HciRouterClientAgent.RegisterClient` | bluetooth/bluetooth_hal/hci_router_client_agent.cc:61-76 | A client is registered once and caught up on chip-ready and enabled |
| `HciRouters.HciRouterClientAgent.NotifyChange` | bluetooth/bluetooth_hal/hci_router_client_agent.cc:104-170 | Mirrors a state change and tells every client, in whatever order the set is walked |
| `HciRouters.HciRouterClientAgent.DispatchPacketToClients` | bluetooth/bluetooth_hal/hci_router_client_agent.cc:88-102 | A reset complete event in Running enables Bluetooth once, before every client sees the packet; the result is the strongest of the clients' answers |
| `HciRouters.HciRouterClientAgent.ForEachClient` | bluetooth/bluetooth_hal/hci_router_client_agent.cc:196-206 | Every registered client is told exactly once |
| `AudioStores.IndexLeadsSomewhere` | audio/aidl/default/Module.cpp:273-291 | No index entry leads to a patch or a port config that is not there, so the fatal lookup cannot fire |
| `AudioPatches.RegisterExact` | audio/aidl/default/Module.cpp:451-466 | Registering a patch adds to the index exactly its port config ids and their port ids |
| `AudioPatches.SetPatchKeepsInv` | audio/aidl/default/Module.cpp:1087-1216 | setAudioPatch keeps the whole invariant if and only if it is not an update that passes every check and is then refused by the streams; the late failure of a new patch is taken as intended, with the patch taken back |
| `AudioPatches.LateCreateLeavesEmptyPatch` | audio/aidl/default/Module.cpp:1203-1209 | That late failure of a new patch as it is written, when the list has not moved: an empty patch with id 0 stays in the list |
| `AudioPatches.LateUpdateBreaksIndex` | audio/aidl/default/Module.cpp:1201-1211 | After such a refusal only the index has changed: the old patch is still listed and the index has lost every use of it |
| `AudioPatches.AcceptedExactly` | audio/aidl/default/Module.cpp:1120-1171 | A well-formed request is granted exactly when no other patch uses a port to which its sources have exclusive routes only, requested or not; stated on the patch list, not on the index |
| `AudioRuns.UnaskedSinkRefuses` | audio/aidl/default/Module.cpp:1161-1171 | A concrete run from construction: a well-formed request for a free sink is refused only because of an exclusive sink it does not name |
| `AudioPatches.GrantedIsStored` | audio/aidl/default/Module.cpp:1183-1199 | A granted request is stored with its own sources, sinks and one latency per sink, under its id or a fresh one, and no other patch changes |
| `AudioLaws.GrantedExactly` | audio/aidl/default/Module.cpp:1087-1216 | In terms of the tables alone: a patch is granted exactly when the request is sensible, the endpoints match, the patch to update exists, nobody is in the way, a buffer size is found and the streams agree; what is stored, and the status of each refusal |
| `AudioLaws.SuggestionMeans` | audio/aidl/default/Module.cpp:1282-1378 | The suggested config field by field, and when it is valid, full or fails |
| `AudioLaws.SetConfigExactly` | audio/aidl/default/Module.cpp:1226-1398 | When a suggestion is applied, and that nothing but that one config changes |
| `AudioLaws.SetConfigFails` | audio/aidl/default/Module.cpp:1226-1398 | A request about nothing, or whose suggestion fails, changes nothing |
| `AudioLaws.SupportedMeans` | audio/aidl/default/Module.cpp:1316-1353 | A port supports the masks and rates of its first profile with the format |
| `AudioLaws.UnlistedFormat` | audio/aidl/default/Module.cpp:1302-1321 | A format no profile lists is supported only as the default of a port that leaves the choice to its device |
| `AudioLaws.DynamicSupported` | audio/aidl/default/Module.cpp:1285-1286 | Such a port supports exactly the default mask and rate with it |
| `AudioLaws.DefaultMeans` | audio/aidl/default/Module.cpp:332-353 | The default config has the first values of the first real profile, or the device's choice, or there is none |
| `AudioLaws.RealMeans` | audio/aidl/default/Module.cpp:72-91 | A profile is real exactly when it has a format, a mask and a rate of its own |
| `AudioPatches.ResetKeepsInv` | audio/aidl/default/Module.cpp:1445-1461 | Removing a patch keeps the invariant, also when the streams refuse |
| `AudioPatches.ResetRemoves` | audio/aidl/default/Module.cpp:1445-1461 | A removed patch is gone and no other patch changes |
| `AudioPatches.AcceptedSharesFairly` | audio/aidl/default/Module.cpp:1123-1171 | A granted request shares a sink port with another patch only over a route that is not exclusive |
| `AudioConfigs.SetConfigKeepsInv` | audio/aidl/default/Module.cpp:1226-1398 | Setting a port config keeps the invariant: unique ids, a port for each config, patches, streams and index untouched in meaning |
| `AudioConfigs.CreatedConfigIsTheRequest` | audio/aidl/default/Module.cpp:1265-1398 | A config that is created is the request under a fresh id, and its port supports it; otherwise nothing changes |
| `AudioConfigs.UpdateSupported` | audio/aidl/default/Module.cpp:1302-1392 | An applied update is supported by the port exactly when the mask and rate it leaves out are supported under the resulting format; they are kept unchecked |
| `AudioRuns.FormatOnlyUpdateIsUnsupported` | audio/aidl/default/Module.cpp:1302-1392 | A concrete module in which a format-only update is applied and leaves a config its port does not support |
| `AudioConfigs.ResetConfigKeepsInv` | audio/aidl/default/Module.cpp:1463-1494 | Resetting a port config keeps the invariant |
| `AudioConfigs.ResetConfigExactly` | audio/aidl/default/Module.cpp:1463-1494 | It succeeds exactly when the config exists, has no open stream and no patch uses its id; it restores an initial config, removes any other and touches nothing else |
| `AudioConfigs.OpenKeepsInv` | audio/aidl/default/Module.cpp:293-330 | Opening a stream keeps one stream per config, streams on mix ports only, and the limit of open streams of each port |
| `AudioConfigs.OpensExactly` | audio/aidl/default/Module.cpp:293-330 | A stream opens exactly when its config belongs to a mix port of that direction, has no stream yet and the port is below its limit |
| `AudioConfigs.CloseKeepsInv` | audio/aidl/default/include/core-impl/Stream.h:702-706 | A stream that closes itself can be dropped at any time |
| `AudioConfigs.DefaultConfig` | audio/aidl/default/Module.cpp:332-353 | There is a default config exactly when the port is a device port or has a profile that is not dynamic |
| `AudioDevices.ConnectKeepsInv` | audio/aidl/default/Module.cpp:689-841 | Connecting a device keeps the invariant, also when it fails after the port id is taken |
| `AudioDevices.ConnectNeverAborts` | audio/aidl/default/Module.cpp:725-737 | The unchecked lookup of the connected ports always finds a device port |
| `AudioLaws.ConnectsExactly` | audio/aidl/default/Module.cpp:689-841 | A device is connected exactly when its template waits for one, it is not there already, its profiles can be had and somebody can tell what they are; what the connected port looks like, and what each failure leaves |
| `AudioLaws.ConnectFills` | audio/aidl/default/Module.cpp:817-836 | Exactly the ports reached that had no real profile get the device's, and exactly those and the ones claimed before are claimed |
| `AudioLaws.ConnectRoutes` | audio/aidl/default/Module.cpp:802-815 | The routes after a connection, old and new, in order and with their exclusivity |
| `AudioLaws.UnknownTemplate` | audio/aidl/default/Module.cpp:695-700 | An unknown template is refused without taking an id |
| `AudioLaws.DisconnectsExactly` | audio/aidl/default/Module.cpp:843-909 | A port is disconnected exactly when it is connected and no client config is on it; what is gone then, which ports lose their profiles, and that no other changes |
| `AudioLaws.DisconnectRoutes` | audio/aidl/default/Module.cpp:881-891 | The routes after a disconnection: those that did not lead into the port, without it as a source |
| `AudioLaws.RoutableMeans` | audio/aidl/default/Module.cpp:433-449 | The ports reached are those at the other ends of the template's routes |
| `AudioLaws.PopulateMeans` | audio/aidl/default/Module.cpp:355-370 | Which external device ports get the standard profiles at the start, and what those are |
| `AudioLaws.CountMeans` | audio/aidl/default/include/core-impl/Stream.h:703-707 | The count of streams is the number of open streams listed under the id |
| `AudioDevices.DisconnectKeepsInv` | audio/aidl/default/Module.cpp:843-909 | Disconnecting a device keeps the invariant: no config, route or stream is left on the port, and no route loses its last source |
| `AudioProfiles.ConnectedReachesSame` | audio/aidl/default/Module.cpp:802-815 | A connected device reaches exactly the ports its template reaches |
| `AudioProfiles.ConnectThenDisconnect` | audio/aidl/default/Module.cpp:762-906 | Connecting a device and disconnecting the port it got gives back every table with only the id counter moved, if and only if nothing was filled in or what was filled in had been empty lists |
| `AudioProfiles.ConnectKeepsDevices` | audio/aidl/default/Module.cpp:725-737 | No external device is connected twice |
| `AudioProfiles.ConnectFollows` | audio/aidl/default/Module.cpp:817-836 | Connecting keeps every original port in step: dynamic ones have real profiles exactly while claimed, static ones are untouched |
| `AudioProfiles.DisconnectFollows` | audio/aidl/default/Module.cpp:891-906 | Disconnecting keeps the same |
| `AudioRuns.DoKeepsInv` | audio/aidl/default/Module.cpp:689-1494 | One call keeps the invariant if and only if it is not a late failing update of a patch; the late failure of a new patch is taken as intended |
| `AudioRuns.TablesStayConsistent` | audio/aidl/default/Module.cpp:293-1494 | Over every run of connect, disconnect, set and reset config, set and reset patch, open and close from construction on: ids are unique, every reference names something that exists, every route keeps a source, the patch index is exact and no device is connected twice |
| `AudioRuns.ExclusiveSinkHasOnePatch` | audio/aidl/default/Module.cpp:1123-1171 | In every reachable state a sink port all of whose routes are exclusive is the sink of at most one patch |
| `AudioRuns.MixPortsFollowConnections` | audio/aidl/default/Module.cpp:776-906 | Over every run, a port that began with dynamic profiles only has real ones exactly while a connected device claims it, and one that began with real profiles keeps them and is never claimed |
| `AudioRuns.LateFailureSharesExclusiveSink` | audio/aidl/default/Module.cpp:1201-1211 | What the late failure costs: asking for the same connection again as a new patch succeeds, and two patches then share an exclusive sink |
| `AudioRuns.ExclusiveSinkCanBeShared` | audio/aidl/default/Module.cpp:1201-1211 | A concrete run of three calls from construction, the second a late failing update, that puts two patches on an exclusive sink |
| `AudioModules.Module.SetAudioPatch` | audio/aidl/default/Module.cpp:1087-1216 | The object with its loops, backups and rollbacks does what the call on the tables does, taking a new patch back as intended; its invariant survives exactly when no update fails late |
| `AudioModules.Module.CheckRequest` | audio/aidl/default/Module.cpp:1089-1144 | The selection of configs and the search for allowed sinks accept exactly the well-formed requests |
| `AudioModules.Module.SelectByIds` | audio/aidl/default/include/core-impl/utils.h:88-103 | Selects exactly the configs with the given ids and reports exactly whether one is missing |
| `AudioModules.Module.AllowedSinks` | audio/aidl/default/Module.cpp:1123-1137 | Finds exactly the sinks the sources reach and which of them have a route that is not exclusive |
| `AudioModules.Module.CleanUp` | audio/aidl/default/Module.cpp:169-171 | Erases in place exactly the entries of the patch |
| `AudioModules.Module.Register` | audio/aidl/default/Module.cpp:451-466 | Inserts the entries of the patch, sources first |
| `AudioModules.Module.ResetAudioPatch` | audio/aidl/default/Module.cpp:1445-1461 | The object's reset, with its rollback |
| `AudioModules.Module.SetAudioPortConfig` | audio/aidl/default/Module.cpp:1226-1398 | The object's set config, field by field |
| `AudioModules.Module.ResetAudioPortConfig` | audio/aidl/default/Module.cpp:1463-1494 | The object's reset config |
| `AudioModules.Module.OpenStream` | audio/aidl/default/Module.cpp:293-330 | The object's checks for a new stream and its insertion |
| `AudioModules.Module.ConnectExternalDevice` | audio/aidl/default/Module.cpp:689-841 | The object's connect, with its loops over routes and ports |
| `AudioModules.Module.FillPorts` | audio/aidl/default/Module.cpp:817-836 | The loop over the ports fills and claims exactly the routable ports it should, although it changes the claims it looks at |
| `AudioModules.Module.DisconnectExternalDevice` | audio/aidl/default/Module.cpp:843-909 | The object's disconnect |
| `AudioModules.Module.NotClaimedElsewhere` | audio/aidl/default/Module.cpp:893-900 | Leaves exactly the ports whose last claim has gone |
| `StreamConnections.Streams.UpdateStreamsConnectedState` | audio/aidl/default/Module.cpp:468-623 | Starting from streams on the devices of the old patch, success leaves every stream the patches mention on exactly the devices of the new patch; failure leaves every stream where it was, except those whose rollback call failed, and there are none when at most one call fails; exactly the streams whose connections differ are told anything |
| `StreamConnections.Streams.RestoreOldConnections` | audio/aidl/default/Module.cpp:496-518 | The rollback, each of whose calls may fail |
| `StreamDevices.StreamsFollowPatches` | audio/aidl/default/Module.cpp:468-623 | Over every run of all the calls from construction, with no port config in two patches and rollback calls succeeding, each open stream is on exactly the devices of the other side of the patches that use its config, and on none when no patch does |
| `StreamDevices.NotificationIsReady` | audio/aidl/default/Module.cpp:468-623 | In every such state the notification of a granted request finds the streams on the devices of the old patch and every device it looks up, as it requires |
| `StreamDevices.DoKeepsWiring` | audio/aidl/default/Module.cpp:996-1078 | Each call keeps the streams on the devices of their patches: opening looks them up, patch calls move them, and no other call changes them |
| `AudioModules.Module.FindConnectedPortConfigIds` | audio/aidl/default/Module.cpp:273-291 | The loop over the index finds exactly the other ends of the patches that name the config, and its fatal branch is never taken |
| `StreamOuts.RunKeepsInv` | audio/aidl/default/Stream.cpp:439-742 | Over every run of commands, client writes and driver callbacks: the frame counter times the frame size is the sum of the byte counts in the burst replies, and drain notifications sent plus those still owed never exceed one per accepted full drain and two per accepted early-notify drain |
| `StreamOuts.NotificationsAreOwed` | audio/aidl/default/Stream.cpp:439-469 | No drain notification is sent without a pending drain, nor beyond what the accepted drains allow |
| `StreamOuts.BurstTakesWholeFrames` | audio/aidl/default/Stream.cpp:694-742 | Each burst takes a whole number of frames from the front of the data, within the request, the data offered and the buffer, and an accepted burst empties the queue |
| `StreamOuts.BurstTakesMost` | audio/aidl/default/Stream.cpp:694-733 | An accepted burst takes as many whole frames as request, data, buffer and driver allow, and not one more; all but one of those offered when a transient burst is forced |
| `StreamOuts.FullBurstIsConsumed` | audio/aidl/default/Stream.cpp:694-733 | A whole-frame request that is offered, fits and is transferred in full is consumed in full |
| `StreamOuts.RepliesAreTruthful` | audio/aidl/default/Stream.cpp:493-691 | A command that is read is answered once, with the state reached and the bytes by which the frame counter moved; when the worker stops, goes on or exits |
| `StreamOutDiagrams.StatusesMean` | audio/aidl/default/Stream.cpp:503-685 | What each status means, and that exactly a failing driver leads to the error state |
| `StreamOutDiagrams.ActionsFollowDiagram` | audio/aidl/android/hardware/audio/core/stream-out-async-sm.gv:26-109 | For every command, failure, time-out and driver callback, with the diagram's own state tracked: the published diagram has the arrows for what is seen if and only if a stated condition on the callback, the forced synchronous drain, the failing driver and a pending drain left behind earlier does not hold; both diagrams are written out arrow by arrow |
| `StreamOutDiagrams.RunsFollowDiagram` | audio/aidl/android/hardware/audio/core/stream-out-sm.gv:26-48 | A whole run from the start follows its diagram arrow by arrow if and only if none of its actions meets that condition, for streams with and without callbacks |
| `StreamOutDiagrams.CommandsFollowDiagram` | audio/aidl/android/hardware/audio/core/stream-out-async-sm.gv:26-109 | A command is refused, changing nothing, exactly when no arrow with its label leaves the diagram's state, except that an early-notify drain while a transfer is paused and a burst after closing are accepted |
| `StreamOutDiagrams.SuccessorIsUnique` | audio/aidl/android/hardware/audio/core/stream-out-async-sm.gv:26-109 | What is seen of a stream determines the diagram's state, early-notify clusters included |
| `StreamOutDiagrams.LeftBehindBy` | audio/aidl/default/Stream.cpp:556-683 | With callbacks, a pending drain is left behind only by a flush, by a burst that ends the draining, or by closing |
| `StreamOutDiagrams.LeftBehindNoticeHoldsBurst` | audio/aidl/default/Stream.cpp:573-577 | A run of ten actions that departs at the end: a notice left behind by a flush holds a later, plain draining in place |
| `StreamOutDiagrams.ForcedDrainDeparts` | audio/aidl/default/Stream.cpp:606-609 | A departing run: a forced synchronous drain of a stream with callbacks goes from active to idle |
| `StreamOutDiagrams.SyncBurstStaysDraining` | audio/aidl/default/Stream.cpp:587-589 | A departing run without callbacks: a burst after an announced clip change stays in draining |
| `StreamOutDiagrams.PausedEarlyDrainDeparts` | audio/aidl/default/Stream.cpp:620-622 | A departing run: an early-notify drain is accepted while a transfer is paused |
| `StreamOutDiagrams.AsyncFailureDeparts` | audio/aidl/default/Stream.cpp:549-552 | A departing run with callbacks: the driver fails and the error state is entered without an error callback |
| `StreamOutDiagrams.SyncFailureDeparts` | audio/aidl/default/Stream.cpp:549-552 | A departing run without callbacks: the driver fails in standby, from where the diagram draws no failure |
| `StreamOutDiagrams.PausedBufferDeparts` | audio/aidl/default/Stream.cpp:419-437 | A departing run: a paused stream announces room in its buffer |
| `StreamOutDiagrams.EarlyEndDeparts` | audio/aidl/default/Stream.cpp:446-458 | A departing run: the clip ends before the early notification, and no callback says so |
| `StreamOutDiagrams.NextClipDeparts` | audio/aidl/default/Stream.cpp:446-458 | A departing run: a full drain ends with a next clip waiting, and the stream goes to transferring |
| `StreamOutDiagrams.FlushedDrainDeparts` | audio/aidl/default/Stream.cpp:446-458 | A departing run: a flushed drain is announced in the idle state |
| `StreamOutDiagrams.PausedClipDeparts` | audio/aidl/default/Stream.cpp:446-458 | A departing run: a paused drain is announced |
| `StreamOutDiagrams.SilentEndDeparts` | audio/aidl/default/Stream.cpp:446-458 | A departing run: a drain ended by a burst stops the stream, and no callback says so |
| `StreamOutDiagrams.FlushedNoticeDeparts` | audio/aidl/default/Stream.cpp:419-437 | A departing run: a notice left behind by a flush announces room in an idle stream |
| `StreamOutDiagrams.BurstDrainDeparts` | audio/aidl/default/Stream.cpp:459-468 | A departing run: a drain ended by a burst is announced in the active state |
| `StreamOutDiagrams.ElapsedDrainDeparts` | audio/aidl/default/Stream.cpp:446-458 | A departing run without callbacks: a drain that ended by itself forces a stream out of standby |
| `StreamOuts.NoDataLost` | audio/aidl/android/hardware/audio/core/StreamDescriptor.aidl:475-501 | End to end: over any run whose bursts are accepted, what the stream has consumed followed by what the client still holds is the client's data, nothing lost or repeated |
| `StreamOuts.ExchangeConserves` | audio/aidl/android/hardware/audio/core/StreamDescriptor.aidl:475-501 | One exchange, and the queue it leaves: empty exactly when the burst was accepted or nothing was offered |
| `StreamOuts.DrainIsRecorded` | audio/aidl/default/Stream.cpp:598-629 | An accepted drain that leaves the stream draining is recorded for notification, except when a transfer is paused |
| `StreamOuts.PausedDrainIsForgotten` | audio/aidl/default/Stream.cpp:620-622 | A concrete run: a drain accepted while a transfer is paused is never announced after a start, whatever the driver reports |
| `StreamOuts.OnlyDrainsChangeDrain` | audio/aidl/default/Stream.cpp:471-692 | No command but a drain changes the pending drain: bursts, flushes and time-outs leave it |
| `StreamOuts.FlushedDrainIsAnnounced` | audio/aidl/default/Stream.cpp:643-683 | A stream flushed while draining and put in standby still announces the drain and leaves standby without a command |
| `StreamOuts.BurstKeepsClipTransition` | audio/aidl/default/Stream.cpp:556-597 | A burst during an early-notify drain ends the draining but not the clip transition, unlike the diagram's note says |
| `StreamOutWorkers.StreamOutWorkerLogic.RunCycle` | audio/aidl/default/Stream.cpp:471-692 | The worker object's cycle, over a real queue and buffer, does what the state machine says |
| `StreamOutWorkers.StreamOutWorkerLogic.WriteFrames` | audio/aidl/default/Stream.cpp:694-742 | The transfer reads all of the queue into the buffer without overrunning it; the read never fails, so the status for missing data is never returned |
| `StreamOutWorkers.StreamOutWorkerLogic.OnClipState` | audio/aidl/default/Stream.cpp:439-469 | The clip callback does what the state machine says |
| `StreamOutWorkers.StreamOutWorkerLogic.OnBufferState` | audio/aidl/default/Stream.cpp:419-437 | The buffer callback does what the state machine says |
| `StreamIns.RunKeepsInv` | audio/aidl/default/Stream.cpp:201-397 | Over every run the frame counter times the frame size is the sum of the byte counts in the burst replies, and what the client has read followed by what is queued is what was captured, in order |
| `StreamIns.BurstReadsWholeFrames` | audio/aidl/default/Stream.cpp:357-397 | Each burst reads a whole number of frames of the driver's data, or silence while disconnected, within the request, the room in the queue and the buffer |
| `StreamIns.BurstReadsMost` | audio/aidl/default/Stream.cpp:357-391 | An accepted burst reads as many whole frames as request, room and driver allow, and not one more |
| `StreamIns.FullBurstIsCaptured` | audio/aidl/default/Stream.cpp:357-391 | A whole-frame request into an empty queue is met in full when the driver has the frames |
| `StreamIns.BurstLeadsTo` | audio/aidl/default/Stream.cpp:270-285 | A burst leads to active, and out of draining to standby |
| `StreamIns.RepliesAreTruthful` | audio/aidl/default/Stream.cpp:208-357 | A command that is read is answered once, with the state reached and the bytes put into the queue |
| `StreamIns.StatusesMean` | audio/aidl/default/Stream.cpp:224-352 | What each status means, and that exactly a failing driver leads to the error state |
| `StreamIns.CommandsFollowDiagram` | audio/aidl/android/hardware/audio/core/stream-in-sm.gv:17-42 | Against the published input state diagram: a command is refused exactly when no arrow leaves the state, and an accepted one follows an arrow unless the driver fails |
| `StreamInWorkers.StreamInWorkerLogic.RunCycle` | audio/aidl/default/Stream.cpp:201-358 | The worker object's cycle, over a real queue and buffer, does what the state machine says |
| `StreamInWorkers.StreamInWorkerLogic.ReadFrames` | audio/aidl/default/Stream.cpp:357-397 | The transfer never overruns the buffer or the queue; the write never fails, so the status for missing room is never returned |
| `StreamCommands.DataMQ.Read` | audio/aidl/default/Stream.cpp:694-701 | The data queue moves exactly the bytes asked for, in order, or nothing |
| `EffectBuffers.StepKeepsInv` | audio/aidl/default/EffectContext.cpp:31-233 | Every parameter change, reopen, pass of process and client access keeps the relation between queue sizes and work buffer |
| `EffectBuffers.ProcessFitsWorkBuffer` | audio/aidl/default/EffectImpl.cpp:389-411 | After any parameter changes and reopens in any order, one pass of process handles no more samples than the work buffer holds, and writes out exactly what it read, in order |
| `EffectBuffers.ProcessMovesAll` | audio/aidl/default/EffectImpl.cpp:401-405 | A pass goes on until the input is empty or the output full, and conserves all samples in order |
| `EffectBuffers.EffectIsTransparent` | audio/aidl/default/EffectImpl.cpp:389-419 | Over every run of writes, reads, passes and reopens with the same parameters, the client reads what it wrote, in order, and the rest is still inside |
| `EffectBuffers.OpenedForWholeFrames` | audio/aidl/default/EffectContext.cpp:31-53 | An opened effect has room for a buffer of float frames in each queue, and a work buffer for the larger |
| `EffectBuffers.ChangeSucceedsExactly` | audio/aidl/default/EffectContext.cpp:164-190 | When new parameters are taken as a whole, and what remains when they are not |
| `EffectBuffers.ReopenAfterChange` | audio/aidl/default/EffectContext.cpp:65-80 | A change and a reopen give each side that changed an empty queue of the new size, keep the other with its data, and size the work buffer |
| `EffectBuffers.NothingDropped` | audio/aidl/default/EffectContext.cpp:200-233 | Where a reopen is not supported, a queue is missing or there is no work buffer, no change drops a queue |
| `EffectBuffers.AssertDependsOnCapacities` | audio/aidl/default/EffectImpl.cpp:396-400 | The stronger assertion in process holds whatever the queues contain exactly when neither queue is larger than the work buffer |
| `EffectBuffers.AssertCanFail` | audio/aidl/default/EffectImpl.cpp:396-400 | A concrete run in which that assertion fails: two changes between reopens |
| `EffectBuffers.AssertHoldsWhenPrompt` | audio/aidl/default/EffectImpl.cpp:396-400 | It holds over every run in which a reopen follows every change that drops a queue |
| `EffectContexts.EffectContext.constructor` | audio/aidl/default/EffectContext.cpp:31-53 | A new context has both queues and a work buffer of the larger size |
| `EffectContexts.EffectContext.SetCommonParameter` | audio/aidl/default/EffectContext.cpp:164-190 | Takes over parameters and frame sizes, in the order and with the early exits of the original |
| `EffectContexts.EffectContext.UpdateFrameSizes` | audio/aidl/default/EffectContext.cpp:200-233 | Drops exactly the queues whose frame size or count changes, and reports a failed wake-up |
| `EffectContexts.EffectContext.DupeFmqWithReopen` | audio/aidl/default/EffectContext.cpp:65-80 | Recreates missing queues and resizes the work buffer |
| `EffectContexts.EffectContext.ProcessOnce` | audio/aidl/default/EffectImpl.cpp:389-411 | One pass over a real work buffer stays inside it and moves the samples unchanged |
| `EffectContexts.EffectProcess` | audio/aidl/default/EffectImpl.cpp:414-419 | The copying effect, with input and output in the same buffer |
| `HciRouters.HciRouterClientAgent.UnregisterClient` | bluetooth/bluetooth_hal/hci_router_client_agent.cc:78-86 | A client is dropped exactly when it was registered |
| `HciRouters.HciRouterClientAgent.HandleBluetoothEnable` | bluetooth/bluetooth_hal/hci_router_client_agent.cc:182-194 | Bluetooth becomes enabled exactly on a reset complete event in Running, and every client is told |
| `HciRouters.HciRouter.DoInitialize` | bluetooth/bluetooth_hal/hci_router.cc:380-387 | Initialising registers the stack's callback and brings up the modules |
| `TxHandlers.TxHandler.DoSendToTransport` | bluetooth/bluetooth_hal/hci_router.cc:229-249 | Hands the packet to the transport, once |
| `TxHandlers.TxHandler.VoteRouterTaskWakelock` | bluetooth/bluetooth_hal/hci_router.cc:262-268 | A vote holds the wake lock and counts once |
| `TxHandlers.TxHandler.UnvoteRouterTaskWakelock` | bluetooth/bluetooth_hal/hci_router.cc:270-278 | Taking a vote back keeps the lock exactly while votes remain |
| `AudioModules.Module.constructor` | audio/aidl/default/Module.cpp:164-167 | A module takes over its configuration and fills in profiles for its external devices |
| `AudioModules.Module.PopulateConnectedProfiles` | audio/aidl/default/Module.cpp:355-370 | The loop gives the standard profiles exactly to the external device ports that have none |
| `AudioDevices.SimulatedConnectionIsReal` | audio/aidl/default/Module.cpp:770-776 | So in a fresh module a simulated connection of such a port has real profiles |
| `AudioModules.Module.GenerateDefault` | audio/aidl/default/Module.cpp:332-353 | The loop over the profiles finds the default config |
| `AudioModules.Module.Adjust` | audio/aidl/default/Module.cpp:1282-1378 | The requested fields are taken over one by one, with validity and completeness |
| `AudioModules.Module.ExclusiveTaken` | audio/aidl/default/Module.cpp:1161-1171 | Whatever the order of the map, finds out whether an exclusive sink is in use |
| `AudioModules.Module.AlreadyConnected` | audio/aidl/default/Module.cpp:725-737 | Whatever the order of the map, finds out whether the device is connected already |
| `AudioModules.Module.ExtendRoutes` | audio/aidl/default/Module.cpp:802-815 | Extends the routes from the template and copies those into it |
| `AudioDevices.NoConfigLeft` | audio/aidl/default/Module.cpp:861-875 | Once the check passes, no port config is left on the port, initial ones included |
| `AudioProfiles.DisconnectKeepsDevices` | audio/aidl/default/Module.cpp:876-906 | Disconnecting never makes two ports stand for one device |
| `StreamConnections.Streams.SetStreamConnectedDevices` | audio/aidl/default/include/core-impl/Stream.h:712-718 | One call on one stream: nothing without a stream, and an arbitrary outcome when it fails |
| `StreamOutWorkers.StreamOutWorkerLogic.HandleCommand` | audio/aidl/default/Stream.cpp:503-685 | The switch over the commands |
| `StreamOutWorkers.StreamOutWorkerLogic.HandleBurstCommand` | audio/aidl/default/Stream.cpp:556-597 | The burst command and the state it leads to |
| `StreamInWorkers.StreamInWorkerLogic.HandleCommand` | audio/aidl/default/Stream.cpp:224-349 | The switch over the commands |
| `StreamInWorkers.StreamInWorkerLogic.FillBuffer` | audio/aidl/default/Stream.cpp:369-380 | The driver's data, or silence, at the start of the buffer |
| `StreamCommands.DataMQ.Write` | audio/aidl/default/Stream.cpp:381-383 | The data queue appends exactly the bytes given, or nothing when they do not fit |

## Left out

- Binder, AIDL and HIDL plumbing, service registration, logging, dumps, snoop capture and XML configuration.
- StreamWorker.StepKeepsInv: the worker is a step relation and not an object, because what matters is the interleaving of two threads; thread priority and naming are not in it.
- H4Protocols.H4Protocol.SendDataToPacketizer: requires type bytes 0 to 5; above 5 the original indexes past its tables.
- H4Protocols.H4Protocol.OnDataReady: the same, for the bytes of one read.
- H4Protocols.H4Protocol.Send: the outcomes of `writev` come as a finite list; a list that ends leaves the call retrying.
- TxHandlers.StepKeepsInv: the teardown of the handler, the bounded wait for room in the worker's queue and the interception of packets are not modelled; the wire is the sequence of packets handed to the transport.
- TxHandlers.TxHandler.DoSendToTransport: an inactive transport and a client that intercepts the packet are not modelled, nor are the wake lock and the notice to the transport when the handler turns busy.
- HalStates.AgentMirrorsRouter: the transport, the chip provisioner and the configuration loader are represented by their outcomes.
- HciRouters.HciRouter.DoInitializeModules: the provisioner's posts, the configuration loader and the creation of the task handler are not modelled; whether the transport comes up is a parameter.
- HciRouters.HciRouter.DoCleanup: ending the task handler, the thread handler and the transport is not modelled.
- AudioRuns.DoKeepsInv: the late failure of a new patch is modelled as intended.
- AudioModules.Module.SetAudioPatch: the same.
- AudioPatches.SetPatchKeepsInv: the computation of latency and buffer size from the highest sample rate is a parameter, and so are the endpoint check and the streams' answer; the late failure of a new patch is modelled as intended.
- AudioConfigs.SetConfigKeepsInv: stored port configs are fully specified by type, apart from the gain; the gain computation is floating point and only its verdict is a parameter.
- AudioConfigs.OpensExactly: metadata tags, offload and non-blocking flags, buffer sizes and the making of the stream are one parameter; a stream that closes itself is dropped at once instead of at the next count, so counting has nothing to purge.
- AudioDevices.ConnectKeepsInv: the populate hook sets profiles only, as the overrides in the repository do; the data handed in belongs to a device port, as the original requires.
- StreamConnections.Streams.UpdateStreamsConnectedState: devices are sets, so their order and repetition are not captured.
- StreamDevices.StreamsFollowPatches: a port config that is not of a device and is used by two patches at once is outside its runs; the original then leaves the stream on the devices of the last patch set.
- StreamOuts.RunKeepsInv: memory-mapped streams, positions and latencies in replies, and the sound dose processor are not modelled; a reply counts even when the reply queue fails afterwards.
- StreamIns.RunKeepsInv: as for output streams; memory-mapped input is not modelled.
- EffectContexts.EffectContext.constructor: the fatal check of illegal parameters and the validity of the queues are not modelled.
- EffectContexts.EffectContext.ProcessOnce: the gating by the effect's state, the status queue and the end of draining are not modelled.
- EffectBuffers.ProcessFitsWorkBuffer: `resetBuffer`, closing, and the gating of process by the effect's state and draining are not modelled; samples are reals and frame sizes are given directly.
- Ids and counters are unbounded integers; overflow of 32-bit ids, frame counts and byte counts is not modelled.
- Mute, volume, microphones, telephony, sound dose, vendor parameters and the Bluetooth parameter updates of the module.
