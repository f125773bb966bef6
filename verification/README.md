# Cardputer link: models and proofs

A Dafny model of the Bluetooth link between the Cardputer firmware (C++) and its desktop service (Python), with
proofs of what the link guarantees over whole runs. `dafny verify dfyconfig.toml` checks everything.

The project follows the repository's components, one module per file.

* **Wire.** `OutgoingQueue` (the four-slot frame queue), `Framing` (the two line buffers), `BleTransport` (generations and
  callbacks). `WireRuns` proves that what the queue puts on the air is whole frames and that the desktop gets exactly them
  back; `BleProvenance` carries the isolation of connections from stamped bytes to the bytes the object delivers.
* **Scheduler and time sync.** `Scheduler` runs callbacks that are arbitrary sequences of API calls, nested ticks included.
  `TimeSync` is the controller, `TimeSyncRuns` its runs in unbounded true time.
* **Actions.** `ActionContract` and `MessageCodec` are the validators of the two ends, `CodecAgreement` proves that they accept
  the same records. `ActionsController` is the firmware's paging and its execution slot, `ExecutionRuns`, `ExecutionTime` and
  `DirectoryRuns` their whole-run properties. `ActionsModule` is the desktop's catalog, `DirectoryService` follows a page from
  the configuration to the display and `ExecutionService` an execution from its adapter to the slot, `Paste` is the two-step
  paste, `ResponseLine` the encoder's verdict on a response, `HandlerReplies` what the modules have it encode, and
  `DesktopSession` the concurrent request tasks.
* **Laws.** `QueueLaws`, `BleLaws`, `SchedulerLaws`, `TimeSyncLaws`, `WifiLaws`, `ExecutionLaws`, `Requests`, `SessionLaws` and
  `ConfigLaws` say of each component what an event means for its user, without the functions that compute it.
* **Wi-Fi.** `Wifi` is the ownership machine, `WifiRuns` its runs over a fallible adapter, `ScanMerge` the streaming top-32 list.
* **Text and configuration.** `Utf8` is the byte-level validators and the editor, `ConfigStore` the file store and the save
  protocol over faulty calls, `JsonText`, `FlatJson` and `ConfigCodecs` what the files and the directory pages look like.

Objects whose methods change fields are classes; each method is proved equal to a specification function on values (past
participles: `Enqueued`, `Ticked`, `Saved`), and the theorems are about those functions, over every sequence of calls. What comes
from outside is a parameter of the call: the clock, whether a sink or the queue accepted, how a file operation or an await ends,
what the radio reports. Clock readings are 32-bit and wrap; where a property is about true time, a run carries the unbounded time
beside them.

Where the code does not keep what one would expect, the exact condition is proved: the two line buffers return the same lines if
and only if no fragment completes a line before an over-long one (`Framing.BuffersAgree`), the validators differ on whole results
as `CodecAgreement.ResultsAgreeExactly` says, and a request whose identities hold a lone surrogate is run but never answered
(`DesktopSession.AnsweredExactly`, `SurrogateUnanswered`).

## Model

| member | source | states |
|---|---|---|
| Common.ElapsedIsTimeModWrap | firmware/src/platform/monotonic_clock.h:14 | the 32-bit difference of two clock readings is the time between them modulo 2^32, however often the clock wrapped |
| Common.ElapsedExact | firmware/src/platform/monotonic_clock.h:14 | it is that time itself while less than one turn of the clock has passed |
| OutgoingQueue.OutgoingJsonlQueue.Enqueue | firmware/src/core/outgoing_jsonl_queue.cpp:5-15 | accepts exactly a payload of 1 to 4096 bytes without CR or LF (one trailing LF removed first) under a nonempty id while fewer than four frames wait; appends its frame, and leaves the queue alone otherwise |
| OutgoingQueue.OutgoingJsonlQueue.Remove | firmware/src/core/outgoing_jsonl_queue.cpp:16-19 | the shift in place takes out exactly one slot and keeps the order of the others |
| OutgoingQueue.OutgoingJsonlQueue.CancelPending | firmware/src/core/outgoing_jsonl_queue.cpp:20-28 | withdraws the first frame of that id if none of its bytes is out, and refuses otherwise |
| OutgoingQueue.OutgoingJsonlQueue.Clear | firmware/src/core/outgoing_jsonl_queue.cpp:29-32 | empties the queue and forgets that anything was sent |
| OutgoingQueue.OutgoingJsonlQueue.Poll | firmware/src/core/outgoing_jsonl_queue.cpp:33-48 | drops stale and expired frames, paces by 10 ms, offers at most 20 bytes of slot 0 and advances it only if the sink accepts; a completed frame leaves the queue |
| WireRuns.WireIsWholeFrames | firmware/src/core/outgoing_jsonl_queue.cpp:5-48 | in every run under one generation, whatever the sink refuses: the wire is the completed frames in acceptance order and then a beginning of slot 0; no other slot is begun; a cancelled or expired frame has no byte on it; every accepted frame is accounted for once |
| WireRuns.BegunFrameFinishes | firmware/src/core/outgoing_jsonl_queue.cpp:21-24 | once begun, a frame can be neither withdrawn nor expired under its generation; it only grows on the wire until it is complete |
| WireRuns.WireReachesDesktop | desktop/src/adv_helper/core/framing.py:35-60 | a desktop buffer fed that wire in any chunking returns exactly the completed payloads in acceptance order and holds the begun rest |
| QueueLaws.PollMeans | firmware/src/core/outgoing_jsonl_queue.cpp:33-48 | a poll keeps the frames of this connection that are begun or at most ten seconds old, in order, and drops the rest; ten milliseconds after the last fragment it offers the next twenty bytes of the first, and moves on exactly if they are taken |
| QueueLaws.EnqueueMeans | firmware/src/core/outgoing_jsonl_queue.cpp:5-15 | a message is taken, with or without its line feed, exactly if it is one line of 1 to 4096 bytes under a nonempty id and fewer than four frames wait |
| QueueLaws.CancelMeans | firmware/src/core/outgoing_jsonl_queue.cpp:20-28 | cancelling takes out the first frame of that identity unless it is begun, and leaves the others in order |
| Framing.DesktopJsonlBuffer.Feed | desktop/src/adv_helper/core/framing.py:35-60 | raises on a timeout or on any line or rest over the limit, dropping the lines cut from that chunk, and otherwise returns the nonempty lines completed and keeps the rest, stamped anew exactly when the rest began with this chunk |
| Framing.StampMeans | desktop/src/adv_helper/core/framing.py:39-56 | what is kept is as old as the chunk it began with, and nothing kept has no age |
| Framing.DesktopJsonlBuffer.CheckTimeout | desktop/src/adv_helper/core/framing.py:62-67 | raises and clears exactly when a partial frame is older than the limit |
| Framing.DesktopJsonlBuffer.Clear | desktop/src/adv_helper/core/framing.py:69-71 | empties the buffer and its stamp |
| Framing.JsonlBuffer.Feed | firmware/src/core/jsonl_buffer.cpp:16-36 | byte by byte: complete nonempty lines are returned, the byte past the limit discards its line and the rest of the fragment, and lines before it are kept |
| Framing.JsonlBuffer.ExpireIfNeeded | firmware/src/core/jsonl_buffer.cpp:7-14 | a partial line is dropped exactly when its last byte is at least the timeout old |
| Framing.JsonlBuffer.Clear | firmware/src/core/jsonl_buffer.cpp:40-44 | empties the buffer |
| Framing.SplitAppend | desktop/src/adv_helper/core/framing.py:46-60 | cutting a stream into lines chunk by chunk, carrying the rest over, loses, joins and reorders nothing |
| Framing.SplitJoin | desktop/src/adv_helper/core/framing.py:46-60 | lines written one after another are cut into the same lines again |
| Framing.DesktopReassembles | desktop/src/adv_helper/core/framing.py:35-60 | over whole streams in any chunking the desktop never raises exactly when every line and the rest fit, and then returns the nonempty lines of the stream |
| Framing.FirmwareReassembles | firmware/src/core/jsonl_buffer.cpp:16-36 | the same of the firmware buffer, with which it never overflows |
| Framing.FirmwareFeedsLines | firmware/src/core/jsonl_buffer.cpp:16-36 | one fragment: without an over-long line the result is the line cut of buffer and fragment; with one, exactly the lines before it survive |
| Framing.BuffersAgree | firmware/src/core/jsonl_buffer.cpp:16-36 | for all streams in all fragments: both ends report a fault or neither, both carry the same over, and they return the same lines if and only if no fragment completes a nonempty line before it shows an over-long one; without a fault none does |
| Framing.EndsCompared | desktop/src/adv_helper/core/framing.py:51-59 | the desktop never returns more lines than the firmware, and as many only if they are the same |
| Framing.OverlongDiffers | desktop/src/adv_helper/core/framing.py:51-59 | at every limit from 1 on, 4096 included, such a fragment: the firmware returns its first line and the desktop none |
| BleTransport.BleTransport.OnWriteBytes | firmware/src/platform/ble_transport.cpp:71-86 | queues the bytes with the current generation, or drops them when eight chunks wait |
| BleTransport.BleTransport.OnConnected | firmware/src/platform/ble_transport.cpp:88-92 | a new generation, then connected |
| BleTransport.BleTransport.OnDisconnected | firmware/src/platform/ble_transport.cpp:94-107 | a new generation, disconnected, waiting chunks discarded and a reset left for the next poll |
| BleTransport.BleTransport.Poll | firmware/src/platform/ble_transport.cpp:109-141 | performs its atomic actions in program order: reset if stale, take over the chunks, feed those of the current generation, expire |
| BleTransport.BleTransport.TakeMessage | firmware/src/platform/ble_transport.cpp:143-152 | delivers the oldest line only under the polled generation while connected; otherwise all lines are dropped |
| BleTransport.BleTransport.EnqueueRequest | firmware/src/platform/ble_transport.cpp:154-157 | accepts a request only under the polled generation while connected, and stamps it with it |
| BleTransport.BleTransport.CancelPending | firmware/src/platform/ble_transport.h:22 | takes back a waiting request none of whose bytes is out, whatever the connection |
| BleTransport.BleTransport.PollTransmit | firmware/src/platform/ble_transport.cpp:159-173 | offers a fragment only if the generation is current before the poll and again at the sink |
| BleTransport.GenerationIsolation | firmware/src/platform/ble_transport.cpp:71-173 | in every interleaving of callbacks with the actions of the loop task, cancellations included: a delivered line consists of bytes stamped with the generation current at delivery, and a fragment passes the sink only for a frame of the current generation |
| BleProvenance.StepErased | firmware/src/platform/ble_transport.cpp:71-173 | an action on stamped bytes, stamps erased, is the action on bytes |
| BleProvenance.RunErased | firmware/src/platform/ble_transport.cpp:71-173 | so every run on bytes is the erasure of its stamped run |
| BleProvenance.DeliveredLinesAreCurrent | firmware/src/platform/ble_transport.cpp:143-152 | every line delivered after any interleaving is the bytes of cells all written under the generation then current (or exactly a multiple of 2^32 connection changes earlier) |
| BleLaws.PollReceives | firmware/src/platform/ble_transport.cpp:109-141 | one poll between two calls: after a change of connection nothing old is kept; then exactly the lines completed by the chunks written under this connection are queued, in the order written, behind those that wait, and the beginning of the next is kept, while no line is over-long and there is a place for each |
| BleLaws.TakenInOrder | firmware/src/platform/ble_transport.cpp:143-152 | while the connection lives, takes deliver the waiting lines first come, first served |
| BleLaws.FedMeans | firmware/src/core/jsonl_buffer.cpp:16-36 | one chunk: a beginning older than five seconds is given up, the complete lines before an over-long one queue up as far as there is room, and the rest is kept |
| BleLaws.WriteMeans | firmware/src/platform/ble_transport.cpp:71-86 | a written chunk waits behind the others under the connection of that moment; with eight waiting it is dropped |
| BleLaws.RequestMeans | firmware/src/platform/ble_transport.cpp:154-157 | a request reaches the queue on a live connection only, marked with it |
| BleLaws.TransmitMeans | firmware/src/platform/ble_transport.cpp:159-173 | a transmission polls the queue once on a live connection, and the sink takes the fragment only if the connection still lives |
| Scheduler.ScheduledTaskService.RegisterTask | firmware/src/core/scheduled_task_service.cpp:21-31 | registers in the first free slot under a fresh generation exactly when id, interval, callback, uniqueness and dispatch state allow it, and dispatches at once if asked to |
| Scheduler.ScheduledTaskService.GetTask | firmware/src/core/scheduled_task_service.cpp:32-37 | reports the registered state of the task, if any |
| Scheduler.ScheduledTaskService.SetEnabled | firmware/src/core/scheduled_task_service.cpp:38-47 | changes the flag and restarts the interval only on a change to enabled |
| Scheduler.ScheduledTaskService.UpdateInterval | firmware/src/core/scheduled_task_service.cpp:48-54 | sets a valid interval and restarts it |
| Scheduler.ScheduledTaskService.RescheduleFromNow | firmware/src/core/scheduled_task_service.cpp:55-60 | restarts the interval of a registered task |
| Scheduler.ScheduledTaskService.Dispatch | firmware/src/core/scheduled_task_service.cpp:61-68 | stamps an enabled slot, then runs the callback as an arbitrary sequence of API calls, nested ticks and triggers included |
| Scheduler.ScheduledTaskService.TriggerNow | firmware/src/core/scheduled_task_service.cpp:69-74 | dispatches a registered task unless one is being dispatched |
| Scheduler.ScheduledTaskService.Cancel | firmware/src/core/scheduled_task_service.cpp:75-80 | frees the slot of the task |
| Scheduler.ScheduledTaskService.NextWaitMs | firmware/src/core/scheduled_task_service.cpp:81-90 | the least remaining time of the enabled tasks, none if there is none |
| Scheduler.ScheduledTaskService.Tick | firmware/src/core/scheduled_task_service.cpp:91-105 | takes the registrations on entry oldest first and gives each its turn, whatever the callbacks do meanwhile |
| Scheduler.CallInv | firmware/src/core/scheduled_task_service.cpp:21-105 | every API call, from inside a callback or not, keeps slot ids unique and generations distinct and bounded |
| Scheduler.SnapshotIsRegistrations | firmware/src/core/scheduled_task_service.cpp:93-98 | the snapshot lists exactly the registrations, once each, oldest first |
| Scheduler.TickTheorem | firmware/src/core/scheduled_task_service.cpp:91-105 | for all callbacks: one tick runs each registration at most once, in increasing registration order, only registrations present on entry, and turn k runs exactly when that registration is then still in place, enabled and due |
| Scheduler.DueTurnRuns | firmware/src/core/scheduled_task_service.cpp:99-104 | turn k is recorded as run exactly if it was due when it came |
| Scheduler.IdleTick | firmware/src/core/scheduled_task_service.cpp:91-105 | a tick dispatches nothing exactly when nothing is due on entry, and then changes nothing |
| Scheduler.NextWaitExact | firmware/src/core/scheduled_task_service.cpp:81-90 | across clock wraps: no wait exactly when no task is enabled; a tick at any smaller offset dispatches nothing and a tick at exactly that offset dispatches something |
| Scheduler.NextWaitZero | firmware/src/core/scheduled_task_service.cpp:81-105 | the wait is zero exactly when a tick now would dispatch |
| Scheduler.AlwaysASlot | firmware/src/core/scheduled_task_service.cpp:21-31 | four identities and eight slots: a registration is never refused for want of a slot |
| Scheduler.UntouchedTask | firmware/src/core/scheduled_task_service.cpp:91-105 | a task no callback touches runs in a tick exactly when it is enabled and due on entry, and keeps everything but its stamp |
| SchedulerLaws.RunsAfterItsInterval | firmware/src/core/scheduled_task_service.cpp:91-105 | whatever started its interval last: a task no callback touches runs in a tick exactly when it is enabled and its interval has passed since then, and its interval then starts again |
| SchedulerLaws.RegisterMeans | firmware/src/core/scheduled_task_service.cpp:21-31 | a registration takes hold exactly if identity, interval, callback and dispatch state allow it and the identity is free; its interval starts now and no other task notices |
| SchedulerLaws.EnableMeans | firmware/src/core/scheduled_task_service.cpp:38-47 | enabling a disabled task starts its interval again; any other assignment leaves the interval alone; no other task notices |
| SchedulerLaws.IntervalMeans | firmware/src/core/scheduled_task_service.cpp:48-54 | a sensible new interval starts now |
| SchedulerLaws.RescheduleMeans | firmware/src/core/scheduled_task_service.cpp:55-60 | rescheduling starts the interval again and changes nothing else |
| SchedulerLaws.CancelMeans | firmware/src/core/scheduled_task_service.cpp:75-80 | cancelling frees the identity and touches no other task |
| TimeSync.TimeSyncController.Begin | firmware/src/application/time_sync/time_sync_controller.cpp:20-25 | registers the hourly task once and stamps the age clock |
| TimeSync.TimeSyncController.UpdateAge | firmware/src/application/time_sync/time_sync_controller.cpp:32-39 | adds the elapsed time up to the cap, which makes a sync needed |
| TimeSync.TimeSyncController.OnSessionReady | firmware/src/application/time_sync/time_sync_controller.cpp:41-51 | a hello disconnects on a change of computer or a lost capability and starts a round at once only if something changed and a sync is needed |
| TimeSync.TimeSyncController.StartRound | firmware/src/application/time_sync/time_sync_controller.cpp:53-58 | starts a round of attempts unless one is in flight or a retry pends |
| TimeSync.TimeSyncController.Attempt | firmware/src/application/time_sync/time_sync_controller.cpp:60-70 | one attempt, counted even when the queue refuses it |
| TimeSync.TimeSyncController.Fail | firmware/src/application/time_sync/time_sync_controller.cpp:72-78 | takes the request in flight back from the queue, clears it and leaves a retry pending while attempts remain |
| TimeSync.TimeSyncController.Tick | firmware/src/application/time_sync/time_sync_controller.cpp:80-91 | ages, times out after 15 s, drops retries while disabled and retries after 3 s |
| TimeSync.TimeSyncController.OnMessage | firmware/src/application/time_sync/time_sync_controller.cpp:93-113 | anything but a response to the time action is left alone; only a timely OK answer to the request in flight that the clock takes is a success, which alone moves the hourly deadline; a late or failed one takes the request back |
| TimeSync.TimeSyncController.Disconnect | firmware/src/application/time_sync/time_sync_controller.cpp:115-124 | takes the request in flight back from the queue, forgets the session and remembers an unfinished request as still needed |
| TimeSyncRuns.StepFollows | firmware/src/application/time_sync/time_sync_controller.cpp:20-124 | the runs follow the controller: each event of a run acts on it as the method does, and an identity taken by another module advances the generator they share |
| TimeSyncRuns.RoundsAreBounded | firmware/src/application/time_sync/time_sync_controller.cpp:41-124 | in every run, other modules taking identities from the same generator in between: never both in flight and retry pending, at most three requests a round, and at least 3000 ms of true time between a failure and the retry |
| TimeSyncRuns.QuietHour | firmware/src/application/time_sync/time_sync_controller.cpp:41-124 | after any success no time request is submitted for 3,600,000 ms of true time, through any disconnects, capability changes, late answers, hellos of the same computer and identities taken by other modules |
| TimeSyncRuns.AgeIsTrueTime | firmware/src/application/time_sync/time_sync_controller.cpp:32-39 | while updates are less than 2^32 ms apart the age equals the true time since the success, capped at an hour, at every update of every run, identities taken by other modules included, and the cap latches the need to sync |
| TimeSyncRuns.AgeUpdateExactIff | firmware/src/application/time_sync/time_sync_controller.cpp:32-39 | without that bound: one update is exact if and only if the gap is short or the wrapped gap still reaches the cap |
| TimeSyncRuns.SlotIsTheTask | firmware/src/application/time_sync/time_sync_controller.cpp:20-25 | one scheduler tick with arbitrary other callbacks runs the sync task exactly when the round starts here, and leaves its slot as here |
| TimeSyncLaws.EveryEventMeans | firmware/src/application/time_sync/time_sync_controller.cpp:20-124 | in every run, exactly when a request is submitted: on a hello that is the first, of another computer or brings the capability while a sync is due and nothing is under way; three seconds after a failed attempt that was not the third; every hour of the task; and what each answer, timeout and disconnect leaves |
| ExecId.ExecIdGenerator.Next | firmware/src/core/exec_id_generator.h:10-17 | the next count printed, or nothing once the counter is exhausted |
| ExecId.HexInjective | firmware/src/core/exec_id_generator.h:14 | fixed-width hexadecimal printing is injective |
| ExecId.HexReads | firmware/src/core/exec_id_generator.h:14 | and the digits spell the number |
| ExecId.PrintedInjective | firmware/src/core/exec_id_generator.h:10-17 | different counts print differently, so identities are never reused |
| Utf8.ValidText | firmware/src/application/wifi/wifi_config.cpp:11-33 | accepts a byte string exactly when it is within its limit and the UTF-8 encoding of scalars none of which is a C0, DEL or C1 control |
| Utf8.DecodeEncode | firmware/src/application/wifi/wifi_config.cpp:11-33 | decoding inverts the encoding of section 3 of RFC 3629 and refuses surrogates |
| Utf8.EncodeDecode | firmware/src/application/wifi/wifi_config.cpp:11-33 | whatever decodes is the encoding of what it decodes to, so overlong forms are refused |
| Utf8.TextIsDecodable | firmware/src/application/wifi/wifi_config.cpp:11-33 | being the encoding of control-free scalars is the same as decoding to such scalars |
| Utf8.ValidUtf8Name | firmware/src/core/message_codec.cpp:43-68 | accepts exactly decodable bytes without C0 or DEL controls that hold a character which is no space |
| Utf8.IsActionName | firmware/src/core/message_codec.cpp:69-71 | the same within 1 to 64 bytes |
| Utf8.NamesAgree | desktop/src/adv_helper/core/action_contract.py:19-29 | the firmware's rule on bytes takes a string's encoding as a name exactly when the desktop's rule on characters takes the string; both refuse a surrogate, which stands here as its three bytes |
| Utf8.EraseLast | firmware/src/application/settings/settings_page.cpp:14-20 | removes exactly the last code point of an encoded text |
| Utf8.EditKey | firmware/src/application/settings/settings_page.cpp:77-87 | no editing key leads out of acceptable text; printable ASCII is appended within the limit, backspace removes the last scalar, all other keys change nothing |
| Utf8.ErasedIsText | firmware/src/application/settings/settings_page.cpp:14-20 | accepted text stays accepted when its last scalar is erased |
| Utf8.TypedIsText | firmware/src/application/settings/settings_page.cpp:82-86 | and when a printable character is typed |
| ScanMerge.ScanResults.Merge | firmware/src/application/wifi/wifi_service.cpp:118-134 | every merge keeps the offline definition of the list over all results seen so far |
| ScanMerge.ScanResults.SortInPlace | firmware/src/application/wifi/wifi_service.cpp:132-133 | afterwards the kept prefix is in falling order of signal and holds the same entries as often as before; the rest of the array is as it was |
| ScanMerge.ScanResults.Clear | firmware/src/application/wifi/wifi_service.cpp:71 | forgets all results |
| ScanMerge.MergeKeepsTop | firmware/src/application/wifi/wifi_service.cpp:118-134 | one merge followed by any sort keeps the offline definition of the list: kept names valid, distinct, each with its maximum signal, min(32, distinct valid names) of them, sorted, every omitted name no stronger than the weakest kept, and truncation reported exactly for more than 32 distinct valid names, evicted ones that come back included |
| ScanMerge.ScanKeepsTop | firmware/src/application/wifi/wifi_service.cpp:118-134 | so for every sequence of scan results, whatever order each sort gives equal signals: the list is the offline top 32 of all of them |
| ScanMerge.TopIsUnique | firmware/src/application/wifi/wifi_service.cpp:118-134 | that definition determines the count, the truncation and the signals shown, however ties break |
| Wifi.CheckConfig | firmware/src/application/wifi/wifi_config.cpp:36-48 | the credential rules: text limits, an enterprise password, or 8 to 63 printable bytes, 64 hexadecimal digits or none |
| Wifi.CheckIp | firmware/src/application/wifi/wifi_service.cpp:15-29 | accepts exactly four dotted numbers of one to three digits up to 255, not all zero |
| Wifi.WifiService.Connect | firmware/src/application/wifi/wifi_service.cpp:41-48 | starts for a module only from readiness and with the file just loaded; every refusal names its reason and changes nothing |
| Wifi.WifiService.TestConfig | firmware/src/application/wifi/wifi_service.cpp:49-54 | starts a test only from readiness and for valid credentials |
| Wifi.WifiService.ScanNetworks | firmware/src/application/wifi/wifi_service.cpp:55-59 | starts a scan only from readiness, with an empty list |
| Wifi.WifiService.Start | firmware/src/application/wifi/wifi_service.cpp:60-80 | a fresh id, a fresh state and no retry budget left over; a start the adapter refuses fails and releases |
| Wifi.WifiService.Release | firmware/src/application/wifi/wifi_service.cpp:98-117 | all three cleanup steps are tried; off only if all succeed; the budget is three per request and never refilled |
| Wifi.WifiService.Status | firmware/src/application/wifi/wifi_service.cpp:81-84 | the state for the current id, nothing for a stale or zero one |
| Wifi.WifiService.IsConnected | firmware/src/application/wifi/wifi_service.cpp:85-89 | connected only while the adapter shows this very request connected with a usable address |
| Wifi.WifiService.Close | firmware/src/application/wifi/wifi_service.cpp:90-97 | a stale or zero id changes nothing and has no status; otherwise an undecided outcome becomes cancelled, release is tried, and the state after that is returned |
| Wifi.WifiService.Tick | firmware/src/application/wifi/wifi_service.cpp:135-182 | one poll of the phase machine: automatic release retries, scan completion and timeout, link changes and the connection timeout |
| WifiRuns.Ownership | firmware/src/application/wifi/wifi_service.cpp:31-117 | in every run over any adapter: a start is issued only from off, off means that scan, link and radio of the last request are all down, ids grow by one, stale ids change nothing, outcomes move only lawfully, and the retry flag is up exactly when release has failed with budget left |
| WifiRuns.OutcomeHistory | firmware/src/application/wifi/wifi_service.cpp:60-182 | while a request stays the latest its outcome goes from none to failed, timed out or cancelled, or to succeeded and then possibly disconnected |
| WifiRuns.IdsGrow | firmware/src/application/wifi/wifi_service.cpp:65 | request ids never decrease over any run |
| WifiRuns.ReleaseBudget | firmware/src/application/wifi/wifi_service.cpp:98-143 | in every run: at most three automatic retries per request, numbered, each at least 1000 ms of true time after the previous attempt ended, whatever manual closes and late ticks come between |
| WifiLaws.EveryEventMeans | firmware/src/application/wifi/wifi_service.cpp:60-182 | in every run over any adapter, each outcome has its cause: a link failure while connecting fails, 30 s time out, a lost connection disconnects, a scan succeeds with its count, fails on another negative number or times out after 15 s, a close cancels what is undecided; the cleanup calls are made exactly when a request is over, and do what they say |
| WifiLaws.ConnectionKept | firmware/src/application/wifi/wifi_service.cpp:160-171 | a module's request that is shown connected with a usable address keeps the connection, its credentials and the radio, without a cleanup call, for as long as it is; only a test is released |
| WifiLaws.AvailabilityMeans | firmware/src/application/wifi/wifi_service.cpp:31-36 | what a caller is told before anything is started, phase by phase |
| ActionContract.ValidatePage | desktop/src/adv_helper/core/action_contract.py:63-86 | accepts exactly pages whose window is the one offset and total call for and whose items are well-formed with distinct identities |
| ActionContract.CheckItem | desktop/src/adv_helper/core/action_contract.py:76-86 | one item: type, identity, name, keys, no private field, not seen before |
| ActionContract.CheckName | desktop/src/adv_helper/core/action_contract.py:19-29 | the name rule on code points |
| MessageCodec.DecodePage | firmware/src/core/message_codec.cpp:78-110 | the loop over the items fills in exactly the message of the decoding function, or nothing |
| MessageCodec.DecodeItem | firmware/src/core/message_codec.cpp:97-105 | one item decoded from UTF-8 bytes |
| MessageCodec.DecodeExecution | firmware/src/core/message_codec.cpp:118-149 | identity, reason and the proof fields of each type decoded, or nothing; `CodecAgreement.ExecutionContents` says what the fields are |
| CodecAgreement.RequestsAgree | firmware/src/core/message_codec.cpp:150-161 | for every payload object: the firmware takes an action request exactly when the desktop does |
| CodecAgreement.IdsAgree | firmware/src/core/message_codec.cpp:21-29 | action identities: the byte rule and the desktop's pattern accept the same strings |
| CodecAgreement.ItemsAgree | firmware/src/core/message_codec.cpp:97-105 | items: accepted by both or by neither, and decoded to the item's own bytes |
| CodecAgreement.CollectedAll | firmware/src/core/message_codec.cpp:97-108 | collecting succeeds exactly when every item decodes and no identity repeats, and keeps the order |
| CodecAgreement.PagesAgree | firmware/src/core/message_codec.cpp:78-110 | for every parsed record: the firmware decodes a page exactly when the desktop's validator accepts it |
| CodecAgreement.PageContents | firmware/src/core/message_codec.cpp:78-110 | and the message holds the record's window and its items in order |
| CodecAgreement.ExecutionsAgree | firmware/src/core/message_codec.cpp:118-149 | for every parsed record and known code: an execution result decodes exactly when the desktop's validator accepts it |
| CodecAgreement.ExecutionContents | firmware/src/core/message_codec.cpp:118-149 | a valid execution record decodes to its own type, identity and name bytes, exit status, the two steps and the reason, and leaves the rest of the message as it was; no record leaves all of it |
| CodecAgreement.ResultsAgreeExactly | firmware/src/core/message_codec.cpp:221-244 | whole results: the firmware accepts if and only if the desktop does, the message text is not empty and the code is one of the four it knows |
| CodecAgreement.EnvelopeStringsAgree | desktop/src/adv_helper/core/messages.py:142-147 | envelope strings: the firmware takes what the desktop takes, and besides exactly the blank ones and those over 128 characters |
| CodecAgreement.EmptyMessageDiffers | desktop/src/adv_helper/core/messages.py:87-91 | an empty message text is a result the desktop accepts and the firmware refuses |
| ActionsController.ActionsController.OnSessionReady | firmware/src/application/actions/actions_controller.cpp:7-16 | the same session changes nothing; any other drops everything and marks the offered directories not loaded |
| ActionsController.ActionsController.Enter | firmware/src/application/actions/actions_controller.cpp:20-23 | loads the first page of a directory not loaded yet |
| ActionsController.ActionsController.OnDisconnect | firmware/src/application/actions/actions_controller.cpp:24-31 | cancels what is queued and forgets the session, the pages and the slot |
| ActionsController.ActionsController.FailDirectory | firmware/src/application/actions/actions_controller.cpp:32-38 | cancels the request, keeps the old page and the target |
| ActionsController.ActionsController.RequestPage | firmware/src/application/actions/actions_controller.cpp:39-51 | remembers the target, then one request per type in flight or a failed directory |
| ActionsController.ActionsController.MoveSelection | firmware/src/application/actions/actions_controller.cpp:52-62 | moves within a page on display or requests the neighbouring page; nothing in any other state |
| ActionsController.ActionsController.Confirm | firmware/src/application/actions/actions_controller.cpp:63-70 | retries a failed page or executes the selected entry |
| ActionsController.ActionsController.ExecuteById | firmware/src/application/actions/actions_controller.cpp:74-83 | only an identity on the displayed page can be executed |
| ActionsController.ActionsController.ExecuteByKey | firmware/src/application/actions/actions_controller.cpp:84-89 | a letter in either case, without looking at the page |
| ActionsController.ActionsController.SubmitExecution | firmware/src/application/actions/actions_controller.cpp:90-107 | occupies the one slot, or reports why not, with a fresh identity |
| ActionsController.ActionsController.OnMessage | firmware/src/application/actions/actions_controller.cpp:120-164 | expires first, then correlates by identity; success needs the proof fields, an unproved OK is ignored |
| ActionsController.ActionsController.Tick | firmware/src/application/actions/actions_controller.cpp:165-180 | feedback 3 s, directories 15 s, execution 45 s |
| ExecutionRuns.SingleSlot | firmware/src/application/actions/actions_controller.cpp:24-180 | in every run, other modules taking identities from the same generator in between: the history alternates submissions with their ends, running holds exactly while one is open, identities strictly ascend, and each end has its cause: success exactly by a timely OK answer to that identity and kind that shows its type's proof, unconfirmed by the deadline, TIMEOUT or UNCONFIRMED, failure by any other answer, idle by a disconnect |
| ExecutionRuns.SlotHeldUntilEnd | firmware/src/application/actions/actions_controller.cpp:90-180 | an execution stays in the slot until an end with its evidence is recorded for it, whatever else the run does and whoever else takes identities |
| ExecutionRuns.EarlierResponseIgnored | firmware/src/application/actions/actions_controller.cpp:137 | a response to any other identity the shared generator can print, asked for by whichever module, leaves the execution as the clock alone would |
| ExecutionRuns.AscendingDistinct | firmware/src/core/exec_id_generator.h:10-17 | identities of all requests of a run are pairwise different |
| ExecutionLaws.AnswerDecides | firmware/src/application/actions/actions_controller.cpp:137-163 | in every run: a timely answer to the execution in the slot ends it exactly if what it names agrees with what was asked for and a success shows its proof, with the outcome its code and reason say, shown from then on; otherwise the slot is as it was |
| ExecutionLaws.ExpiryDecides | firmware/src/application/actions/actions_controller.cpp:173-180 | found late, the execution is over, unconfirmed, and its request taken back |
| ExecutionLaws.StatusRecorded | firmware/src/application/actions/actions_controller.cpp:144-163 | after anything but an attempt to run something the status shown is the outcome recorded |
| ExecutionLaws.PageAnswerDecides | firmware/src/application/actions/actions_controller.cpp:109-136 | a timely answer to a page request displays exactly the page asked for, with the total known so far and complete; anything else fails the request and keeps the old page |
| ExecutionLaws.PageDeadline | firmware/src/application/actions/actions_controller.cpp:170-172 | a page is waited for for fifteen seconds, then given up and its request taken back |
| ExecutionLaws.SessionBegins | firmware/src/application/actions/actions_controller.cpp:7-16 | the same session again changes nothing; any other takes back every request, ends what was running and starts with blank directories, not loaded where it offers them |
| ExecutionLaws.SessionLost | firmware/src/application/actions/actions_controller.cpp:24-31 | a lost connection leaves no session, no pages and a free slot, and takes back every request |
| Requests.ConfirmRunsSelected | firmware/src/application/actions/actions_controller.cpp:63-70 | in every run with honest pages: Enter on a displayed page runs exactly the entry the accepted keys lead to, under its identity and type, if anything can be sent; on a page that failed to load it runs nothing and asks for the page of the cursor again |
| Requests.KeySends | firmware/src/application/actions/actions_controller.cpp:84-89 | a letter in either case runs its lower-case key, whatever the pages show; any other character does nothing |
| Requests.ByIdSends | firmware/src/application/actions/actions_controller.cpp:74-83 | an entry on the displayed page is run under its own identity and type; nothing else can be |
| Requests.SubmitSends | firmware/src/application/actions/actions_controller.cpp:90-107 | an attempt is sent exactly if the slot is free or out of time, the session offers it, an identity is left and the queue takes it; one that cannot be sent shows a failure and uses up its identity |
| Requests.MoveAsks | firmware/src/application/actions/actions_controller.cpp:52-62 | in every run with honest pages: a cursor key on a displayed page asks for another page exactly when it takes the cursor off that page, and then for the page the cursor goes to |
| Requests.EnterAsks | firmware/src/application/actions/actions_controller.cpp:20-23 | in every run with honest pages: entering a directory not loaded yet asks for its first page, any other is entered as it is |
| ExecutionTime.TrueDeadlines | firmware/src/application/actions/actions_controller.cpp:165-180 | in true time, while periodic ticks are less than 2^32 - 45,000 ms apart: an answer ends an execution less than 45,000 ms after its submission, expiry never before that, and no tick leaves an older one in the slot, however often the clock wraps |
| ExecutionTime.OverdueIff | firmware/src/application/actions/actions_controller.cpp:173 | without that bound, for any wait: the check is never early, and is right if and only if the wait is short or still past the deadline once whole turns of the clock are taken off |
| DirectoryRuns.CursorFollowsKeys | firmware/src/application/actions/actions_controller.cpp:39-70 | in every run in which the pages answering requests since the last reset come from one list (earlier sessions and other computers may have listed anything), under refused, lost, late, malformed or repeated responses, timeouts and retries: the cursor is where the accepted cursor keys alone lead |
| DirectoryRuns.PagingIsInvisible | firmware/src/application/actions/actions_controller.cpp:108-136 | so the selected entry on display is entry number cursor of that whole list, also after a reconnect to another computer |
| DirectoryRuns.DownVisitsAll | firmware/src/application/actions/actions_controller.cpp:58-61 | down visits 0 to total-1 once each in order and stops |
| DirectoryRuns.UpReverses | firmware/src/application/actions/actions_controller.cpp:55-57 | up visits them in the opposite order and stops at 0 |
| DirectoryRuns.KeysUndo | firmware/src/application/actions/actions_controller.cpp:52-62 | each key undoes the other wherever it had an effect |
| DirectoryRuns.AnswerLands | firmware/src/application/actions/actions_controller.cpp:126-136 | in every run, the awaited page in time is displayed with the entry the accepted keys lead to |
| DirectoryRuns.DirectoriesApart | firmware/src/application/actions/actions_controller.cpp:39-51 | in every run the two directories wait for issued and different identities, whoever else takes some |
| ActionsModule.BuildItems | desktop/src/adv_helper/application/actions_module.py:26-37 | an action shows its key as effective exactly if no earlier action has it |
| ActionsModule.ShownKeyRuns | desktop/src/adv_helper/application/actions_module.py:76-77 | a shortcut runs exactly the action that shows the key |
| ActionsModule.CatalogListsAll | desktop/src/adv_helper/application/actions_module.py:28-37 | for every configuration the list of a type holds every enabled action of that type, once and in configuration order, with its key counting exactly if no earlier enabled action of any type has it |
| ActionsModule.ServedPageValid | desktop/src/adv_helper/application/actions_module.py:44-65 | for every validated configuration, type and offset in range the page served passes the wire validator |
| ActionsModule.ActionsModule.ListActions | desktop/src/adv_helper/application/actions_module.py:44-65 | a page, an error, or an exception of the encoder, exactly as the directory function says |
| ActionsModule.ActionsModule.Begin | desktop/src/adv_helper/application/actions_module.py:67-93 | up to the first await: malformed and unknown before busy, busy before unavailable, and the slot taken before any await |
| ActionsModule.BeginsExactly | desktop/src/adv_helper/application/actions_module.py:67-93 | for every configuration: an error if the request is malformed or names no enabled action, then busy, then the record of an unavailable type with no step taken; otherwise the first configured action it names has the runner |
| ActionsModule.OccupiedIsNamed | desktop/src/adv_helper/application/actions_module.py:74-93 | what occupies the runner is a configured available action: the one of that identity, or the one showing that key |
| ActionsModule.RefusalIsValid | desktop/src/adv_helper/application/actions_module.py:84-90 | a refusal that carries a record carries a valid one |
| ActionsModule.ActionsModule.Finish | desktop/src/adv_helper/application/actions_module.py:95-128 | after the run: the reported record if it validates and the unconfirmed one otherwise; valid either way, and the slot is free |
| ActionsModule.ActionsModule.Cancel | desktop/src/adv_helper/application/actions_module.py:127-128 | cancellation frees the slot |
| ActionsModule.ValidateExecution | desktop/src/adv_helper/core/action_contract.py:89-117 | the validator of execution results, decided |
| ExecutionService.ReportMeans | desktop/src/adv_helper/application/actions_module.py:95-112 | the record says of each step what the adapter said, and nothing that it did not |
| ExecutionService.ExecutionSettles | firmware/src/application/actions/actions_controller.cpp:137-163 | from the adapter to the display, in every run: the record sent for an action decodes, and in time ends the execution waiting for it, as succeeded exactly if the adapter confirmed every step, as failed exactly if it reported a failure, and as unconfirmed otherwise |
| DirectoryService.PageFits | desktop/src/adv_helper/core/messages.py:129-133 | a served page with any identity of up to 128 characters that UTF-8 can express is encoded within 4096 bytes; with a lone surrogate the encoder raises |
| DirectoryService.DirectoryAnswer | desktop/src/adv_helper/application/actions_module.py:44-65 | so the size branch is never taken: exactly which requests get the page, an error or an exception |
| DirectoryService.DirectoryServesAll | desktop/src/adv_helper/application/actions_module.py:44-65 | in terms of the configuration alone: a well-formed request gets the total number of enabled actions of its type and the next eight of them from its offset on, in configuration order |
| DirectoryService.PageReachesFirmware | firmware/src/core/jsonl_buffer.cpp:16-36 | the encoded page crosses the link as one line in any chunking |
| DirectoryService.ServedPageDecodes | firmware/src/core/message_codec.cpp:78-110 | and decodes to the firmware's own list at that offset, which the controller that asked for it accepts |
| DirectoryService.ServedPageLands | firmware/src/application/actions/actions_controller.cpp:108-136 | from a request in flight to the display, in every run: the page served for it, in time, decodes and shows the entry the accepted keys lead to |
| JsonText.EscapedCharacters | desktop/src/adv_helper/core/messages.py:130 | a character takes at most six bytes once escaped as section 7 of RFC 8259 requires |
| JsonText.UnescapeEscaped | desktop/src/adv_helper/core/messages.py:130 | an escaped string reads back as itself |
| Paste.Paste | desktop/src/adv_helper/os_adapters/paste_runner.py:75-128 | the keystroke is started only after a confirmed write with time left; each step is reported done, not done or unknown exactly as its program and whether it was started tell; each reason and the timeout have their cause; OK only if both are confirmed |
| Paste.ReportsAreTrue | desktop/src/adv_helper/os_adapters/paste_runner.py:75-128 | whatever the programs really did, a definite report is true, and nothing is pasted that was not written |
| Paste.PasteRecordValid | desktop/src/adv_helper/application/actions_module.py:101-112 | every paste result makes a record both ends accept |
| Paste.ScriptRecordValid | desktop/src/adv_helper/application/actions_module.py:96-99 | a script report is sent as it is if and only if success means exit status zero and the status fits 32 bits; otherwise the unconfirmed record replaces it |
| DesktopSession.ConnectionSession.Connect | desktop/src/adv_helper/core/session.py:9-11 | a connected session with nothing pending |
| DesktopSession.ConnectionSession.BeginRequest | desktop/src/adv_helper/core/session.py:13-17 | an identity is taken once, and only while connected |
| DesktopSession.ConnectionSession.CompleteRequest | desktop/src/adv_helper/core/session.py:19-23 | and released once |
| DesktopSession.ConnectionSession.Disconnect | desktop/src/adv_helper/core/session.py:25-28 | forgets everything pending |
| DesktopSession.Routed | desktop/src/adv_helper/core/router.py:24-35 | every routed response names its request, whatever the handler returned |
| DesktopSession.Concurrency | desktop/src/adv_helper/bootstrap.py:110-163 | in every interleaving of tasks at their awaits, cancellation, encoder and transport failures included: the busy flag is up exactly while one task runs or winds down the runner, one task holds the send lock, and the pending identities are those of the unfinished owners, all different |
| DesktopSession.NoDuplicateEntry | desktop/src/adv_helper/bootstrap.py:137-151 | a handler is entered only when every other task of that identity has sent its response or is over |
| DesktopSession.RunnerHeld | desktop/src/adv_helper/application/actions_module.py:92-128 | the runner stays occupied until its task resumes or has been wound down |
| DesktopSession.Contiguous | desktop/src/adv_helper/bootstrap.py:160-163 | no other task's bytes fall inside a response line |
| DesktopSession.OneWholeResponse | desktop/src/adv_helper/bootstrap.py:130-163 | a task over without cancellation or transport failure has put its whole line, byte for byte, on the wire, once and in one piece, exactly when its response encodes within 4096 bytes, and otherwise no byte at all; the response names its request |
| DesktopSession.AnsweredExactly | desktop/src/adv_helper/bootstrap.py:130-163 | for all handlers of the time and actions modules, all errors, and Codex reports that leave room: a request over without cancellation or transport failure is answered with its whole line if and only if neither of its identities holds a lone surrogate, and otherwise with nothing |
| DesktopSession.SurrogateUnanswered | desktop/src/adv_helper/core/messages.py:129-133 | a request whose execution identity is a lone surrogate, which the decoder accepts, is handled and never answered, uncancelled and on a working transport |
| ResponseLine.IdentitiesDecide | desktop/src/adv_helper/core/messages.py:129-133 | a response with room for its identities, and no lone surrogate outside them, is encoded if and only if they hold none |
| ResponseLine.RefusedBenign | desktop/src/adv_helper/core/messages.py:136-139 | the busy answer and the router's own errors, the one that quotes the unknown action included, always leave that room |
| ResponseLine.PageReplyBenign | desktop/src/adv_helper/application/actions_module.py:44-65 | and so does every page served; the size check made beforehand measures the very line that is sent |
| HandlerReplies.OfModuleBenign | desktop/src/adv_helper/application/time_module.py:25-34 | every time reply, every execution record that validates, every page served and every error leaves room for identities of 128 characters and holds no lone surrogate outside them |
| HandlerReplies.ExecutionReplyBenign | desktop/src/adv_helper/application/actions_module.py:95-126 | in particular every valid execution record under any of its fixed texts |
| DesktopSession.Progress | desktop/src/adv_helper/bootstrap.py:130-163 | a task that waits neither for its handler nor for its winding down is never stuck: some step of the loop is possible, if only the one in which the encoder raises and the task ends |
| SessionLaws.StartMeans | desktop/src/adv_helper/bootstrap.py:130-151 | in every interleaving: a request is refused as busy, without its handler, exactly if another of its identity is not over; otherwise its handler answers, goes on, or takes the runner if no other task has it |
| SessionLaws.RoutedMeans | desktop/src/adv_helper/core/router.py:24-35 | the handler's own response goes out if it names the request; everything else is the error that says what went wrong |
| SessionLaws.AcquireMeans | desktop/src/adv_helper/bootstrap.py:160-163 | with the lock free a response that encodes takes it, and one that does not ends its task and frees its identity |
| SessionLaws.CancelMeans | desktop/src/adv_helper/bootstrap.py:120-128 | cancelling ends a task at once and frees what it held, except a handler that winds down first and keeps its identity and the runner until then |
| ConfigStore.PlatformConfigFileStore.Read | firmware/src/platform/config_file_store.cpp:36-57 | the status of every fault, and the bytes only with OK |
| ConfigStore.PlatformConfigFileStore.Replace | firmware/src/platform/config_file_store.cpp:72-84 | temporary file, verification, rename, each with its faults |
| ConfigStore.ReplaceIsAtomic | firmware/src/platform/config_file_store.cpp:72-84 | the destination is the whole new bytes or as it was; every other file but the temporary is untouched |
| ConfigStore.ConfigService.Reload | firmware/src/application/settings/display_config.cpp:47-55 | a verified read replaces the snapshot, a failed one only the status |
| ConfigStore.ConfigService.Save | firmware/src/application/settings/display_config.cpp:56-74 | parse, read, write if different, reread, as the specification says |
| ConfigStore.SaveIsTransactional | firmware/src/application/settings/display_config.cpp:56-74 | OK means disk and snapshot both hold the requested value; any other status leaves the snapshot alone |
| ConfigStore.SaveKeepsFileWhole | firmware/src/application/wifi/wifi_config.cpp:93-111 | a save leaves the file as it was or with the whole encoding of the requested value |
| ConfigStore.RetryWritesNothing | firmware/src/application/wifi/wifi_config.cpp:99-107 | a save whose first read finds the value writes nothing, and succeeds exactly if the reread does |
| ConfigStore.UnconfirmedSaveRetries | firmware/src/application/wifi/wifi_config.cpp:104-107 | after a save that wrote but could not confirm, the same save writes nothing once the file can be read |
| ConfigStore.FileAlwaysWhole | firmware/src/platform/config_file_store.cpp:72-84 | over any run of saves, reloads, mounts and restarts with any faults the file holds exactly the last value stored, or what it held at first |
| ConfigLaws.FaultlessSave | firmware/src/application/settings/display_config.cpp:56-74 | a valid configuration saved without a fault is on disk and in the snapshot whatever the file was before, missing or bad included, and is written exactly if it was not there yet |
| ConfigLaws.RefusedSave | firmware/src/application/settings/display_config.cpp:56-65 | what does not parse changes nothing, and a first read that fails other than by a missing or bad file writes nothing and says why |
| ConfigLaws.FailedSave | firmware/src/application/settings/display_config.cpp:66-74 | a write that fails says why, and a reread that is not what was written says so |
| ConfigLaws.ReloadMeans | firmware/src/application/settings/display_config.cpp:47-55 | a reload takes over exactly what is on disk and tells whether it is new; a failed one keeps the snapshot and says why |
| ConfigCodecs.DisplayRoundTrip | firmware/src/application/settings/display_config.cpp:35-38 | every valid display configuration fits and reads back as itself |
| ConfigCodecs.LegacyDisplay | firmware/src/application/settings/display_config.cpp:23-28 | a brightness-only file means the ten-minute timeout |
| ConfigCodecs.DisplayExactly | firmware/src/application/settings/display_config.cpp:13-30 | exactly which objects are display configurations: a level of one to five, one of five timeouts or none given, and no other key |
| ConfigCodecs.WifiRoundTrip | firmware/src/application/wifi/wifi_config.cpp:49-75 | every valid Wi-Fi configuration, quotes, backslashes and non-ASCII text included, fits in 512 bytes and reads back as itself |
| ConfigCodecs.WifiExactly | firmware/src/application/wifi/wifi_config.cpp:49-68 | exactly which objects are Wi-Fi configurations: the three texts, acceptable together, and no other key |
| ConfigCodecs.BothFilesAlwaysWhole | firmware/src/application/wifi/wifi_config.cpp:77-111 | however saves and reloads of the display and the Wi-Fi service are interleaved on one file system, with mounts, restarts and any faults, each file holds exactly the last value stored in it, or what it held at first |
| FlatJson.ObjectBack | firmware/src/application/wifi/wifi_config.cpp:69-75 | every printed one-level object reads back field by field |

## Left out

- BleTransport: the counters of dropped messages and the connection-changed flag, which only feed the diagnostics page.
- Framing.DesktopJsonlBuffer.Feed: reads the clock twice; the two readings are its parameters.
- TimeSync: sees only its own scheduler slot; `TimeSyncRuns.SlotIsTheTask` ties that slot to the scheduler.
- TimeSyncRuns.QuietHour: is about hellos of the same computer; another computer's hello rightly starts a round.
- WifiRuns.ReleaseBudget: supposes that the loop does not tick with a time before the last release attempt finished, since the loop reads the clock anew after calls that take time (firmware/src/main.cpp).
- ExecutionRuns.SingleSlot: compares deadlines as the code does, by 32-bit differences; `ExecutionTime.TrueDeadlines` says when these are true times, and supposes for it that the loop ticks at least once in every 2^32 - 45,000 ms.
- ActionsController: message texts and error strings; feedback is only shown or not.
- DirectoryRuns.CursorFollowsKeys: supposes that, from one reset to the next, a successful response to a request in flight carries the page it names of one list; `DirectoryService.ServedPageDecodes` proves that of the desktop. A list edited while it is being paged is out.
- Parsing JSON text: messages start as parsed records. In the statements about both ends a lone surrogate stands as its three-byte form; what the firmware's JSON library makes of an escaped one is not part of this model, so for parsed messages they are about strings without one. `FlatJson` reads one-level objects of strings and unsigned numbers, with escapes of four digits only below 80 hexadecimal.
- ActionsModule: reads of script content and parameters, diagnostics, and the texts of replies other than a page's, of which only the length is used.
- DesktopSession: the hello, which is sent under the same lock before the first request is read.
- DesktopSession.AnsweredExactly: supposes of a usage report of Codex that it leaves room for the identities and holds no lone surrogate; its names come from another program, and the code bounds neither their length nor their characters. Of all other replies this is proved (`HandlerReplies`).
- DesktopSession: a second cancellation of the session while its tasks are being gathered, which skips the disconnect.
- DesktopSession.Progress: says that a step is possible, not that the event loop is fair.
- Paste: the process runner's own cleanup of child processes; its results and the awaits' ends are parameters.
- ConfigCodecs.BothFilesAlwaysWhole: the three other configuration services of the same pattern (input, power, Codex) and the mutual exclusion of their calls, which all run on the loop task.
- ConfigStore: a silent corruption that shows only after the verifying read, and directories other than the parent of the file.
- The hello, time and Codex usage messages of the codec, whose fields are checked one by one.
- Navigation, input routing, rendering, battery, screen and CPU power, and the Codex client: short state machines or I/O.
- Loss of notifications on the radio, and clock gaps of more than one turn between two readings where nothing is said about them.
