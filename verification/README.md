# Verified model of the FHSS/OTA radio firmware

This project models the four stateful cores of the radio firmware in Dafny and proves what they are
for: over-the-air updates that never boot a wrong image, a receive clock that keeps tracking a
drifting transmitter, a receive state machine whose parts stay in agreement, and hopping and audio
framing that lose nothing.

Every component appears twice. A value-level specification gives one step as a function, and the
safety theorems quantify over all inputs and all runs of those steps. Beside it stands the code in
its own form, a class with the source's fields or a method over an array, each method proved to take
exactly that step.

| component | specification and theorems | object |
|---|---|---|
| OTA reassembly, session, two-party protocol | `OtaModel`, `OtaSafety`, `OtaOutcomes`, `SelectiveRepeat` | `OtaBatchCache`, `OtaWriter`, `OtaClient` |
| clock tracking | `PhaseCorrection`, `SlotScheduler`, `SyncTracker`, `ClockModel`, `Tracking` | `SlotScheduler`, `SyncTracker`, `SyncController` |
| RX service | `RxModel`, `RxSafety`, `RxEvents`, `RxExample` | `RxService` |
| hopping, audio packets, aggregator | `Xorshift`, `HopSequence`, `AudioPacket`, `FrameAggregator` | `HopSequence`, `AudioPacket`, `FrameAggregator` |

The radio, the clock, the flash, the digest, the seed derivation and the queues are parameters: a
step takes what they answer, and every theorem holds for all answers.

## What the code does not do

Some properties one would expect are false of the code. Each is stated with its exact condition.

- **Stranded receiver** (`fhss_service.c:840-848`). When the scheduler cannot place the next switch, the
  receive loop leaves TRACKING without touching the tracker, which stays LOCKED. From then on valid
  SYNCs no longer produce an acquisition: the service moves between SEARCHING and SYNCHRONIZING and
  reports neither acquisition nor loss, until the peer ends the session or the tracker has counted
  loss_count misses in a row. `RxSafety.StrandedAtHead` says exactly
  when it starts, `StrandedForever` that it lasts, `WaysOut` what ends it, `EarlySyncStrands` how a
  valid SYNC brings it about, and `RxExample.StrandingIsReachable` gives a run from start-up.
- **Stalled aggregator** (`fhss_audio_adapter.c:619-634`). If sending the second buffered frame fails, the
  buffer stays full and no later frame of the talkspurt is accepted or sent. Two accepted frames
  (up to 64 bytes each) can exceed the 51 payload bytes of a packet, and such a pair is never sent.
  See `FrameAggregator.SubmitStalls`, `StallLastsTheTalkspurt`, `FlushAfterStall`.
- **"No audio" is ambiguous** (`fhss_audio_adapter.c:439-441`). END announces 0xFFFF after every
  multiple of 65536 packets, not only after none. See `FrameAggregator.FinalSequenceMeaning`.
- **A repeated START with another digest** is acknowledged and ignored (`ota_consumer.c:176-266`). See
  `OtaSafety.StartAckMeaning`.
- **An abort ends the selective-repeat guarantee** (`ota_client.c:381-420`). A late copy of the START
  reopens the session at chunk 0. Device and gateway stay in agreement exactly when nothing had been
  acknowledged before (`SelectiveRepeat.AbortKeepsAgreement`); in a later batch the transfer is
  refused altogether (`AbortDesynchronizes`).
- **The two miss counters differ** (`fhss_service.c:577`). An accepted SYNC outside the window clears the
  service's counter and advances the tracker's, so `RxSafety.EveryRunIsConsistent` has `<=`. Nothing
  else sets them apart (`RxSafety.CountersPart`), and this does happen
  (`RxExample.CountersPartReachably`).

The OTA client's documentation says that a receive timeout aborts the session
(`ota_client/README.md:242-251`). The code only sends NACKs and leaves the session open
(`OtaSafety.TimeoutNacksAreExact`); the model follows the code.

## Model

| member | source | states |
|---|---|---|
| `SelectiveRepeat.AckedIsHeld` | fhss-ota-radio/components/ota_client/README.md:208-213 | Over every run of a gateway that advances only when its whole batch is acknowledged, on a channel that loses, repeats and reorders DATA, ACKs and START: every chunk ever acknowledged is in flash or in the batch, the device's batch is the gateway's or exactly the next one, and flash is the matching prefix of the image, all of it once the gateway is through |
| `SelectiveRepeat.NoSpuriousNack` | fhss-ota-radio/components/ota_client/source/ota_consumer.c:399-501 | In every reachable state any copy of any chunk the gateway sent is acknowledged; only a failing flash or digest prevents it, and that ends the session |
| `SelectiveRepeat.EndSelectsTheImage` | fhss-ota-radio/components/ota_client/source/ota_consumer.c:503-583 | Once the gateway is through, END always leaves RECEIVING, and on a working platform it is acknowledged with exactly the image selected for boot if and only if the image has the digest of START |
| `SelectiveRepeat.CanAlwaysFinish` | fhss-ota-radio/components/ota_client/README.md:208-213 | From every state the invariant allows, a continuation of sends, deliveries and ACKs finishes the transfer: no run gets stuck |
| `SelectiveRepeat.DeliveryIsAcked` | fhss-ota-radio/components/ota_client/source/ota_client.c:162-231 | A delivered chunk is acknowledged exactly when the session survives, the device then has it and everything it had, and it never runs ahead of the gateway's batch |
| `SelectiveRepeat.AdvanceMeansCommitted` | fhss-ota-radio/components/ota_client/README.md:208-213 | When the gateway's batch is fully acknowledged the device has already committed it |
| `SelectiveRepeat.NextAgrees` | fhss-ota-radio/components/ota_client/README.md:208-213 | The two-party invariant is kept by every single action |
| `SelectiveRepeat.RunAgrees` | fhss-ota-radio/components/ota_client/README.md:208-213 | The two-party invariant is kept by every run |
| `SelectiveRepeat.AbortKeepsAgreement` | fhss-ota-radio/components/ota_client/source/ota_client.c:381-420 | Where the guarantee ends: an abort followed by a copy of the same START leaves device and gateway in agreement if and only if no DATA had been acknowledged; otherwise every acknowledged chunk is lost |
| `SelectiveRepeat.AbortDesynchronizes` | fhss-ota-radio/components/ota_client/source/ota_client.c:381-420 | ... and once the gateway is in a later batch every chunk it sends draws INVALID_SEQUENCE from the reopened session |
| `OtaSafety.Reassembly` | fhss-ota-radio/components/ota_client/source/ota_client.c:142-289 | After any run of START, DATA, END, timeouts and aborts with DATA in any order, repeated or lost: flash is the in-order concatenation of the first accepted payloads of chunks 0 .. expected-1, the batch holds exactly the other accepted ones, and received, written size and flash length agree |
| `OtaSafety.BootSafety` | fhss-ota-radio/components/ota_client/source/ota_client.c:291-361 | In every run over any number of sessions a boot image is selected exactly in READY_TO_REBOOT, has the announced length, is the concatenation of the accepted chunks, and has the digest of the START that opened the session |
| `OtaSafety.HonestSender` | fhss-ota-radio/components/ota_client/source/ota_client.c:142-316 | If every accepted payload was a true slice of an image, flash is always a prefix of it and the selected boot image is the image |
| `OtaSafety.ReadyIsFinal` | fhss-ota-radio/components/ota_client/source/ota_consumer.c:503-583 | READY_TO_REBOOT has no exit: no event changes anything any more, so no write follows the selection; an END is acknowledged only there |
| `OtaSafety.StartAckMeaning` | fhss-ota-radio/components/ota_client/source/ota_consumer.c:176-266 | An acknowledged START has its session open; the digest in force is the packet's exactly when the packet opened the session or repeats it |
| `OtaSafety.DataPacketOutcome` | fhss-ota-radio/components/ota_client/source/ota_consumer.c:399-501 | The complete outcome of one DATA packet: what is not fresh changes nothing (not even the timeout clock) and is acknowledged iff well formed and already held; what is fresh is stored or, completing the batch, appended to flash in order; the session invariant is kept |
| `OtaSafety.StaleData` | fhss-ota-radio/components/ota_client/source/ota_consumer.c:399-501 | A DATA packet that is not fresh leaves the client untouched and is acknowledged iff it is well formed and already held |
| `OtaSafety.FreshData` | fhss-ota-radio/components/ota_client/source/ota_client.c:211-289 | A fresh DATA packet passes every check and reaches the store, and the commit if it leaves no gap |
| `OtaSafety.CommitRefines` | fhss-ota-radio/components/ota_client/source/ota_client.c:234-288 | Committing a complete batch never meets a size error: one contiguous write appends exactly the joined chunks, or flash or digest fails and the session fails with it |
| `OtaSafety.BatchLength` | fhss-ota-radio/components/ota_client/source/ota_client.c:234-277 | The bytes of a complete batch move received_bytes to min(48 * next chunk, image size) |
| `OtaSafety.FinishSound` | fhss-ota-radio/components/ota_client/source/ota_client.c:291-361 | END succeeds iff the session, size, count, completeness, digest and platform conditions all hold, and only success reaches READY_TO_REBOOT |
| `OtaSafety.ReactSound` | fhss-ota-radio/components/ota_client/source/ota_client.c:68-420 | The session invariant is kept by every packet, timeout and abort |
| `OtaSafety.RunFaithful` | fhss-ota-radio/components/ota_client/source/ota_client.c:68-420 | Invariant and faithfulness to the first accepted payloads hold along every run |
| `OtaSafety.RunAnnounced` | fhss-ota-radio/components/ota_client/source/ota_client.c:68-130 | Along every run an open or finished session carries what its opening START announced |
| `OtaSafety.FirstAcceptedIsFirst` | fhss-ota-radio/components/ota_client/source/ota_consumer.c:399-501 | The reference log-to-map function picks, for each chunk, the payload acknowledged first |
| `OtaSafety.ProgressLaws` | fhss-ota-radio/components/ota_client/source/ota_client.c:234-277 | Progress never falls and is 100 exactly when every chunk is committed |
| `OtaSafety.TimeoutNacksAreExact` | fhss-ota-radio/components/ota_client/source/ota_consumer.c:650-691 | A firing timeout NACKs, ascending and once each, exactly the chunks of the batch the device lacks, and changes only the timeout clock |
| `OtaSafety.TimeoutNacksAreUseful` | fhss-ota-radio/components/ota_client/source/ota_consumer.c:650-691 | The right chunk for each of those NACKs is acknowledged and leaves exactly one chunk fewer to come; repeats of held chunks change nothing |
| `OtaSafety.MissingFromIsExact` | fhss-ota-radio/components/ota_client/source/ota_batch_cache.c:72-82 | The list of missing chunks is ascending and has exactly the wanted chunks not stored |
| `OtaOutcomes.TimeoutFiresExactly` | fhss-ota-radio/components/ota_client/source/ota_consumer.c:650-691 | In every run an empty queue draws NACKs exactly when a chunk is missing and at least the timeout has passed (on the wrapping tick counter) since the opening START, the last fresh DATA packet or the last timeout that fired |
| `OtaOutcomes.EventKeepsTime` | fhss-ota-radio/components/ota_client/source/ota_client.c:209 | The timeout clock is set by exactly those three events |
| `OtaOutcomes.StartOutcome` | fhss-ota-radio/components/ota_client/source/ota_consumer.c:176-266 | START, in full: ignored if for another device; acknowledged without a change if it repeats the open session's; otherwise it opens an empty session timed from now iff the device is in OTA mode and idle, sizes agree and the platform takes it; a platform that does not fails the session; everything else changes nothing |
| `OtaOutcomes.DataAnswers` | fhss-ota-radio/components/ota_client/source/ota_consumer.c:399-501 | The answer to every DATA packet and the exact causes of sequence and size errors |
| `OtaOutcomes.EndOutcome` | fhss-ota-radio/components/ota_client/source/ota_consumer.c:503-583 | END, in full: one that fits decides the session for good, selecting the image iff digest and platform agree; one that does not fit, an early one in particular, leaves the session as it was |
| `OtaOutcomes.AbortOutcome` | fhss-ota-radio/components/ota_client/source/ota_client.c:381-420 | An abort takes a receiving or failed session back to idle so that the next acceptable START opens again, and does nothing elsewhere |
| `OtaBatchCache.BatchCache.Prepare` | fhss-ota-radio/components/ota_client/source/ota_batch_cache.c:12-33 | The cache becomes the empty batch of min(5, remaining) chunks at the given base |
| `OtaBatchCache.BatchCache.StoreChunk` | fhss-ota-radio/components/ota_client/source/ota_batch_cache.c:35-70 | Bitmask, lengths and flat buffer change exactly as the map from chunk numbers to payloads does, with each refusal in source order; a duplicate keeps the first payload |
| `OtaBatchCache.BatchCache.MissingMask` | fhss-ota-radio/components/ota_client/source/ota_batch_cache.c:72-82 | Bit i is set iff chunk base+i is wanted and not stored; zero iff nothing is missing |
| `OtaBatchCache.BatchCache.IsComplete` | fhss-ota-radio/components/ota_client/source/ota_batch_cache.c:84-88 | True iff the batch is not empty and every wanted chunk is stored |
| `OtaBatchCache.BatchCache.Commit` | fhss-ota-radio/components/ota_client/source/ota_batch_cache.c:90-130 | A complete batch of full chunks is written by one contiguous write equal to the in-order concatenation; otherwise nothing is written and the error says why |
| `OtaBatchCache.BatchCache.BatchBytes` | fhss-ota-radio/components/ota_client/source/ota_batch_cache.c:104-122 | The length check accepts exactly the batches whose chunks are all full but the image's last, and then the buffer prefix equals their concatenation |
| `OtaBatchCache.MaskMissing` | fhss-ota-radio/components/ota_client/source/ota_batch_cache.c:5-10 | The mask arithmetic computes set difference on bit positions |
| `OtaBatchCache.BitSet` | fhss-ota-radio/components/ota_client/source/ota_batch_cache.c:56-67 | Setting a bit changes membership of that position only |
| `OtaWriter.FlashWriter.Open` | fhss-ota-radio/components/ota_client/source/ota_writer.c:5-49 | Refusals in order, and on success an empty, hashing, active session |
| `OtaWriter.FlashWriter.WriteBytes` | fhss-ota-radio/components/ota_client/source/ota_writer.c:51-89 | Never exceeds the image size; a failing digest leaves bytes in flash that are not counted |
| `OtaWriter.FlashWriter.Close` | fhss-ota-radio/components/ota_client/source/ota_writer.c:91-150 | Selects the boot partition only after size, end and digest gates |
| `OtaWriter.FlashWriter.Drop` | fhss-ota-radio/components/ota_client/source/ota_writer.c:152-180 | An active session is closed and its counters cleared whatever the platform answers |
| `OtaClient.OtaDevice.Start` | fhss-ota-radio/components/ota_client/source/ota_client.c:68-130 | Start of a session over the real cache and writer objects takes the specified step |
| `OtaClient.OtaDevice.Chunk` | fhss-ota-radio/components/ota_client/source/ota_client.c:142-232 | write_chunk takes the specified step, with 32-bit counters that cannot wrap |
| `OtaClient.OtaDevice.Take` | fhss-ota-radio/components/ota_client/source/ota_client.c:182-232 | Storing one chunk of the current batch takes the specified step |
| `OtaClient.OtaDevice.CommitNow` | fhss-ota-radio/components/ota_client/source/ota_client.c:234-288 | Commit, abort on failure and counters take the specified step |
| `OtaClient.OtaDevice.CommitIfComplete` | fhss-ota-radio/components/ota_client/source/ota_client.c:234-288 | A batch is committed exactly when it has no gap |
| `OtaClient.OtaDevice.Finish` | fhss-ota-radio/components/ota_client/source/ota_client.c:291-361 | finish_session takes the specified step |
| `OtaClient.OtaDevice.Abort` | fhss-ota-radio/components/ota_client/source/ota_client.c:363-420 | abort returns to the initial session and keeps the invariant |
| `OtaClient.OtaDevice.ResetSession` | fhss-ota-radio/components/ota_client/source/ota_client.c:363-379 | Everything but the partition contents and the boot selection returns to the initial state |
| `OtaClient.OtaDevice.OnStart` | fhss-ota-radio/components/ota_client/source/ota_consumer.c:176-266 | The handler keeps the session invariant, takes the specified step and sends the specified response |
| `OtaClient.OtaDevice.OnData` | fhss-ota-radio/components/ota_client/source/ota_consumer.c:399-501 | The handler keeps the session invariant, takes the specified step and sends the specified response |
| `OtaClient.OtaDevice.OnEnd` | fhss-ota-radio/components/ota_client/source/ota_consumer.c:503-583 | The handler keeps the session invariant, takes the specified step and sends the specified response |
| `OtaClient.OtaDevice.OnQueueEmpty` | fhss-ota-radio/components/ota_client/source/ota_consumer.c:650-691 | The timeout keeps the session invariant and sends the specified NACKs |
| `OtaClient.OtaDevice.SendMissing` | fhss-ota-radio/components/ota_client/source/ota_consumer.c:677-689 | The loop over the bitmask sends exactly the NACKs of the chunks missing from the map, in order |
| `PhaseCorrection.CorrectionLaws` | fhss-ota-radio/components/fhss_core/fhss_sync_controller.c:5-47 | For every accepted gain and every int64 error: odd, zero exactly on the deadband, otherwise at least 1, at most the cap and at most the error beyond the deadband, with the error's sign |
| `PhaseCorrection.CorrectionOrder` | fhss-ota-radio/components/fhss_core/fhss_sync_controller.c:10-47 | Monotone and 1-Lipschitz over all int64 errors, so the residual keeps the order of two observations |
| `PhaseCorrection.SlowGain` | fhss-ota-radio/components/fhss_core/fhss_sync_controller.c:27-41 | Up to the fast threshold the correction is the number of whole slow divisors in the error beyond the deadband, at least 1 and at most the cap |
| `PhaseCorrection.FastGain` | fhss-ota-radio/components/fhss_core/fhss_sync_controller.c:27-41 | Beyond the threshold it is the slow divisors below it plus the whole fast divisors above it, at least 1 and at most the cap |
| `PhaseCorrection.SlowGainGrows` | fhss-ota-radio/components/fhss_core/fhss_sync_controller.c:27-41 | The correction is 1 below two slow divisors, and each further slow divisor of error adds exactly 1 up to the cap |
| `PhaseCorrection.FastGainGrows` | fhss-ota-radio/components/fhss_core/fhss_sync_controller.c:27-41 | Beyond the threshold each fast divisor of error adds exactly 1 up to the cap |
| `PhaseCorrection.Settles` | fhss-ota-radio/components/fhss_core/fhss_sync_controller.c:10-47 | With a fixed transmitter the error lands exactly on the deadband edge within \|e\|-deadband SYNCs, not before the cap allows, never overshoots or changes sign, and then stays |
| `PhaseCorrection.ResidualBound` | fhss-ota-radio/components/fhss_core/fhss_sync_controller.c:10-47 | Correcting an error within m leaves at most m - correction(m) |
| `PhaseCorrection.DriftWithinBudget` | fhss-ota-radio/components/fhss_core/fhss_sync_controller.c:10-47 | A per-SYNC drift within correction(m) never pushes the error beyond m |
| `PhaseCorrection.DriftBudgetIsExact` | fhss-ota-radio/components/fhss_core/fhss_sync_controller.c:10-47 | ... and correction(m) is the largest such budget: survival of every drift sequence from every error within m holds iff the budget is at most correction(m) |
| `PhaseCorrection.Magnitude` | fhss-ota-radio/components/fhss_core/fhss_sync_controller.c:5-8 | The magnitude computed without negating INT64_MIN is the absolute value, for every int64 |
| `PhaseCorrection.AudioLinkGain` | fhss-ota-radio/components/fhss_audio_adapter/fhss_audio_adapter.c:541-547 | Corrections under the configured gain of the audio link, on both sides of the threshold and at the cap |
| `SlotScheduler.SlotStartIsPhase` | fhss-ota-radio/components/fhss_core/fhss_slot_scheduler.c:111-137 | Slot starts lie on one line fixed by the lattice phase; a start exists exactly for synchronized lattices, slots from the reference on and representable times |
| `SlotScheduler.SlotAtInvertsSlotStart` | fhss-ota-radio/components/fhss_core/fhss_slot_scheduler.c:82-137 | get_slot(t) is k iff start(k) <= t < start(k) + duration |
| `SlotScheduler.NextSwitchIsAhead` | fhss-ota-radio/components/fhss_core/fhss_slot_scheduler.c:139-175 | The next switch names the slot after the current one and lies strictly after the current slot's start, exactly one guard before the next |
| `SlotScheduler.NextSwitchExists` | fhss-ota-radio/components/fhss_core/fhss_slot_scheduler.c:139-175 | The query succeeds iff the lattice is synchronized, the reference has passed, and some slot start still ahead is representable |
| `SlotScheduler.RebaseShifts` | fhss-ota-radio/components/fhss_core/fhss_slot_scheduler.c:47-65 | set_reference(s, start(s) + c) moves the phase and every representable slot start by exactly c |
| `SlotScheduler.Scheduler.Init` | fhss-ota-radio/components/fhss_core/fhss_slot_scheduler.c:23-45 | Accepts exactly a nonzero slot with a smaller guard; a refused configuration changes nothing |
| `SlotScheduler.Scheduler.SetReferenceTo` | fhss-ota-radio/components/fhss_core/fhss_slot_scheduler.c:47-65 | Takes the specified step on the fields, nothing on refusal |
| `SlotScheduler.Scheduler.Clear` | fhss-ota-radio/components/fhss_core/fhss_slot_scheduler.c:67-80 | Takes the specified step on the fields, nothing on refusal |
| `ClockModel.ProcessRxIsTransactional` | fhss-ota-radio/components/fhss_core/fhss_sync_controller.c:90-189 | process_rx succeeds iff the packet is genuine, arrives no earlier than the offset and has a slot the lattice can place; otherwise it changes nothing: the failures after the tracker has moved cannot occur |
| `ClockModel.RecoverRxIsTransactional` | fhss-ota-radio/components/fhss_core/fhss_sync_controller.c:220-265 | recover_rx is all or nothing too; a recovery sample is its own timing reference and leaves the accumulated correction alone |
| `ClockModel.RecoverySampleAligns` | fhss-ota-radio/components/fhss_core/fhss_sync_controller.c:220-265 | A recovery sample puts the lattice exactly on the sender's phase, whatever it was before |
| `ClockModel.ExpectedTimeFits` | fhss-ota-radio/components/fhss_core/fhss_sync_controller.c:118-140 | Expected instant and timing error, which the source forms without a guard, fit int64 for every slot number when a slot lasts at most 2^30 us and the reference is at most 2^61 us |
| `ClockModel.CorrectionStaysInRange` | fhss-ota-radio/components/fhss_core/fhss_sync_controller.c:161-185 | The corrected slot start lies in 0 .. INT64_MAX |
| `ClockModel.AcceptedSyncMovesPhase` | fhss-ota-radio/components/fhss_core/fhss_sync_controller.c:118-185 | The timing error is the difference of transmitter and receiver phase; an in-window SYNC moves phase and accumulated correction by exactly correction(error), any other moves neither; the tracker counts a valid or a miss accordingly |
| `ClockModel.FirstSyncAnchors` | fhss-ota-radio/components/fhss_core/fhss_sync_controller.c:142-159 | The first SYNC, in whatever slot, takes reference and phase to the sender, leaves the accumulated correction and counts one valid input |
| `ClockModel.NextSyncFollowsFirst` | fhss-ota-radio/components/fhss_core/fhss_sync_controller.c:118-185 | A later SYNC is accepted with a timing error of exactly the sender's phase change since the first, 0 for a sender that keeps its phase |
| `ClockModel.ConfigurationGoverns` | fhss-ota-radio/components/fhss_core/fhss_sync_controller.c:49-88 | From initialization on, the second SYNC's error is elapsed time less elapsed configured slots, judged by the configured margins and corrected by the configured gain |
| `ClockModel.EarlySyncPutsReferenceAhead` | fhss-ota-radio/components/fhss_core/fhss_sync_controller.c:161-185 | A SYNC early by more than the deadband leaves the reference at least the deadband after its own observed slot start |
| `ClockModel.ChannelAgreement` | fhss-ota-radio/components/fhss_core/fhss_core.c:138-158 | With one channel list and any two seeds, a SYNC is accepted iff generations match and both tables give the slot one channel, and then that channel is reported |
| `ClockModel.RendezvousPassesUnderAnySeeds` | fhss-ota-radio/components/fhss_service/fhss_service.c:268-302 | Slots divisible by the channel count pass the hop check under every pair of seeds, before and after either side rebuilt its table |
| `ClockModel.RepeatedSeedIsInvisible` | fhss-ota-radio/components/fhss_service/fhss_service.c:1140-1169 | Skipping the rebuild for a repeated public seed leaves the table that rebuilding every time would leave, over every sequence of announcements |
| `ClockModel.RekeyStaysReady` | fhss-ota-radio/components/fhss_service/fhss_service.c:1154-1163 | Rebuilding, or failing to, leaves a usable core |
| `ClockModel.InitControllerIsReady` | fhss-ota-radio/components/fhss_core/fhss_sync_controller.c:49-88 | Initialization succeeds exactly on valid configurations and establishes the invariant |
| `Tracking.BoundedDriftIsTrackedForever` | fhss-ota-radio/components/fhss_core/fhss_sync_controller.c:118-185 | For m within both margins: if the error starts within m and the transmitter's phase moves by at most correction(m) between heard SYNCs, with fewer than loss_count silent slots in a row and any foreign or broken packets and recovery samples in between, every later genuine SYNC has an error within m, is INSIDE and never a miss, and lock is kept |
| `Tracking.SteadyAirIsTracked` | fhss-ota-radio/components/fhss_core/fhss_sync_controller.c:118-185 | The induction behind it, over the controller itself |
| `Tracking.PhaseIsAccountedFor` | fhss-ota-radio/components/fhss_core/fhss_sync_controller.c:161-185 | Over any events that keep synchronization, the change of lattice phase equals the change of the accumulated correction plus the jumps of the recovery samples |
| `SyncTracker.LockedExactlyByTrace` | fhss-ota-radio/components/fhss_core/fhss_sync_state.c:37-83 | After any inputs the tracker is LOCKED iff some run of acquire_count valids has no later run of loss_count misses |
| `SyncTracker.EventsAlternate` | fhss-ota-radio/components/fhss_core/fhss_sync_state.c:37-83 | Events alternate ACQUIRED, LOST starting with ACQUIRED; LOCKED iff their number is odd |
| `SyncTracker.CountersCount` | fhss-ota-radio/components/fhss_core/fhss_sync_state.c:37-83 | The counters are the lengths of the current runs and stay below their limits |
| `SyncTracker.SyncStateTracker.Init` | fhss-ota-radio/components/fhss_core/fhss_sync_state.c:16-35 | Accepts exactly nonzero counts and starts fresh |
| `SyncTracker.SyncStateTracker.HandleValid` | fhss-ota-radio/components/fhss_core/fhss_sync_state.c:37-59 | The in-place update takes the specified step; the counter cannot wrap |
| `SyncTracker.SyncStateTracker.HandleMiss` | fhss-ota-radio/components/fhss_core/fhss_sync_state.c:61-83 | The in-place update takes the specified step; the counter cannot wrap |
| `SyncController.FhssCore.Init` | fhss-ota-radio/components/fhss_core/fhss_core.c:28-91 | Builds hop table and tracker aside and assigns only on success |
| `SyncController.FhssCore.HandleRx` | fhss-ota-radio/components/fhss_core/fhss_core.c:93-258 | Validation, timing verdict, tracker update and channel lookup take the specified step |
| `SyncController.FhssCore.HandleSilence` | fhss-ota-radio/components/fhss_core/fhss_core.c:262-316 | A timeout is one tracker miss |
| `SyncController.FhssCore.ApplySeed` | fhss-ota-radio/components/fhss_service/fhss_service.c:1140-1169 | Rebuilds the table from a derived seed, or keeps it when the list is refused |
| `SyncController.FhssSyncController.Init` | fhss-ota-radio/components/fhss_core/fhss_sync_controller.c:49-88 | Refusals in order leave the controller untouched; success installs the specified state |
| `SyncController.FhssSyncController.HandleRx` | fhss-ota-radio/components/fhss_core/fhss_sync_controller.c:90-189 | The in-place update, with every guard of the source, takes the specified step |
| `SyncController.FhssSyncController.HandleRecovery` | fhss-ota-radio/components/fhss_core/fhss_sync_controller.c:220-265 | The in-place update takes the specified step |
| `SyncController.FhssSyncController.HandleSilence` | fhss-ota-radio/components/fhss_core/fhss_sync_controller.c:191-218 | A lost lock clears the reference, anything else keeps it |
| `RxSafety.EveryRunIsConsistent` | fhss-ota-radio/components/fhss_service/fhss_service.c:789-897 | From start-up over any inputs: TRACKING and RECOVERY are locked and synchronized with service misses <= tracker misses < loss_count, on their own side of the recovery threshold; SYNCHRONIZING is synchronized, SEARCHING is not; every reported loss has an acquisition of its own |
| `RxSafety.StepConsistent` | fhss-ota-radio/components/fhss_service/fhss_service.c:789-897 | The invariant behind it is kept by every step of the loop |
| `RxSafety.HandleSyncConsistent` | fhss-ota-radio/components/fhss_service/fhss_service.c:572-610 | ... by an accepted SYNC, in window or not |
| `RxSafety.HandleMissConsistent` | fhss-ota-radio/components/fhss_service/fhss_service.c:612-657 | ... by a missed slot |
| `RxSafety.SessionEndConsistent` | fhss-ota-radio/components/fhss_service/fhss_service.c:696-717 | ... by a session end, which leaves a searching, unlocked service |
| `RxSafety.LossSchedule` | fhss-ota-radio/components/fhss_service/fhss_service.c:612-673 | From clean TRACKING, over any run in which no SYNC is accepted and no session ends: k missed slots (silent, corrupt, or a refused SYNC), interleaved with payloads, drained packets, radio errors and refused channels, give TRACKING below the recovery threshold and RECOVERY from it on, with reference kept and nothing but errors reported, for k < loss_count |
| `RxSafety.LossAtLimit` | fhss-ota-radio/components/fhss_service/fhss_service.c:629-637 | ... and missed slot number loss_count reports exactly one SYNC_LOST, drops lock and reference and returns to SEARCHING |
| `RxSafety.QuietStep` | fhss-ota-radio/components/fhss_service/fhss_service.c:719-897 | The effect of one such step, for every count of misses |
| `RxSafety.MissCounts` | fhss-ota-radio/components/fhss_service/fhss_service.c:612-657 | A miss moves both counters by one, and the miss that reaches loss_count is the loss |
| `RxSafety.CountersPart` | fhss-ota-radio/components/fhss_service/fhss_service.c:577-578 | Equal service and tracker miss counters of a service that stays in TRACKING or RECOVERY stay equal if and only if the step does not accept a SYNC outside the window |
| `RxExample.CountersPartReachably` | fhss-ota-radio/components/fhss_service/fhss_service.c:577-578 | A concrete run from start-up that ends in TRACKING with the counters apart |
| `RxSafety.StrandedAtHead` | fhss-ota-radio/components/fhss_service/fhss_service.c:837-848 | A service becomes stranded (searching or synchronizing with a locked tracker) exactly at the loop head of TRACKING or RECOVERY when the scheduler cannot place the next switch |
| `RxSafety.StrandedForever` | fhss-ota-radio/components/fhss_service/fhss_service.c:572-610 | A stranded receiver with one miss to spare never tracks again and reports neither acquisition nor loss, whatever in-window SYNCs, silence, corrupt frames, payloads and radio errors follow |
| `RxSafety.WaysOut` | fhss-ota-radio/components/fhss_service/fhss_service.c:572-717 | The only exits are the tracker giving up, which is reported as a loss, and a peer's session end |
| `RxSafety.EarlySyncStrands` | fhss-ota-radio/components/fhss_service/fhss_service.c:837-848 | A valid SYNC early by more than the deadband puts the reference into the future; a loop head before that instant strands the service |
| `RxSafety.ScheduledSync` | fhss-ota-radio/components/fhss_service/fhss_service.c:867-878 | An in-window SYNC in the scheduled reception of a tracking service moves only the controller |
| `RxEvents.AnnouncementRetunes` | fhss-ota-radio/components/fhss_service/fhss_service.c:478-497 | Outside SEARCHING a seed announcement replaces the hop table by the one its seed gives for the configured channels, and moves nothing else |
| `RxEvents.AnnouncedSenderIsHeard` | fhss-ota-radio/components/fhss_service/fhss_service.c:1140-1169 | Over every run from start-up: after the announcement every SYNC of a sender hopping by that seed passes the receiver's checks in every slot |
| `RxEvents.SearchingIgnoresPayloads` | fhss-ota-radio/components/fhss_service/fhss_service.c:482-497 | In SEARCHING neither a seed nor a session end in a payload has any effect |
| `RxEvents.RunKeepsConfiguration` | fhss-ota-radio/components/fhss_service/fhss_service.c:46-92 | Over every run channels, generation, margins, counts, slots, offset and gain stay the configured ones |
| `RxEvents.SessionEndRestarts` | fhss-ota-radio/components/fhss_service/fhss_service.c:696-717 | A session end heard outside SEARCHING takes the service back to its start-up state, hop table included, without a miss or a loss report |
| `RxEvents.LoopOrder` | fhss-ota-radio/components/fhss_service/fhss_service.c:719-897 | When the loop goes from its head to draining, to the scheduled reception and back |
| `RxEvents.AcquisitionSchedule` | fhss-ota-radio/components/fhss_service/fhss_service.c:572-610 | n in-window SYNCs, interleaved with refused SYNCs, payloads and errors, leave the service collecting, SYNCHRONIZING from the first on, as long as n < acquire_count |
| `RxEvents.AcquiredAtLimit` | fhss-ota-radio/components/fhss_service/fhss_service.c:590-600 | ... and SYNC number acquire_count makes it TRACK with exactly one ACQUIRED report |
| `RxEvents.AcquisitionFails` | fhss-ota-radio/components/fhss_service/fhss_service.c:638-673 | While SYNCHRONIZING a slot without a SYNC drops reference and count without a report; a refused SYNC in its place changes nothing |
| `RxExample.FirstSyncTracks` | fhss-ota-radio/components/fhss_service/fhss_service.c:809-834 | A searching service whose first in-window SYNC completes the acquisition tracks at once |
| `RxExample.StrandingIsReachable` | fhss-ota-radio/components/fhss_service/fhss_service.c:837-848 | A concrete run from start-up that strands the receiver, on a clock that never goes back and with every scheduled packet stamped no earlier than the switch the loop waits for |
| `RxService.FhssRxService.Boot` | fhss-ota-radio/components/fhss_service/fhss_service.c:913-985 | Accepts exactly the valid configurations and then starts as specified |
| `RxService.LinkFsm.Handle` | fhss-ota-radio/components/fhss_service/fhss_fsm.c:13-76 | The in-place switch is the transition relation; a refused event changes nothing |
| `RxService.FhssRxService.Receive` | fhss-ota-radio/components/fhss_service/fhss_service.c:445-543 | One reception takes the specified step: controller chosen by state, payload callbacks outside SEARCHING only |
| `RxService.FhssRxService.OnSync` | fhss-ota-radio/components/fhss_service/fhss_service.c:572-610 | The handler takes the specified step |
| `RxService.FhssRxService.OnMiss` | fhss-ota-radio/components/fhss_service/fhss_service.c:612-657 | The handler takes the specified step |
| `RxService.FhssRxService.OnInvalidSync` | fhss-ota-radio/components/fhss_service/fhss_service.c:659-673 | The handler takes the specified step |
| `RxService.FhssRxService.OnSessionEnd` | fhss-ota-radio/components/fhss_service/fhss_service.c:696-717 | The handler takes the specified step |
| `RxService.FhssRxService.DrainSlot` | fhss-ota-radio/components/fhss_service/fhss_service.c:719-787 | One turn of the drain loop takes the specified step |
| `RxService.FhssRxService.Advance` | fhss-ota-radio/components/fhss_service/fhss_service.c:789-897 | One step of the receive loop takes the specified step and keeps the invariant |
| `Xorshift.OnlyZeroLeadsToZero` | fhss-ota-radio/components/fhss_core/fhss_hop_sequence.c:6-17 | No nonzero state is mapped to zero |
| `Xorshift.StateNeverZero` | fhss-ota-radio/components/fhss_core/fhss_hop_sequence.c:6-17 | From every seed, zero included, no generator state is ever zero |
| `Xorshift.NextIsLinear` | fhss-ota-radio/components/fhss_core/fhss_hop_sequence.c:6-17 | One generator step is linear over exclusive or |
| `Xorshift.NextIsInjective` | fhss-ota-radio/components/fhss_core/fhss_hop_sequence.c:6-17 | No two states share a successor |
| `Xorshift.SingleBitStates0` | fhss-ota-radio/components/fhss_core/fhss_hop_sequence.c:6-17 | The step's values on the single-bit states 0 to 7, which with the next three rows and linearity fix it on all states |
| `Xorshift.SingleBitStates8` | fhss-ota-radio/components/fhss_core/fhss_hop_sequence.c:6-17 | ... 8 to 15 |
| `Xorshift.SingleBitStates16` | fhss-ota-radio/components/fhss_core/fhss_hop_sequence.c:6-17 | ... 16 to 23 |
| `Xorshift.SingleBitStates24` | fhss-ota-radio/components/fhss_core/fhss_hop_sequence.c:6-17 | ... 24 to 31 |
| `Xorshift.SeedsStayApart` | fhss-ota-radio/components/fhss_core/fhss_hop_sequence.c:67 | A nonzero seed is its own initial state, and two seeds share a state at any time iff they are equal or are 0 and the default |
| `HopSequence.HopTableIsPinnedPermutation` | fhss-ota-radio/components/fhss_core/fhss_hop_sequence.c:30-79 | For every channel count up to 256 and every seed the table is a permutation with entry 0 in place |
| `HopSequence.ShuffleKeepsPermutation` | fhss-ota-radio/components/fhss_core/fhss_hop_sequence.c:65-75 | Every remaining part of the shuffle keeps a permutation and its first entry |
| `HopSequence.ShuffleUsesItsDraws` | fhss-ota-radio/components/fhss_core/fhss_hop_sequence.c:65-75 | The shuffle depends on the generator only through its sequence of selections |
| `HopSequence.DrawsAreRecoverable` | fhss-ota-radio/components/fhss_core/fhss_hop_sequence.c:65-75 | Different selection sequences give different orders |
| `HopSequence.EveryOrderIsDrawn` | fhss-ota-radio/components/fhss_core/fhss_hop_sequence.c:65-75 | Every order that keeps the first entry is produced by some selection sequence, so order and selections correspond one to one |
| `HopSequence.DrawIsGeneratorState` | fhss-ota-radio/components/fhss_core/fhss_hop_sequence.c:67-75 | Selection k of the table for n channels is 1 plus generator state k+1 of the seed modulo n-1-k |
| `HopSequence.TablesEqualIffDrawsEqual` | fhss-ota-radio/components/fhss_core/fhss_hop_sequence.c:65-75 | Two seeds give one table iff they give the same selections |
| `HopSequence.SeedsMatter` | fhss-ota-radio/components/fhss_core/fhss_hop_sequence.c:65-75 | For every channel count from 3 up two seeds give different tables |
| `HopSequence.FourChannels` | fhss-ota-radio/components/fhss_core/fhss_hop_sequence.c:65-75 | A table worked out by hand |
| `HopSequence.CycleRevealsTable` | fhss-ota-radio/components/fhss_core/fhss_hop_sequence.c:102-136 | Hopping follows the table: equal channels over one cycle mean equal tables |
| `HopSequence.CycleVisitsEachChannelOnce` | fhss-ota-radio/components/fhss_core/fhss_hop_sequence.c:102-136 | In any N consecutive slots without counter wrap no channel repeats, exactly the listed channels occur, and the rendezvous channel sits exactly on the multiples of N |
| `HopSequence.ShuffleInPlace` | fhss-ota-radio/components/fhss_core/fhss_hop_sequence.c:65-75 | The in-place loop over the array computes the specified shuffle and leaves the rest alone |
| `HopSequence.FillIdentity` | fhss-ota-radio/components/fhss_core/fhss_hop_sequence.c:53-63 | Accepts exactly duplicate-free lists without the reserved channel and fills the identity |
| `HopSequence.FhssHopSequence.Initialize` | fhss-ota-radio/components/fhss_core/fhss_hop_sequence.c:30-79 | Installs list and table, or refuses and changes nothing |
| `AudioPacket.AudioRoundTrip` | fhss-ota-radio/components/fhss_audio_packet/fhss_audio_packet.c:22-133 | Unpacking a packed audio packet gives back sequence, flags and frames; never more than 60 bytes |
| `AudioPacket.AudioCanonical` | fhss-ota-radio/components/fhss_audio_packet/fhss_audio_packet.c:77-133 | Packing what was unpacked gives back the accepted bytes |
| `AudioPacket.PackableExactly` | fhss-ota-radio/components/fhss_audio_packet/fhss_audio_packet.c:22-75 | A radio-sized buffer makes the packer refuse exactly what the format cannot carry |
| `AudioPacket.EndRoundTrip` | fhss-ota-radio/components/fhss_audio_packet/fhss_audio_packet.c:135-188 | Unpacking a packed END gives back session and final sequence |
| `AudioPacket.EndCanonical` | fhss-ota-radio/components/fhss_audio_packet/fhss_audio_packet.c:165-188 | Packing an unpacked END gives back the accepted bytes |
| `AudioPacket.SeedRoundTrip` | fhss-ota-radio/components/fhss_audio_packet/fhss_audio_packet.c:190-243 | Unpacking a packed seed announcement gives back session and seed |
| `AudioPacket.SeedCanonical` | fhss-ota-radio/components/fhss_audio_packet/fhss_audio_packet.c:220-243 | Packing an unpacked seed announcement gives back the accepted bytes |
| `AudioPacket.Layouts` | fhss-ota-radio/components/fhss_audio_packet/fhss_audio_packet.c:22-243 | Where the three formats put their fields, numbers little-endian |
| `AudioPacket.FormatsAreDisjoint` | fhss-ota-radio/components/fhss_audio_packet/fhss_audio_packet.c:77-243 | No byte string is accepted by two of the three parsers |
| `AudioPacket.PackAudio` | fhss-ota-radio/components/fhss_audio_packet/fhss_audio_packet.c:22-75 | The packer with its running offset writes exactly the encoding, only on success and only that far |
| `AudioPacket.UnpackAudio` | fhss-ota-radio/components/fhss_audio_packet/fhss_audio_packet.c:77-133 | The parser with its running offset is the specified decoder |
| `FrameAggregator.FramesAreConserved` | fhss-ota-radio/components/fhss_audio_adapter/fhss_audio_adapter.c:359-402 | Over every run of sessions and frames with packing and queueing failing at will: the frames unpacked from the queue followed by the buffered ones are exactly those stored since begin_tx, and packets are numbered 0, 1, 2, ... mod 2^16 |
| `FrameAggregator.DoConserves` | fhss-ota-radio/components/fhss_audio_adapter/fhss_audio_adapter.c:581-663 | The conservation invariant is kept by each operation |
| `FrameAggregator.FinalSequenceMeaning` | fhss-ota-radio/components/fhss_audio_adapter/fhss_audio_adapter.c:435-462 | END announces the last packet's number, and "no audio" exactly when the number of packets is a multiple of 65536 |
| `FrameAggregator.TalkspurtIsDelivered` | fhss-ota-radio/components/fhss_audio_adapter/fhss_audio_adapter.c:581-663 | With room in the queue a receiver of what is queued between session start and end unpacks exactly the frames submitted, in order |
| `FrameAggregator.BeginOutcome` | fhss-ota-radio/components/fhss_audio_adapter/fhss_audio_adapter.c:581-617 | A session start opens an empty active session under the next nonzero number and queues announcements that decode to it and the seed |
| `FrameAggregator.EndOutcome` | fhss-ota-radio/components/fhss_audio_adapter/fhss_audio_adapter.c:636-663 | A session end flushes what fits when there is room, leaving the buffer empty, and its END copies decode to the session and the last packet's number |
| `FrameAggregator.SubmitRefuses` | fhss-ota-radio/components/fhss_audio_adapter/fhss_audio_adapter.c:619-634 | Exactly which frames leave the transmitter as it was |
| `FrameAggregator.SubmitStalls` | fhss-ota-radio/components/fhss_audio_adapter/fhss_audio_adapter.c:619-634 | A frame stalls the aggregator exactly when it fills the buffer and the queue has no room or the pair exceeds 51 bytes |
| `FrameAggregator.StallLastsTheTalkspurt` | fhss-ota-radio/components/fhss_audio_adapter/fhss_audio_adapter.c:619-634 | A stalled aggregator refuses every later frame of the talkspurt without another attempt to send |
| `FrameAggregator.FlushAfterStall` | fhss-ota-radio/components/fhss_audio_adapter/fhss_audio_adapter.c:636-646 | The flush at the end gets the pair out iff it fits and the queue has room |
| `FrameAggregator.AudioAggregator.Flush` | fhss-ota-radio/components/fhss_audio_adapter/fhss_audio_adapter.c:359-402 | Pack and send take the specified step |
| `FrameAggregator.AudioAggregator.SubmitFrame` | fhss-ota-radio/components/fhss_audio_adapter/fhss_audio_adapter.c:619-634 | Storing in the byte slots and flushing take the specified step |
| `FrameAggregator.AudioAggregator.BeginSession` | fhss-ota-radio/components/fhss_audio_adapter/fhss_audio_adapter.c:581-617 | A new session empties the buffer, restarts the numbering and announces its seed |
| `FrameAggregator.AudioAggregator.EndSession` | fhss-ota-radio/components/fhss_audio_adapter/fhss_audio_adapter.c:636-663 | Flush and END copies take the specified step |

## Left out

- NULL pointers and buffer lengths of the C interfaces: operations take values.
- SYNC and OTA wire formats and their CRC (`ota_protocol.h` is not part of this model): packets arrive decoded, an undecodable SYNC as `None`. The NACKs for undecodable OTA packets are left out with them.
- SHA-256 and the HMAC seed derivation: `digest` and `derive` are arbitrary functions.
- FreeRTOS tasks, mutexes, delays and races between tasks: each component is one sequential stepper. Writes of the transmit path from inside the receive loop (`send_one_queued_data`) do not touch the modelled state.
- CC1101, SPI, GPIO, I2S, Speex, display and inputs: a reception is an arbitrary result with an arbitrary timestamp.
- The channel a recovery probe listens on: only the probe counter and the success of channel selection are modelled, since the reception that follows is arbitrary anyway.
- The transmit task, pause, stop and role switches of the service, its start-up checks of the radio, dwell and receive timeouts, and the fault-injection delay that is compiled out by default.
- The product FSM (`main/fsm.c`), the configuration store, and the DISCOVER, FHSS_CONFIG and FHSS_ACTIVATE packets.
- Diagnostics, logging and event callbacks, except the service's ACQUIRED, LOST and ERROR reports; OTA progress is modelled as a value.
- Slot numbers beyond 2^32 - 1: the code defines no policy; the laws speak of representable slots.
- The accumulated phase correction is an unbounded integer in the model; the source adds int64 values without a guard.
- SyncController.FhssCore.HandleRx: the expected instant and the timing error are mathematical integers, because the source forms them without a guard and int64 overflow has no defined result; `ClockModel.ExpectedTimeFits` gives the range in which it cannot occur.
- Writer flash contents after a failed `esp_ota_write` are taken as unchanged: the session is closed and such a partition is never selected.
- Erasing: an opened session starts with an empty abstract flash.
- TX queue depth and draining: each send carries the environment's verdict, and `queued` is the record of what was accepted since begin_tx.
- Tracking.BoundedDriftIsTrackedForever: genuine SYNCs of a tracking receiver arrive in slot order and at times the int64 clock can represent; at the service level a refused packet in the scheduled reception also counts as a miss, which is `RxSafety`'s subject.
- SelectiveRepeat.CanAlwaysFinish: possibility, not liveness under a fairness assumption on the channel.
