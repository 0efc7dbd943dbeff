/** Value-level specification of fhss_core and fhss_sync_controller: what one received SYNC
    buffer, one recovery sample and one timeout do to the tracker and the slot lattice. */
module ClockModel {
  import opened CTypes
  import opened PhaseCorrection
  import opened SlotScheduler
  import opened SyncTracker
  import opened HopSequence

  /** A decoded SYNC packet; the byte layout belongs to the shared protocol. */
  datatype SyncPacket = SyncPacket(generation: uint32, sequence: uint16, hopIndex: uint8, slot: uint32)

  // ---------------------------------------------------------------- core

  datatype Core = Core(hop: Hop, tracker: Tracker, window: Window, generation: uint32, initialized: bool)
  {
    predicate Ready() {
      initialized && hop.Ready() && tracker.Ready()
    }
  }

  datatype CoreStatus = CoreNotInitialized | CorePacketError | CoreHopError

  datatype RxResult = RxResult(
    packet: SyncPacket,
    timing: Evaluation,
    event: SyncEvent,
    locked: bool,
    hopIndex: uint8,
    channel: uint8)

  datatype CoreStep = CoreStep(core: Core, outcome: Result<RxResult, CoreStatus>)

  /** `buffer` is None when the SYNC decoder rejects the received bytes. */
  function CoreProcessRx(c: Core, buffer: Option<SyncPacket>, expected: int, actual: int): CoreStep
    requires c.initialized ==> c.Ready()
  {
    if !c.initialized then CoreStep(c, Err(CoreNotInitialized))
    else if buffer.None? || buffer.value.generation != c.generation then CoreStep(c, Err(CorePacketError))
    else
      var packet := buffer.value;
      var index := IndexAt(c.hop, packet.slot);
      if index.Err? then CoreStep(c, Err(CoreHopError))
      else if packet.hopIndex != index.value then CoreStep(c, Err(CorePacketError))
      else
        var timing := Evaluate(c.window, expected, actual);
        var tracked := OnInput(c.tracker, timing.placement == Inside);
        var c' := c.(tracker := tracked.tracker);
        var channel := ChannelAt(c.hop, packet.slot);
        if channel.Err? then CoreStep(c', Err(CoreHopError))
        else
          CoreStep(c', Ok(RxResult(packet, timing, tracked.event, tracked.tracker.locked, index.value, channel.value)))
  }

  // ---------------------------------------------------------------- controller

  datatype Controller = Controller(
    core: Core,
    lattice: Lattice,
    syncOffset: uint32,
    gain: Gain,
    lastCorrection: int,
    accumulated: int,
    initialized: bool)
  {
    predicate Ready() {
      initialized && core.Ready() && lattice.Ready() && gain.Valid()
    }

    predicate WellFormed() {
      initialized ==> Ready()
    }
  }

  datatype ControllerConfig = ControllerConfig(
    channels: seq<uint8>,
    hopSeed: bv32,
    generation: uint32,
    reservedChannel: uint8,
    window: Window,
    sync: TrackerConfig,
    slots: SlotConfig,
    syncOffset: uint32,
    gain: Gain)
  {
    predicate Valid() {
      gain.Valid() && Acceptable(channels, Some(reservedChannel)) && sync.Valid() && slots.Valid()
    }
  }

  datatype ControllerStatus = InvalidArgument | ControllerNotInitialized | PacketError | CoreError | SchedulerError

  function InitController(config: ControllerConfig): Result<Controller, ControllerStatus> {
    if !config.gain.Valid() then Err(InvalidArgument)
    else if !Acceptable(config.channels, Some(config.reservedChannel)) || !config.sync.Valid() then Err(CoreError)
    else if !config.slots.Valid() then Err(SchedulerError)
    else
      var hop := InitHop(config.channels, config.hopSeed, Some(config.reservedChannel)).value;
      Ok(Controller(
        Core(hop, Fresh(config.sync), config.window, config.generation, true),
        Lattice(config.slots, 0, 0, true, false),
        config.syncOffset, config.gain, 0, 0, true))
  }

  datatype RxStep = RxStep(controller: Controller, outcome: Result<RxResult, ControllerStatus>)

  /** Every branch in source order, including those that later turn out unreachable; a failing
      branch carries whatever the source had already written. */
  function ProcessRx(c: Controller, buffer: Option<SyncPacket>, rx: int64): RxStep
    requires c.WellFormed()
  {
    if rx < 0 then RxStep(c, Err(InvalidArgument))
    else if !c.initialized then RxStep(c, Err(ControllerNotInitialized))
    else if buffer.None? then RxStep(c, Err(PacketError))
    else if rx < c.syncOffset then RxStep(c, Err(InvalidArgument))
    else
      var slot := buffer.value.slot;
      var start := SlotStart(c.lattice, slot);
      if c.lattice.synchronized && start.Err? then RxStep(c, Err(SchedulerError))
      else
        SlotStartIsPhase(c.lattice, slot);
        var expected := if c.lattice.synchronized then start.value + c.syncOffset else rx;
        var step := CoreProcessRx(c.core, buffer, expected, rx);
        var c' := c.(core := step.core);
        if step.outcome.Err? then RxStep(c', Err(CoreError))
        else if !c.lattice.synchronized then
          Anchor(c', slot, rx - c.syncOffset, step.outcome.value)
        else if step.outcome.value.timing.placement == Inside then
          Nudge(c', slot, start.value, step.outcome.value)
        else RxStep(c', Ok(step.outcome.value))
  }

  /** Re-anchor the lattice at an observed slot start. */
  function Anchor(c: Controller, slot: uint32, observed: int64, result: RxResult): RxStep {
    var set' := SetReference(c.lattice, slot, observed);
    if set'.Err? then RxStep(c, Err(SchedulerError))
    else
      RxStep(c.(lattice := set'.value,
                lastCorrection := result.timing.error,
                accumulated := c.accumulated + result.timing.error), Ok(result))
  }

  /** Move the reference by the phase correction of an in-window observation. */
  function Nudge(c: Controller, slot: uint32, start: int64, result: RxResult): RxStep
    requires c.gain.Valid() && INT64_MIN <= result.timing.error <= INT64_MAX
  {
    var correction := Correction(c.gain, result.timing.error);
    var moved := start + correction;
    if correction == 0 then
      RxStep(c.(lastCorrection := 0), Ok(result))
    else if moved > INT64_MAX || moved < INT64_MIN then RxStep(c, Err(SchedulerError))
    else
      var set' := SetReference(c.lattice, slot, moved);
      if set'.Err? then RxStep(c, Err(SchedulerError))
      else
        RxStep(c.(lattice := set'.value,
                  lastCorrection := correction,
                  accumulated := c.accumulated + correction), Ok(result))
  }

  /** A bounded-recovery sample: validated like a SYNC, but taken as its own timing reference. */
  function RecoverRx(c: Controller, buffer: Option<SyncPacket>, rx: int64): RxStep
    requires c.WellFormed()
  {
    if rx < c.syncOffset then RxStep(c, Err(InvalidArgument))
    else if !c.initialized then RxStep(c, Err(ControllerNotInitialized))
    else
      var step := CoreProcessRx(c.core, buffer, rx, rx);
      var c' := c.(core := step.core);
      if step.outcome.Err? then RxStep(c', Err(CoreError))
      else Anchor(c', step.outcome.value.packet.slot, rx - c.syncOffset, step.outcome.value)
  }

  datatype TimeoutStep = TimeoutStep(controller: Controller, outcome: Result<SyncEvent, ControllerStatus>)

  function HandleTimeout(c: Controller): TimeoutStep
    requires c.WellFormed()
  {
    if !c.initialized then TimeoutStep(c, Err(ControllerNotInitialized))
    else
      var missed := OnMiss(c.core.tracker);
      var c' := c.(core := c.core.(tracker := missed.tracker));
      if missed.event != Lost then TimeoutStep(c', Ok(missed.event))
      else
        var cleared := ClearReference(c'.lattice);
        if cleared.Err? then TimeoutStep(c', Err(SchedulerError))
        else TimeoutStep(c'.(lattice := cleared.value), Ok(Lost))
  }

  // ---------------------------------------------------------------- initialization

  lemma InitControllerIsReady(config: ControllerConfig)
    ensures InitController(config).Ok? <==> config.Valid()
    ensures config.Valid() ==> InitController(config).value.Ready()
  {
    if config.Valid() {
      InitHopIsReady(config.channels, config.hopSeed, Some(config.reservedChannel));
    }
  }

  // ---------------------------------------------------------------- transactional updates

  /** What the core checks of a decoded packet before it touches the tracker. */
  predicate Genuine(c: Core, buffer: Option<SyncPacket>)
    requires c.Ready()
  {
    && buffer.Some?
    && buffer.value.generation == c.generation
    && IndexAt(c.hop, buffer.value.slot) == Ok(buffer.value.hopIndex)
  }

  /** Observed minus expected arrival time of a packet the lattice can place. */
  function TimingError(c: Controller, slot: uint32, rx: int64): int
    requires c.Ready() && SlotStart(c.lattice, slot).Ok?
  {
    rx - (SlotStart(c.lattice, slot).value + c.syncOffset)
  }

  /** An update either happens completely or not at all, and it happens exactly for genuine
      packets that arrive no earlier than the offset and whose slot the lattice can place. In
      particular the failures the source checks for after the tracker has moved (reference
      rejected, correction overflow) cannot occur. */
  lemma ProcessRxIsTransactional(c: Controller, buffer: Option<SyncPacket>, rx: int64)
    requires c.Ready()
    ensures var step := ProcessRx(c, buffer, rx);
            && step.controller.Ready()
            && (step.outcome.Err? ==> step.controller == c)
            && (step.outcome.Ok? <==>
                 && rx >= c.syncOffset
                 && Genuine(c.core, buffer)
                 && (c.lattice.synchronized ==> SlotStart(c.lattice, buffer.value.slot).Ok?))
  {
    if rx >= c.syncOffset && Genuine(c.core, buffer) {
      var slot := buffer.value.slot;
      if c.lattice.synchronized && SlotStart(c.lattice, slot).Ok? {
        CorrectionStaysInRange(c, slot, rx);
      }
    }
  }

  /** A recovery sample puts the lattice exactly on the sender's phase and counts as a valid input,
      whatever the lattice was before. */
  lemma RecoverySampleAligns(c: Controller, buffer: Option<SyncPacket>, rx: int64)
    requires c.Ready() && RecoverRx(c, buffer, rx).outcome.Ok?
    ensures var c' := RecoverRx(c, buffer, rx).controller;
            && c'.lattice.Phase() == SenderPhase(c, buffer.value.slot, rx)
            && c'.lattice.synchronized && c'.lattice.referenceSlot == buffer.value.slot
            && c'.lattice.config == c.lattice.config && c'.gain == c.gain && c'.syncOffset == c.syncOffset
            && c'.core == c.core.(tracker := OnValid(c.core.tracker).tracker)
  {}

  lemma RecoverRxIsTransactional(c: Controller, buffer: Option<SyncPacket>, rx: int64)
    requires c.Ready()
    ensures var step := RecoverRx(c, buffer, rx);
            && step.controller.Ready()
            && (step.outcome.Err? ==> step.controller == c)
            && (step.outcome.Ok? <==> rx >= c.syncOffset && Genuine(c.core, buffer))
            && (step.outcome.Ok? ==>
                 && step.outcome.value.timing == Evaluation(0, Inside)
                 && step.controller.lattice.synchronized
                 && step.controller.accumulated == c.accumulated)
  {}

  /** The corrected slot start lies between the expected and the observed one, so it stays a
      non-negative int64. */
  lemma CorrectionStaysInRange(c: Controller, slot: uint32, rx: int64)
    requires c.Ready() && c.syncOffset <= rx && SlotStart(c.lattice, slot).Ok?
    ensures var e := TimingError(c, slot, rx);
            && INT64_MIN <= e <= INT64_MAX
            && 0 <= SlotStart(c.lattice, slot).value + Correction(c.gain, e) <= INT64_MAX
  {
    SlotStartIsPhase(c.lattice, slot);
    CorrectionLaws(c.gain, TimingError(c, slot, rx));
  }

  /** The two values the source forms without an overflow guard, the expected instant and the timing
      error, are int64 values for every slot number whenever a slot lasts at most 2^30 us (18
      minutes) and the reference is at most 2^61 us (73 thousand years) after boot. */
  lemma ExpectedTimeFits(c: Controller, slot: uint32, rx: int64)
    requires c.Ready() && c.syncOffset <= rx && SlotStart(c.lattice, slot).Ok?
    requires c.lattice.config.slotDuration <= 0x4000_0000 && c.lattice.referenceTime <= 0x2000_0000_0000_0000
    ensures 0 <= SlotStart(c.lattice, slot).value + c.syncOffset <= INT64_MAX
    ensures INT64_MIN <= TimingError(c, slot, rx) <= INT64_MAX
  {
    SlotStartIsPhase(c.lattice, slot);
    CorrectionStaysInRange(c, slot, rx);
    var n, d := slot - c.lattice.referenceSlot, c.lattice.config.slotDuration;
    ScaledOrder(n, d, 0x4000_0000);
    assert SlotStart(c.lattice, slot).value == c.lattice.referenceTime + n * d;
  }

  // ---------------------------------------------------------------- phase bookkeeping

  /** Phase of the transmitter's lattice that a packet for `slot` received at rx reveals. */
  function SenderPhase(c: Controller, slot: uint32, rx: int64): int {
    rx - c.syncOffset - slot * c.lattice.config.slotDuration
  }

  /** Effect of an accepted SYNC on a synchronized receiver: the timing error is the difference
      of the two phases, an in-window SYNC moves the receiver's phase and the accumulated
      correction by exactly correction(error), any other leaves both alone; the tracker counts
      a valid input in the first case and a miss in the second. */
  lemma AcceptedSyncMovesPhase(c: Controller, buffer: Option<SyncPacket>, rx: int64)
    requires c.Ready() && c.lattice.synchronized && ProcessRx(c, buffer, rx).outcome.Ok?
    ensures var step := ProcessRx(c, buffer, rx);
            var r, c' := step.outcome.value, step.controller;
            var inside := r.timing.placement == Inside;
            && r.timing.error == SenderPhase(c, buffer.value.slot, rx) - c.lattice.Phase()
            && INT64_MIN <= r.timing.error <= INT64_MAX
            && (inside <==> -(c.core.window.earlyMargin as int) <= r.timing.error <= c.core.window.lateMargin)
            && (var moved := if inside then Correction(c.gain, r.timing.error) else 0;
                && c'.lattice.Phase() == c.lattice.Phase() + moved
                && c'.accumulated == c.accumulated + moved
                && (moved != 0 ==> c'.lattice.referenceSlot == buffer.value.slot))
            && c'.core == c.core.(tracker := OnInput(c.core.tracker, inside).tracker)
            && c'.lattice.synchronized && c'.lattice.config == c.lattice.config
            && (c'.lattice.referenceSlot == c.lattice.referenceSlot ||
                c'.lattice.referenceSlot == buffer.value.slot)
            && c'.gain == c.gain && c'.syncOffset == c.syncOffset
  {
    ProcessRxIsTransactional(c, buffer, rx);
    var slot := buffer.value.slot;
    SlotStartIsPhase(c.lattice, slot);
    CorrectionStaysInRange(c, slot, rx);
    var correction := Correction(c.gain, TimingError(c, slot, rx));
    RebaseShifts(c.lattice, slot, correction);
  }

  /** The first SYNC takes the lattice to the sender: whatever the slot, the reference becomes that slot
      and the phase the sender's, the accumulated correction is untouched, and the tracker counts
      one valid input. */
  lemma FirstSyncAnchors(c: Controller, buffer: Option<SyncPacket>, rx: int64)
    requires c.Ready() && !c.lattice.synchronized && ProcessRx(c, buffer, rx).outcome.Ok?
    ensures var step := ProcessRx(c, buffer, rx);
            var c' := step.controller;
            && step.outcome.value.timing == Evaluation(0, Inside)
            && c'.lattice.synchronized && c'.lattice.referenceSlot == buffer.value.slot
            && c'.lattice.Phase() == SenderPhase(c, buffer.value.slot, rx)
            && c'.lattice.config == c.lattice.config
            && c' == c.(core := c.core.(tracker := OnValid(c.core.tracker).tracker), lattice := c'.lattice,
                        lastCorrection := 0)
  {}

  /** A later SYNC is placed and judged against the first: it is accepted, and its timing error is exactly
      how far the sender's phase has moved, so that a sender that keeps its phase has error 0. */
  lemma NextSyncFollowsFirst(c: Controller, first: Option<SyncPacket>, rx: int64,
                             second: Option<SyncPacket>, rx': int64)
    requires c.Ready() && !c.lattice.synchronized && ProcessRx(c, first, rx).outcome.Ok?
    requires Genuine(c.core, second) && first.value.slot <= second.value.slot
    requires var moved := SenderPhase(c, second.value.slot, rx') - SenderPhase(c, first.value.slot, rx);
             c.syncOffset <= rx' && rx' - moved <= INT64_MAX
    ensures var c' := ProcessRx(c, first, rx).controller;
            && c'.Ready()
            && var outcome := ProcessRx(c', second, rx').outcome;
               && outcome.Ok?
               && outcome.value.timing.error ==
                  SenderPhase(c, second.value.slot, rx') - SenderPhase(c, first.value.slot, rx)
  {
    ProcessRxIsTransactional(c, first, rx);
    FirstSyncAnchors(c, first, rx);
    var c' := ProcessRx(c, first, rx).controller;
    SlotStartIsPhase(c'.lattice, second.value.slot);
    ProcessRxIsTransactional(c', second, rx');
    AcceptedSyncMovesPhase(c', second, rx');
  }

  /** The same for a controller fresh from initialization, in the configuration's own terms: the error of the
      second SYNC is the time between the two less the slots between them, it is judged by the
      configured margins, and an in-window error moves the lattice by the configured correction. */
  lemma ConfigurationGoverns(config: ControllerConfig, first: Option<SyncPacket>, rx: int64,
                             second: Option<SyncPacket>, rx': int64)
    requires config.Valid() && config.syncOffset <= rx && config.syncOffset <= rx'
    requires var hop := InitHop(config.channels, config.hopSeed, Some(config.reservedChannel)).value;
             hop.Ready() && first.Some? && second.Some? && first.value.slot <= second.value.slot &&
             forall p | p == first.value || p == second.value ::
               p.generation == config.generation && IndexAt(hop, p.slot) == Ok(p.hopIndex)
    requires var elapsed := (second.value.slot - first.value.slot) * config.slots.slotDuration;
             rx + elapsed <= INT64_MAX
    ensures InitController(config).Ok? && InitController(config).value.Ready()
    ensures var c' := ProcessRx(InitController(config).value, first, rx).controller;
            && c'.Ready()
            && var step := ProcessRx(c', second, rx');
               var e := rx' - rx - (second.value.slot - first.value.slot) * config.slots.slotDuration;
               && step.outcome.Ok? && step.outcome.value.timing.error == e && INT64_MIN <= e <= INT64_MAX
               && (step.outcome.value.timing.placement == Inside <==>
                     -(config.window.earlyMargin as int) <= e <= config.window.lateMargin)
               && step.controller.accumulated ==
                  if step.outcome.value.timing.placement == Inside then Correction(config.gain, e) else 0
  {
    InitControllerIsReady(config);
    var c := InitController(config).value;
    ProcessRxIsTransactional(c, first, rx);
    var d := config.slots.slotDuration;
    assert (second.value.slot - first.value.slot) * d == second.value.slot * d - first.value.slot * d;
    FirstSyncAnchors(c, first, rx);
    NextSyncFollowsFirst(c, first, rx, second, rx');
    AcceptedSyncMovesPhase(ProcessRx(c, first, rx).controller, second, rx');
  }

  /** An accepted SYNC that is early by more than the deadband leaves the reference at least
      the deadband after its own observed slot start. */
  lemma EarlySyncPutsReferenceAhead(c: Controller, buffer: Option<SyncPacket>, rx: int64)
    requires c.Ready() && c.lattice.synchronized && ProcessRx(c, buffer, rx).outcome.Ok?
    requires var timing := ProcessRx(c, buffer, rx).outcome.value.timing;
             timing.placement == Inside && timing.error < 0 - c.gain.deadband
    ensures var c' := ProcessRx(c, buffer, rx).controller;
            && c'.Ready() && c'.lattice.synchronized
            && rx - c.syncOffset + c.gain.deadband <= c'.lattice.referenceTime
  {
    ProcessRxIsTransactional(c, buffer, rx);
    AcceptedSyncMovesPhase(c, buffer, rx);
    var step := ProcessRx(c, buffer, rx);
    CorrectionLaws(c.gain, step.outcome.value.timing.error);
  }

  // ---------------------------------------------------------------- channel agreement

  /** The SYNC packet a peer sends in a slot. */
  function SentSync(sender: Core, slot: uint32, sequence: uint16): SyncPacket
    requires sender.Ready()
  {
    SyncPacket(sender.generation, sequence, IndexAt(sender.hop, slot).value, slot)
  }

  /** Two peers on one channel list, with whatever hop seeds: the receiver accepts a SYNC exactly
      when the generations match and both tables put that slot on the same channel, and then it
      reports the channel the sender transmitted on. */
  lemma ChannelAgreement(sender: Core, receiver: Controller, slot: uint32, sequence: uint16, rx: int64)
    requires sender.Ready() && receiver.Ready() && receiver.syncOffset <= rx
    requires sender.hop.channels == receiver.core.hop.channels
    requires receiver.lattice.synchronized ==> SlotStart(receiver.lattice, slot).Ok?
    ensures var outcome := ProcessRx(receiver, Some(SentSync(sender, slot, sequence)), rx).outcome;
            && (outcome.Ok? <==>
                 && sender.generation == receiver.core.generation
                 && ChannelAt(sender.hop, slot) == ChannelAt(receiver.core.hop, slot))
            && (outcome.Ok? ==> Ok(outcome.value.channel) == ChannelAt(sender.hop, slot))
  {
    ProcessRxIsTransactional(receiver, Some(SentSync(sender, slot, sequence)), rx);
    var n := |sender.hop.channels|;
    var i, j := sender.hop.permutation[slot % n], receiver.core.hop.permutation[slot % n];
    assert i != j ==> sender.hop.channels[i] != sender.hop.channels[j];
  }

  /** The rebuild of fhss_service_apply_public_seed: make a new hop table from a derived seed, keeping the
      old table when the channel list is refused. */
  function Rekey(core: Core, hopSeed: bv32, reserved: uint8): Core {
    var rebuilt := InitHop(core.hop.channels, hopSeed, Some(reserved));
    if rebuilt.Ok? then core.(hop := rebuilt.value) else core
  }

  lemma RekeyStaysReady(core: Core, hopSeed: bv32, reserved: uint8)
    requires core.Ready()
    ensures Rekey(core, hopSeed, reserved).Ready()
  {
    if Acceptable(core.hop.channels, Some(reserved)) {
      InitHopIsReady(core.hop.channels, hopSeed, Some(reserved));
    }
  }

  /** The rendezvous slots, the multiples of the channel count, pass the hop check under every
      pair of seeds, also after either peer rebuilt its table from a fresh public seed. */
  lemma RendezvousPassesUnderAnySeeds(sender: Core, receiver: Core, senderSeed: bv32, receiverSeed: bv32,
                                      reserved: uint8, slot: uint32, sequence: uint16)
    requires sender.Ready() && receiver.Ready()
    requires sender.hop.channels == receiver.hop.channels && sender.generation == receiver.generation
    requires slot % |sender.hop.channels| == 0
    ensures Rekey(sender, senderSeed, reserved).Ready() && Rekey(receiver, receiverSeed, reserved).Ready()
    ensures Genuine(receiver, Some(SentSync(sender, slot, sequence)))
    ensures Genuine(Rekey(receiver, receiverSeed, reserved), Some(SentSync(sender, slot, sequence)))
    ensures Genuine(Rekey(receiver, receiverSeed, reserved),
                    Some(SentSync(Rekey(sender, senderSeed, reserved), slot, sequence)))
  {
    RekeyStaysReady(sender, senderSeed, reserved);
    RekeyStaysReady(receiver, receiverSeed, reserved);
  }

  // ---- the table is rebuilt only when the public seed changes

  /** The core with the public seed its hop table was last derived from, if any. */
  datatype Keyed = Keyed(core: Core, derivedFrom: Option<uint32>)

  function ApplyPublicSeed(k: Keyed, derive: uint32 -> bv32, reserved: uint8, publicSeed: uint32): Keyed {
    if k.derivedFrom == Some(publicSeed) then k
    else if InitHop(k.core.hop.channels, derive(publicSeed), Some(reserved)).Err? then k
    else Keyed(Rekey(k.core, derive(publicSeed), reserved), Some(publicSeed))
  }

  /** A remembered seed is the one the current table comes from. */
  predicate SeedIsCurrent(k: Keyed, derive: uint32 -> bv32, reserved: uint8) {
    k.derivedFrom.Some? ==>
      InitHop(k.core.hop.channels, derive(k.derivedFrom.value), Some(reserved)) == Ok(k.core.hop)
  }

  /** Skipping the rebuild for a repeated announcement is invisible: any sequence of announcements
      leaves the table that rebuilding for every one of them would leave. */
  lemma {:induction false} RepeatedSeedIsInvisible(k: Keyed, derive: uint32 -> bv32, reserved: uint8,
                                                   seeds: seq<uint32>)
    requires SeedIsCurrent(k, derive, reserved)
    ensures Announced(k, derive, reserved, seeds).core == Rebuilt(k.core, derive, reserved, seeds)
    ensures SeedIsCurrent(Announced(k, derive, reserved, seeds), derive, reserved)
    decreases |seeds|
  {
    if seeds != [] {
      RepeatedSeedIsInvisible(ApplyPublicSeed(k, derive, reserved, seeds[0]), derive, reserved, seeds[1..]);
    }
  }

  function Announced(k: Keyed, derive: uint32 -> bv32, reserved: uint8, seeds: seq<uint32>): Keyed
    decreases |seeds|
  {
    if seeds == [] then k else Announced(ApplyPublicSeed(k, derive, reserved, seeds[0]), derive, reserved, seeds[1..])
  }

  function Rebuilt(core: Core, derive: uint32 -> bv32, reserved: uint8, seeds: seq<uint32>): Core
    decreases |seeds|
  {
    if seeds == [] then core else Rebuilt(Rekey(core, derive(seeds[0]), reserved), derive, reserved, seeds[1..])
  }
}
