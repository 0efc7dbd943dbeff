/** fhss_core and fhss_sync_controller as the objects they are: every method is proved to take the
    step ClockModel specifies, writes included. */
module SyncController {
  import opened CTypes
  import opened PhaseCorrection
  import opened SlotScheduler
  import opened SyncTracker
  import opened HopSequence
  import opened ClockModel

  class FhssCore {
    const hop: FhssHopSequence
    const tracker: SyncStateTracker
    var window: Window
    var generation: uint32
    var initialized: bool

    ghost function Repr(): set<object> {
      {this, hop, tracker}
    }

    ghost predicate Valid()
      reads Repr()
    {
      && tracker.Valid()
      && (initialized ==> tracker.initialized && View().Ready())
    }

    ghost function View(): Core
      reads Repr()
    {
      Core(hop.View(), tracker.View(), window, generation, initialized)
    }

    constructor ()
      ensures Valid() && !initialized && fresh(Repr())
    {
      hop := new FhssHopSequence();
      tracker := new SyncStateTracker();
      window := Window(0, 0);
      generation := 0;
      initialized := false;
    }

    method Init(config: ControllerConfig) returns (ok: bool)
      requires Valid()
      modifies Repr()
      ensures Valid()
      ensures ok <==> Acceptable(config.channels, Some(config.reservedChannel)) && config.sync.Valid()
      ensures ok ==> View() == Core(
                       InitHop(config.channels, config.hopSeed, Some(config.reservedChannel)).value,
                       Fresh(config.sync), config.window, config.generation, true)
      ensures !ok ==> View() == old(View())
    {
      var newHop := new FhssHopSequence();
      ok := newHop.Initialize(config.channels, config.hopSeed, Some(config.reservedChannel));
      if !ok {
        return;
      }
      var newTracker := new SyncStateTracker();
      ok := newTracker.Init(config.sync);
      if !ok {
        return;
      }
      InitHopIsReady(config.channels, config.hopSeed, Some(config.reservedChannel));
      hop.CopyFrom(newHop);
      tracker.CopyFrom(newTracker);
      window, generation, initialized := config.window, config.generation, true;
    }

    method CopyFrom(other: FhssCore)
      requires other.Valid() && Repr() !! other.Repr()
      modifies Repr()
      ensures Valid() && View() == old(other.View())
    {
      hop.CopyFrom(other.hop);
      tracker.CopyFrom(other.tracker);
      window, generation, initialized := other.window, other.generation, other.initialized;
    }

    /** The expected instant and the timing error are formed without an overflow guard; they are
        mathematical integers here, which ClockModel.ExpectedTimeFits shows is what int64 gives for
        every slot the lattice reaches from a sane reference. */
    method HandleRx(buffer: Option<SyncPacket>, expected: int, actual: int64)
      returns (outcome: Result<RxResult, CoreStatus>)
      requires Valid()
      modifies Repr()
      ensures Valid()
      ensures CoreStep(View(), outcome) == CoreProcessRx(old(View()), buffer, expected, actual)
    {
      if !initialized {
        return Err(CoreNotInitialized);
      }
      if buffer.None? || buffer.value.generation != generation {
        return Err(CorePacketError);
      }
      var packet := buffer.value;
      var index := IndexAt(hop.View(), packet.slot);
      if index.Err? {
        return Err(CoreHopError);
      }
      if packet.hopIndex != index.value {
        return Err(CorePacketError);
      }
      var timing := Evaluate(window, expected, actual);
      var event;
      if timing.placement == Inside {
        event := tracker.HandleValid();
      } else {
        event := tracker.HandleMiss();
      }
      var channel := ChannelAt(hop.View(), packet.slot);
      if channel.Err? {
        return Err(CoreHopError);
      }
      outcome := Ok(RxResult(packet, timing, event.value, tracker.locked, index.value, channel.value));
    }

    method HandleSilence() returns (event: Option<SyncEvent>)
      requires Valid()
      modifies Repr()
      ensures Valid()
      ensures !old(initialized) ==> event == None && View() == old(View())
      ensures old(initialized) ==>
                var missed := OnMiss(old(View()).tracker);
                event == Some(missed.event) && View() == old(View()).(tracker := missed.tracker)
    {
      if !initialized {
        return None;
      }
      event := tracker.HandleMiss();
    }

    /** fhss_service_apply_public_seed, after the derivation callback supplied the hop seed. */
    method ApplySeed(hopSeed: bv32, reserved: uint8) returns (ok: bool)
      requires Valid() && initialized
      modifies hop
      ensures Valid() && View() == Rekey(old(View()), hopSeed, reserved)
      ensures ok <==> Acceptable(old(View()).hop.channels, Some(reserved))
    {
      RekeyStaysReady(View(), hopSeed, reserved);
      ok := hop.Initialize(hop.channels, hopSeed, Some(reserved));
    }
  }

  class FhssSyncController {
    const core: FhssCore
    const scheduler: Scheduler
    var syncOffset: uint32
    var gain: Gain
    var lastCorrection: int
    var accumulated: int
    var initialized: bool

    ghost function Repr(): set<object> {
      {this, scheduler} + core.Repr()
    }

    ghost predicate Valid()
      reads Repr()
    {
      core.Valid() && View().WellFormed()
    }

    ghost function View(): Controller
      reads Repr()
    {
      Controller(core.View(), scheduler.View(), syncOffset, gain, lastCorrection, accumulated, initialized)
    }

    constructor ()
      ensures Valid() && !initialized && fresh(Repr())
    {
      core := new FhssCore();
      scheduler := new Scheduler();
      syncOffset := 0;
      gain := Gain(0, 0, 0, 0, 0);
      lastCorrection, accumulated := 0, 0;
      initialized := false;
    }

    method Init(config: ControllerConfig) returns (status: Result<(), ControllerStatus>)
      requires Valid()
      modifies Repr()
      ensures Valid()
      ensures match InitController(config)
              case Ok(c) => status == Ok(()) && View() == c
              case Err(e) => status == Err(e) && View() == old(View())
    {
      if config.gain.slowDivisor == 0 || config.gain.fastDivisor == 0 || config.gain.maxStep == 0 ||
         config.gain.deadband > config.gain.fastThreshold {
        return Err(InvalidArgument);
      }
      var newCore := new FhssCore();
      var coreOk := newCore.Init(config);
      if !coreOk {
        return Err(CoreError);
      }
      var newScheduler := new Scheduler();
      var schedulerOk := newScheduler.Init(config.slots);
      if !schedulerOk {
        return Err(SchedulerError);
      }
      InitControllerIsReady(config);
      Commit(newCore, newScheduler, config);
      status := Ok(());
    }

    /** The final struct assignment of a successful initialization. */
    method Commit(newCore: FhssCore, newScheduler: Scheduler, config: ControllerConfig)
      requires newCore.Valid() && Repr() !! newCore.Repr() + {newScheduler}
      requires newCore.View().Ready() && newScheduler.View().Ready() && config.gain.Valid()
      modifies Repr()
      ensures Valid()
      ensures View() == Controller(old(newCore.View()), old(newScheduler.View()),
                                   config.syncOffset, config.gain, 0, 0, true)
    {
      core.CopyFrom(newCore);
      scheduler.CopyFrom(newScheduler);
      syncOffset, gain := config.syncOffset, config.gain;
      lastCorrection, accumulated := 0, 0;
      initialized := true;
    }

    method HandleRx(buffer: Option<SyncPacket>, rx: int64)
      returns (outcome: Result<RxResult, ControllerStatus>)
      requires Valid()
      modifies Repr()
      ensures Valid()
      ensures RxStep(View(), outcome) == ProcessRx(old(View()), buffer, rx)
    {
      if rx < 0 {
        return Err(InvalidArgument);
      }
      if !initialized {
        return Err(ControllerNotInitialized);
      }
      if buffer.None? {
        return Err(PacketError);
      }
      if rx < syncOffset {
        return Err(InvalidArgument);
      }
      ProcessRxIsTransactional(View(), buffer, rx);
      var slot := buffer.value.slot;
      var observed: int64 := rx - syncOffset;
      var expected: int := rx;
      SlotStartIsPhase(scheduler.View(), slot);
      if scheduler.synchronized {
        var start := SlotStart(scheduler.View(), slot);
        if start.Err? {
          return Err(SchedulerError);
        }
        CorrectionStaysInRange(View(), slot, rx);
        expected := start.value + syncOffset;
      }
      var coreOutcome := core.HandleRx(buffer, expected, rx);
      if coreOutcome.Err? {
        return Err(CoreError);
      }
      var result := coreOutcome.value;
      if !scheduler.synchronized {
        outcome := AnchorReference(slot, observed, result);
      } else if result.timing.placement == Inside {
        outcome := NudgeReference(slot, result);
      } else {
        outcome := Ok(result);
      }
    }

    /** Take an observed slot start as the reference. */
    method AnchorReference(slot: uint32, observed: int64, result: RxResult)
      returns (outcome: Result<RxResult, ControllerStatus>)
      modifies scheduler, this
      ensures RxStep(View(), outcome) == Anchor(old(View()), slot, observed, result)
      ensures core.Valid() == old(core.Valid())
    {
      var ok := scheduler.SetReferenceTo(slot, observed);
      if !ok {
        return Err(SchedulerError);
      }
      lastCorrection := result.timing.error;
      accumulated := accumulated + result.timing.error;
      outcome := Ok(result);
    }

    /** Apply the phase correction of an in-window SYNC. */
    method NudgeReference(slot: uint32, result: RxResult)
      returns (outcome: Result<RxResult, ControllerStatus>)
      requires gain.Valid() && INT64_MIN <= result.timing.error <= INT64_MAX
      requires SlotStart(scheduler.View(), slot).Ok?
      modifies scheduler, this
      ensures RxStep(View(), outcome) ==
              Nudge(old(View()), slot, SlotStart(old(scheduler.View()), slot).value, result)
      ensures core.Valid() == old(core.Valid())
    {
      var start := SlotStart(scheduler.View(), slot);
      if start.Err? {
        return Err(SchedulerError);
      }
      var correction := Correction(gain, result.timing.error);
      if correction != 0 {
        if (correction > 0 && start.value > INT64_MAX - correction) ||
           (correction < 0 && start.value < INT64_MIN - correction) {
          return Err(SchedulerError);
        }
        var ok := scheduler.SetReferenceTo(slot, start.value + correction);
        if !ok {
          return Err(SchedulerError);
        }
      }
      lastCorrection := correction;
      accumulated := accumulated + correction;
      outcome := Ok(result);
    }

    method HandleRecovery(buffer: Option<SyncPacket>, rx: int64)
      returns (outcome: Result<RxResult, ControllerStatus>)
      requires Valid()
      modifies Repr()
      ensures Valid()
      ensures RxStep(View(), outcome) == RecoverRx(old(View()), buffer, rx)
    {
      if rx < syncOffset {
        return Err(InvalidArgument);
      }
      if !initialized {
        return Err(ControllerNotInitialized);
      }
      RecoverRxIsTransactional(View(), buffer, rx);
      var coreOutcome := core.HandleRx(buffer, rx, rx);
      if coreOutcome.Err? {
        return Err(CoreError);
      }
      outcome := AnchorReference(coreOutcome.value.packet.slot, rx - syncOffset, coreOutcome.value);
    }

    method HandleSilence() returns (outcome: Result<SyncEvent, ControllerStatus>)
      requires Valid()
      modifies Repr()
      ensures Valid()
      ensures TimeoutStep(View(), outcome) == HandleTimeout(old(View()))
    {
      if !initialized {
        return Err(ControllerNotInitialized);
      }
      var event := core.HandleSilence();
      if event.None? {
        return Err(CoreError);
      }
      if event.value == Lost {
        var ok := scheduler.Clear();
        if !ok {
          return Err(SchedulerError);
        }
      }
      outcome := Ok(event.value);
    }
  }
}
