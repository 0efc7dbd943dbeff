/** Whole-run behaviour of the clock: bounded drift is tracked forever, and the phase moves only
    by what the controller accounts for. */
module Tracking {
  import opened CTypes
  import opened PhaseCorrection
  import opened SlotScheduler
  import opened SyncTracker
  import opened ClockModel

  /** What the air offers the receiver in one slot: a packet for a tracking receiver, a packet for one
      that probes for recovery, or nothing. */
  datatype AirEvent =
    | Heard(buffer: Option<SyncPacket>, rx: int64)
    | Probed(buffer: Option<SyncPacket>, rx: int64)
    | Silence

  function OnAir(c: Controller, event: AirEvent): Controller
    requires c.Ready()
  {
    match event
    case Heard(buffer, rx) => ProcessRx(c, buffer, rx).controller
    case Probed(buffer, rx) => RecoverRx(c, buffer, rx).controller
    case Silence => HandleTimeout(c).controller
  }

  lemma OnAirStaysReady(c: Controller, event: AirEvent)
    requires c.Ready()
    ensures OnAir(c, event).Ready()
  {
    if event.Heard? {
      ProcessRxIsTransactional(c, event.buffer, event.rx);
    } else if event.Probed? {
      RecoverRxIsTransactional(c, event.buffer, event.rx);
    }
  }

  /** A transmitter whose phase moves by at most `budget` up to each SYNC that gets through, and by
      any amount up to a recovery sample, on a channel that never loses lossCount in a row and may
      carry any packets that are not genuine, at any times. Says nothing about the receiver's
      clock: c0 only supplies the shared configuration. `rx + m` is the last instant a slot
      may start that the int64 clock can still represent. */
  ghost predicate SteadyAir(c0: Controller, lastSlot: uint32, phase: int, silent: nat, m: nat, budget: nat,
                            events: seq<AirEvent>)
    requires c0.Ready()
    decreases |events|
  {
    events == [] ||
    match events[0]
    case Heard(buffer, rx) =>
      if !Genuine(c0.core, buffer) then SteadyAir(c0, lastSlot, phase, silent, m, budget, events[1..])
      else
      && lastSlot <= buffer.value.slot
      && c0.syncOffset <= rx && rx + m <= INT64_MAX
      && Abs(SenderPhase(c0, buffer.value.slot, rx) - phase) <= budget
      && SteadyAir(c0, buffer.value.slot, SenderPhase(c0, buffer.value.slot, rx), 0, m, budget, events[1..])
    case Probed(buffer, rx) =>
      if !Genuine(c0.core, buffer) || rx < c0.syncOffset then
        SteadyAir(c0, lastSlot, phase, silent, m, budget, events[1..])
      else SteadyAir(c0, buffer.value.slot, SenderPhase(c0, buffer.value.slot, rx), 0, m, budget, events[1..])
    case Silence =>
      && silent + 1 < c0.core.tracker.config.lossCount
      && SteadyAir(c0, lastSlot, phase, silent + 1, m, budget, events[1..])
  }

  /** Along the run every genuine SYNC is accepted inside the window with an error of at most m, every
      other packet is refused without a trace, no event but "nothing happened" is ever emitted,
      and the receiver ends locked and synchronized. */
  ghost predicate Tracked(c: Controller, m: nat, events: seq<AirEvent>)
    requires c.Ready()
    decreases |events|
  {
    if events == [] then c.core.tracker.locked && c.lattice.synchronized
    else
      && OnAir(c, events[0]).Ready()
      && Tracked(OnAir(c, events[0]), m, events[1..])
      && match events[0]
         case Heard(buffer, rx) =>
           var outcome := ProcessRx(c, buffer, rx).outcome;
           if !Genuine(c.core, buffer) then outcome.Err? && OnAir(c, events[0]) == c
           else
           && outcome.Ok? && outcome.value.timing.placement == Inside
           && Abs(outcome.value.timing.error) <= m && outcome.value.event == NoEvent
         case Probed(buffer, rx) =>
           var outcome := RecoverRx(c, buffer, rx).outcome;
           if !Genuine(c.core, buffer) || rx < c.syncOffset then outcome.Err? && OnAir(c, events[0]) == c
           else outcome.Ok? && outcome.value.event == NoEvent
         case Silence => HandleTimeout(c).outcome == Ok(NoEvent)
  }

  /** Two controllers that differ in nothing the air predicate looks at. */
  predicate SameConfiguration(c: Controller, c0: Controller) {
    && c.core == c0.core.(tracker := c.core.tracker)
    && c.core.tracker.config == c0.core.tracker.config
    && c.lattice.config == c0.lattice.config
    && c.syncOffset == c0.syncOffset && c.gain == c0.gain
  }

  predicate WithinMargins(c: Controller, m: nat) {
    m <= c.core.window.earlyMargin && m <= c.core.window.lateMargin
  }

  /** A locked receiver within reach of the sender phase it last corrected towards. */
  ghost predicate Following(c0: Controller, c: Controller, lastSlot: uint32, phase: int, m: nat) {
    && c0.Ready() && c.Ready() && SameConfiguration(c, c0) && WithinMargins(c, m)
    && c.core.tracker.locked && c.lattice.synchronized && c.lattice.referenceSlot <= lastSlot
    && Abs(phase - c.lattice.Phase()) <= m - Correction(c.gain, m)
  }

  lemma HeardFollows(c0: Controller, c: Controller, lastSlot: uint32, phase: int, m: nat,
                     buffer: Option<SyncPacket>, rx: int64)
    requires Following(c0, c, lastSlot, phase, m) && Genuine(c.core, buffer) && lastSlot <= buffer.value.slot
    requires c.syncOffset <= rx && rx + m <= INT64_MAX
    requires Abs(SenderPhase(c, buffer.value.slot, rx) - phase) <= Correction(c.gain, m)
    ensures var step := ProcessRx(c, buffer, rx);
            && Following(c0, step.controller, buffer.value.slot, SenderPhase(c, buffer.value.slot, rx), m)
            && step.controller.core.tracker.misses == 0
            && step.outcome.Ok? && step.outcome.value.timing.placement == Inside
            && Abs(step.outcome.value.timing.error) <= m && step.outcome.value.event == NoEvent
  {
    var revealed := SenderPhase(c, buffer.value.slot, rx);
    HeardWithin(c, buffer, rx, m);
    ProcessRxIsTransactional(c, buffer, rx);
    AcceptedSyncMovesPhase(c, buffer, rx);
    ResidualBound(c.gain, m, revealed - c.lattice.Phase());
  }

  lemma ProbedFollows(c0: Controller, c: Controller, lastSlot: uint32, phase: int, m: nat,
                      buffer: Option<SyncPacket>, rx: int64)
    requires Following(c0, c, lastSlot, phase, m) && Genuine(c.core, buffer) && c.syncOffset <= rx
    ensures var step := RecoverRx(c, buffer, rx);
            && Following(c0, step.controller, buffer.value.slot, SenderPhase(c, buffer.value.slot, rx), m)
            && step.controller.core.tracker.misses == 0
            && step.outcome.Ok? && step.outcome.value.event == NoEvent
  {
    RecoverRxIsTransactional(c, buffer, rx);
    RecoverySampleAligns(c, buffer, rx);
    CorrectionLaws(c.gain, m);
  }

  /** The induction: `phase` is the sender phase the receiver last corrected towards. */
  lemma {:induction false} SteadyAirIsTracked(c0: Controller, c: Controller, lastSlot: uint32, phase: int,
                                              m: nat, events: seq<AirEvent>)
    requires Following(c0, c, lastSlot, phase, m)
    requires SteadyAir(c0, lastSlot, phase, c.core.tracker.misses, m, Correction(c.gain, m), events)
    ensures Tracked(c, m, events)
    decreases |events|
  {
    if events == [] {
      return;
    }
    OnAirStaysReady(c, events[0]);
    match events[0]
    case Heard(buffer, rx) =>
      if Genuine(c.core, buffer) {
        HeardFollows(c0, c, lastSlot, phase, m, buffer, rx);
        var revealed := SenderPhase(c, buffer.value.slot, rx);
        SteadyAirIsTracked(c0, OnAir(c, events[0]), buffer.value.slot, revealed, m, events[1..]);
      } else {
        ProcessRxIsTransactional(c, buffer, rx);
        SteadyAirIsTracked(c0, c, lastSlot, phase, m, events[1..]);
      }
    case Probed(buffer, rx) =>
      if Genuine(c.core, buffer) && c.syncOffset <= rx {
        ProbedFollows(c0, c, lastSlot, phase, m, buffer, rx);
        var revealed := SenderPhase(c, buffer.value.slot, rx);
        SteadyAirIsTracked(c0, OnAir(c, events[0]), buffer.value.slot, revealed, m, events[1..]);
      } else {
        RecoverRxIsTransactional(c, buffer, rx);
        SteadyAirIsTracked(c0, c, lastSlot, phase, m, events[1..]);
      }
    case Silence =>
      SteadyAirIsTracked(c0, OnAir(c, events[0]), lastSlot, phase, m, events[1..]);
  }

  /** A genuine packet whose sender phase is within m of the receiver's is accepted. */
  lemma HeardWithin(c: Controller, buffer: Option<SyncPacket>, rx: int64, m: nat)
    requires c.Ready() && c.lattice.synchronized && Genuine(c.core, buffer)
    requires c.lattice.referenceSlot <= buffer.value.slot
    requires c.syncOffset <= rx && rx + m <= INT64_MAX
    requires Abs(SenderPhase(c, buffer.value.slot, rx) - c.lattice.Phase()) <= m
    ensures ProcessRx(c, buffer, rx).outcome.Ok?
  {
    SlotStartIsPhase(c.lattice, buffer.value.slot);
    ProcessRxIsTransactional(c, buffer, rx);
  }

  /** Bounded drift is tracked forever. Let m be within both window margins. If a locked receiver
      hears one SYNC with an error of at most m, and from then on the transmitter's phase moves
      by at most correction(m) between the SYNCs that arrive while fewer than lossCount slots in a
      row stay silent, then every later genuine SYNC has an error of at most m, is judged INSIDE,
      never counts as a miss, and lock is never lost, whatever foreign or broken packets are heard
      and recovery samples taken in between. DriftBudgetIsExact shows the budget cannot be
      raised. */
  lemma BoundedDriftIsTrackedForever(c: Controller, first: AirEvent, m: nat, later: seq<AirEvent>)
    requires c.Ready() && c.core.tracker.locked && c.lattice.synchronized && WithinMargins(c, m)
    requires first.Heard? && Genuine(c.core, first.buffer)
    requires var slot := first.buffer.value.slot;
             var phase := SenderPhase(c, slot, first.rx);
             && c.lattice.referenceSlot <= slot
             && c.syncOffset <= first.rx && first.rx + m <= INT64_MAX
             && Abs(phase - c.lattice.Phase()) <= m
             && SteadyAir(c, slot, phase, 0, m, Correction(c.gain, m), later)
    ensures Tracked(c, m, [first] + later)
  {
    var slot := first.buffer.value.slot;
    var phase := SenderPhase(c, slot, first.rx);
    HeardWithin(c, first.buffer, first.rx, m);
    AcceptedSyncMovesPhase(c, first.buffer, first.rx);
    ResidualBound(c.gain, m, phase - c.lattice.Phase());
    OnAirStaysReady(c, first);
    SteadyAirIsTracked(c, OnAir(c, first), slot, phase, m, later);
    assert ([first] + later)[1..] == later;
  }

  function Follow(c: Controller, events: seq<AirEvent>): Controller
    requires c.Ready()
    decreases |events|
  {
    if events == [] then c
    else
      OnAirStaysReady(c, events[0]);
      Follow(OnAir(c, events[0]), events[1..])
  }

  ghost predicate StaysSynchronized(c: Controller, events: seq<AirEvent>)
    requires c.Ready()
    decreases |events|
  {
    c.lattice.synchronized &&
    (events != [] ==>
       OnAir(c, events[0]).Ready() && StaysSynchronized(OnAir(c, events[0]), events[1..]))
  }

  /** The phase jump of a recovery sample, which the controller does not add to its correction. */
  function Jump(c: Controller, event: AirEvent): int
    requires c.Ready()
  {
    if event.Probed? && RecoverRx(c, event.buffer, event.rx).outcome.Ok? then
      SenderPhase(c, event.buffer.value.slot, event.rx) - c.lattice.Phase()
    else 0
  }

  function Jumps(c: Controller, events: seq<AirEvent>): int
    requires c.Ready()
    decreases |events|
  {
    if events == [] then 0
    else
      OnAirStaysReady(c, events[0]);
      Jump(c, events[0]) + Jumps(OnAir(c, events[0]), events[1..])
  }

  lemma OneEventIsAccountedFor(c: Controller, event: AirEvent)
    requires c.Ready() && c.lattice.synchronized && OnAir(c, event).lattice.synchronized
    ensures OnAir(c, event).lattice.Phase() - c.lattice.Phase()
            == OnAir(c, event).accumulated - c.accumulated + Jump(c, event)
  {
    match event
    case Heard(buffer, rx) =>
      ProcessRxIsTransactional(c, buffer, rx);
      if ProcessRx(c, buffer, rx).outcome.Ok? {
        AcceptedSyncMovesPhase(c, buffer, rx);
      }
    case Probed(buffer, rx) =>
      RecoverRxIsTransactional(c, buffer, rx);
      if RecoverRx(c, buffer, rx).outcome.Ok? {
        RecoverySampleAligns(c, buffer, rx);
      }
    case Silence =>
  }

  /** Nothing heard, in whatever order, at whatever time, moves a synchronized lattice except by what is
      added to the accumulated correction and by the jumps of recovery samples, for as long as lock
      is not lost. */
  lemma {:induction false} PhaseIsAccountedFor(c: Controller, events: seq<AirEvent>)
    requires c.Ready() && StaysSynchronized(c, events)
    ensures Follow(c, events).lattice.Phase() - c.lattice.Phase()
            == Follow(c, events).accumulated - c.accumulated + Jumps(c, events)
    decreases |events|
  {
    if events != [] {
      OneEventIsAccountedFor(c, events[0]);
      PhaseIsAccountedFor(OnAir(c, events[0]), events[1..]);
    }
  }
}
