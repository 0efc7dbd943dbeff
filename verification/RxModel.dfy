/** Value-level specification of the RX service: the link FSM, the handlers, and the receive loop as
    a machine over radio inputs. */
module RxModel {
  import opened CTypes
  import opened PhaseCorrection
  import opened SlotScheduler
  import opened SyncTracker
  import opened ClockModel

  // ---------------------------------------------------------------- link FSM

  datatype FsmState = Stopped | Searching | Synchronizing | Tracking | Recovery | Transmitting
  datatype FsmEvent =
    StartRx | StartTx | FirstSync | SyncAcquired | SyncDegraded | SyncRecovered | SyncLost | Stop

  /** The state after an event, None when the event is refused in that state. */
  function FsmHandle(state: FsmState, event: FsmEvent): Option<FsmState> {
    match (state, event)
    case (_, Stop) => Some(Stopped)
    case (Stopped, StartRx) => Some(Searching)
    case (Stopped, StartTx) => Some(FsmState.Transmitting)
    case (Searching, FirstSync) => Some(Synchronizing)
    case (Synchronizing, SyncAcquired) => Some(FsmState.Tracking)
    case (Synchronizing, SyncLost) => Some(Searching)
    case (Tracking, SyncDegraded) => Some(Recovery)
    case (Tracking, SyncLost) => Some(Searching)
    case (Recovery, SyncRecovered) => Some(FsmState.Tracking)
    case (Recovery, SyncLost) => Some(Searching)
    case _ => None
  }

  function Fire(state: FsmState, event: FsmEvent): FsmState {
    var next := FsmHandle(state, event);
    if next.Some? then next.value else state
  }

  // ---------------------------------------------------------------- service state

  datatype ServiceConfig = ServiceConfig(controller: ControllerConfig, recoveryEntry: uint32)
  {
    /** What fhss_service_init and its first controller reset accept. */
    predicate Valid() {
      controller.Valid() && 0 < recoveryEntry < controller.sync.lossCount
    }
  }

  datatype Report = ReportAcquired | ReportLost | ReportError

  /** Where the receive loop is: at its head, draining a slot, or about to take the slot's
      scheduled reception. */
  datatype Point = Top | Drain | Scheduled

  datatype Service = Service(
    config: ServiceConfig,
    controller: Controller,
    fsm: FsmState,
    misses: uint32,
    probeIndex: uint8,
    point: Point,
    reports: seq<Report>)
  {
    function Locked(): bool { controller.core.tracker.locked }
    function TrackerMisses(): nat { controller.core.tracker.misses }
    function Synchronized(): bool { controller.lattice.synchronized }
    function LossCount(): nat { config.controller.sync.lossCount }
  }

  /** The service as fhss_service_init or a role switch to RX leaves it at the loop head. */
  function Started(config: ServiceConfig): Service
    requires config.Valid()
  {
    InitControllerIsReady(config.controller);
    Service(config, InitController(config.controller).value, Searching, 0, 0, Top, [])
  }

  // ---------------------------------------------------------------- one reception

  /** What the radio delivers: SYNC bytes (None: not decodable), nothing in time, a CRC failure, a
      radio error, or a payload whose callback may end the session or announce a new seed. */
  datatype Received =
    | SyncBytes(buffer: Option<SyncPacket>, rx: int64)
    | NothingHeard
    | CrcFailed
    | RadioFailed
    | Payload(endsSession: bool, newSeed: Option<bv32>)

  datatype ReceiveResult =
    | GotSync(result: RxResult)
    | GotTimeout
    | GotCrcFail
    | GotRadioError
    | GotSyncError
    | GotData
    | GotSessionEnd

  datatype Reception = Reception(service: Service, result: ReceiveResult)

  function ReceiveOne(s: Service, r: Received): (got: Reception)
    requires s.controller.Ready()
    ensures got.service.controller.Ready()
    ensures got.service == s.(controller := got.service.controller)
  {
    match r
    case NothingHeard => Reception(s, GotTimeout)
    case CrcFailed => Reception(s, GotCrcFail)
    case RadioFailed => Reception(s, GotRadioError)
    case Payload(endsSession, newSeed) =>
      if s.fsm == Searching then Reception(s, GotData)
      else
        var core := if newSeed.Some?
                    then
                      RekeyStaysReady(s.controller.core, newSeed.value, s.config.controller.reservedChannel);
                      Rekey(s.controller.core, newSeed.value, s.config.controller.reservedChannel)
                    else s.controller.core;
        Reception(s.(controller := s.controller.(core := core)),
                  if endsSession then GotSessionEnd else GotData)
    case SyncBytes(buffer, rx) =>
      ProcessRxIsTransactional(s.controller, buffer, rx);
      RecoverRxIsTransactional(s.controller, buffer, rx);
      var step := if s.fsm == Recovery then RecoverRx(s.controller, buffer, rx)
                  else ProcessRx(s.controller, buffer, rx);
      Reception(s.(controller := step.controller),
                if step.outcome.Ok? then GotSync(step.outcome.value) else GotSyncError)
  }

  // ---------------------------------------------------------------- handlers

  function Cleared(c: Controller): Controller {
    var lattice := ClearReference(c.lattice);
    if lattice.Ok? then c.(lattice := lattice.value) else c
  }

  /** What any accepted SYNC does: recovery succeeds, and a search ends if it is in the window. */
  function SyncSeen(s: Service, inside: bool): Service {
    var fsm0 := if s.fsm == Recovery then Fire(s.fsm, SyncRecovered) else s.fsm;
    var fsm1 := if fsm0 == Searching && inside then Fire(fsm0, FirstSync) else fsm0;
    s.(misses := 0, probeIndex := 0, fsm := fsm1)
  }

  function HandleSync(s: Service, result: RxResult): (s': Service)
    ensures s'.config == s.config
  {
    var s1 := SyncSeen(s, result.timing.placement == Inside);
    match result.event
    case NoEvent => s1
    case Acquired => s1.(fsm := Fire(s1.fsm, SyncAcquired), reports := s.reports + [ReportAcquired])
    case Lost => s1.(controller := Cleared(s.controller),
                     fsm := Fire(s1.fsm, SyncLost), reports := s.reports + [ReportLost])
  }

  function HandleMiss(s: Service): (s': Service)
    requires s.controller.WellFormed()
    ensures s'.config == s.config
  {
    var step := HandleTimeout(s.controller);
    var s1 := s.(misses := (s.misses + 1) % 0x1_0000_0000, controller := step.controller);
    if step.outcome.Err? then s1.(reports := s.reports + [ReportError])
    else if step.outcome.value == Lost then
      s1.(fsm := Fire(s.fsm, SyncLost), reports := s.reports + [ReportLost], misses := 0, probeIndex := 0)
    else if s.fsm == Synchronizing then
      s1.(controller := Cleared(s1.controller), fsm := Fire(s.fsm, SyncLost), misses := 0)
    else if s.fsm == FsmState.Tracking && s1.misses >= s.config.recoveryEntry then
      s1.(fsm := Fire(s.fsm, SyncDegraded), probeIndex := 0)
    else s1
  }

  function HandleInvalidSync(s: Service): (s': Service)
    requires s.controller.WellFormed()
    ensures s'.config == s.config
  {
    if s.fsm == FsmState.Tracking || s.fsm == Recovery then HandleMiss(s) else s
  }

  datatype SessionEnd = SessionEnd(service: Service, resumed: bool)

  function HandleSessionEnd(s: Service, rendezvousOk: bool): (ended: SessionEnd)
    ensures ended.service.config == s.config
  {
    var reset := InitController(s.config.controller);
    if reset.Err? then
      SessionEnd(s.(fsm := Stopped, reports := s.reports + [ReportError]), false)
    else
      var s1 := s.(fsm := Searching, controller := reset.value, misses := 0, probeIndex := 0);
      if rendezvousOk then SessionEnd(s1, true)
      else SessionEnd(s1.(reports := s.reports + [ReportError]), false)
  }

  // ---------------------------------------------------------------- the loop

  /** The environment's choices for one step: the clock at the loop head, whether the radio accepts the
      slot's channel, whether it accepts the rendezvous channel after a session end, whether the
      drain has reached the switch instant, and what is received. */
  datatype Input = Input(now: int64, selectOk: bool, rendezvousOk: bool, deadline: bool, received: Received)

  function Step(s: Service, i: Input): (s': Service)
    requires s.controller.Ready()
    ensures s'.config == s.config
  {
    match s.point
    case Top => if s.fsm == Searching then SearchStep(s, i) else HeadStep(s, i)
    case Drain => DrainStep(s, i)
    case Scheduled => ScheduledStep(s, i)
  }

  function SearchStep(s: Service, i: Input): (s': Service)
    requires s.controller.Ready()
    ensures s'.config == s.config
  {
    if !i.selectOk then s.(reports := s.reports + [ReportError])
    else
      var r := ReceiveOne(s, i.received);
      if r.result.GotSync? then HandleSync(r.service, r.result.result) else r.service
  }

  function HeadStep(s: Service, i: Input): (s': Service)
    requires s.controller.Ready()
    ensures s'.config == s.config
  {
    if NextSwitch(s.controller.lattice, i.now).Ok? then s.(point := Drain)
    else s.(fsm := Fire(s.fsm, SyncLost), controller := Cleared(s.controller))
  }

  function DrainStep(s: Service, i: Input): (s': Service)
    requires s.controller.Ready()
    ensures s'.config == s.config
  {
    if i.deadline then s.(point := Scheduled)
    else
      var r := ReceiveOne(s, i.received);
      match r.result
      case GotData | GotTimeout | GotCrcFail => r.service
      case GotSync(result) => HandleSync(r.service, result)
      case GotSessionEnd =>
        var ended := HandleSessionEnd(r.service, i.rendezvousOk);
        ended.service.(point := if ended.resumed then Top else Scheduled)
      case GotRadioError | GotSyncError => r.service.(point := Scheduled)
  }

  function ScheduledStep(s: Service, i: Input): (s': Service)
    requires s.controller.Ready()
    ensures s'.config == s.config
  {
    Listen(ChooseProbe(s), i).(point := Top)
  }

  /** A recovery probe is chosen before the channel is selected. */
  function ChooseProbe(s: Service): Service {
    if s.fsm == Recovery then s.(probeIndex := (s.probeIndex + 1) % 0x100) else s
  }

  function Listen(s: Service, i: Input): (s': Service)
    requires s.controller.Ready()
    ensures s'.config == s.config
  {
    if !i.selectOk then s.(reports := s.reports + [ReportError])
    else
      var r := ReceiveOne(s, i.received);
      Conclude(r.service, r.result, i.rendezvousOk)
  }

  /** What the slot's scheduled reception leads to. */
  function Conclude(s: Service, result: ReceiveResult, rendezvousOk: bool): (s': Service)
    requires s.controller.WellFormed()
    ensures s'.config == s.config
  {
    match result
    case GotSync(sync) => HandleSync(s, sync)
    case GotSessionEnd => HandleSessionEnd(s, rendezvousOk).service
    case GotData => s
    case GotTimeout | GotCrcFail => HandleMiss(s)
    case GotSyncError => HandleInvalidSync(s)
    case GotRadioError => s.(reports := s.reports + [ReportError])
  }
}
