/** The RX side of fhss_service as an object: link FSM, handlers and one turn of the receive loop, each
    proved to take the step RxModel specifies. */
module RxService {
  import opened CTypes
  import opened PhaseCorrection
  import opened SlotScheduler
  import opened SyncTracker
  import opened ClockModel
  import opened SyncController
  import opened RxModel
  import opened RxSafety

  class LinkFsm {
    var state: FsmState

    constructor ()
      ensures state == Stopped
    {
      state := Stopped;
    }

    method Handle(event: FsmEvent) returns (accepted: bool)
      modifies this
      ensures accepted <==> FsmHandle(old(state), event).Some?
      ensures state == Fire(old(state), event)
    {
      if event == Stop {
        state := Stopped;
        return true;
      }
      match state {
        case Stopped =>
          if event == StartRx {
            state := Searching;
            return true;
          }
          if event == StartTx {
            state := Transmitting;
            return true;
          }
        case Searching =>
          if event == FirstSync {
            state := Synchronizing;
            return true;
          }
        case Synchronizing =>
          if event == SyncAcquired {
            state := FsmState.Tracking;
            return true;
          }
          if event == SyncLost {
            state := Searching;
            return true;
          }
        case Tracking =>
          if event == SyncDegraded {
            state := Recovery;
            return true;
          }
          if event == SyncLost {
            state := Searching;
            return true;
          }
        case Recovery =>
          if event == SyncRecovered {
            state := FsmState.Tracking;
            return true;
          }
          if event == SyncLost {
            state := Searching;
            return true;
          }
        case Transmitting =>
      }
      accepted := false;
    }
  }

  const NO_CONTROLLER :=
    ControllerConfig([], 0, 0, 0, Window(0, 0), TrackerConfig(0, 0), SlotConfig(0, 0), 0, Gain(0, 0, 0, 0, 0))

  class FhssRxService {
    const controller: FhssSyncController
    const fsm: LinkFsm
    var config: ServiceConfig
    var consecutiveMisses: uint32
    var recoveryProbeIndex: uint8
    var point: Point
    var reports: seq<Report>   // event callbacks made so far

    ghost function Repr(): set<object> {
      {this, fsm} + controller.Repr()
    }

    ghost predicate Valid()
      reads Repr()
    {
      controller.Valid() && controller.initialized
    }

    ghost function View(): Service
      reads Repr()
    {
      Service(config, controller.View(), fsm.state, consecutiveMisses, recoveryProbeIndex, point, reports)
    }

    /** A service before fhss_service_init. */
    constructor ()
      ensures controller.Valid() && fsm.state == Stopped && fresh(Repr())
    {
      controller := new FhssSyncController();
      fsm := new LinkFsm();
      config := ServiceConfig(NO_CONTROLLER, 0);
      consecutiveMisses, recoveryProbeIndex, point, reports := 0, 0, Top, [];
    }

    /** fhss_service_init, and fhss_service_start as receiver if it succeeds. */
    method Boot(newConfig: ServiceConfig) returns (ok: bool)
      requires controller.Valid()
      modifies Repr()
      ensures ok <==> newConfig.Valid()
      ensures ok ==> Valid() && View() == Started(newConfig)
    {
      if newConfig.recoveryEntry == 0 || newConfig.recoveryEntry >= newConfig.controller.sync.lossCount {
        return false;
      }
      InitControllerIsReady(newConfig.controller);
      fsm.state := Stopped;
      config := newConfig;
      consecutiveMisses, recoveryProbeIndex, point, reports := 0, 0, Top, [];
      var status := controller.Init(newConfig.controller);
      if status.Err? {
        return false;
      }
      ok := fsm.Handle(StartRx);
    }

    method Receive(r: Received) returns (result: ReceiveResult)
      requires Valid()
      modifies controller.Repr()
      ensures Valid()
      ensures Reception(View(), result) == ReceiveOne(old(View()), r)
    {
      match r
      case NothingHeard => result := GotTimeout;
      case CrcFailed => result := GotCrcFail;
      case RadioFailed => result := GotRadioError;
      case Payload(endsSession, newSeed) =>
        if fsm.state == Searching {
          return GotData;
        }
        if newSeed.Some? {
          var ok := controller.core.ApplySeed(newSeed.value, config.controller.reservedChannel);
        }
        result := if endsSession then GotSessionEnd else GotData;
      case SyncBytes(buffer, rx) =>
        var outcome;
        if fsm.state == Recovery {
          outcome := controller.HandleRecovery(buffer, rx);
        } else {
          outcome := controller.HandleRx(buffer, rx);
        }
        result := if outcome.Ok? then GotSync(outcome.value) else GotSyncError;
    }

    /** Clear the scheduler reference, result ignored, and leave the synchronized states. */
    method LoseReference()
      requires Valid()
      modifies fsm, controller.scheduler
      ensures Valid()
      ensures View() == old(View()).(controller := Cleared(old(controller.View())),
                                     fsm := Fire(old(fsm.state), SyncLost))
    {
      var _ := controller.scheduler.Clear();
      var _ := fsm.Handle(SyncLost);
    }

    method OnSync(result: RxResult)
      requires Valid()
      modifies this, fsm, controller.scheduler
      ensures Valid() && View() == HandleSync(old(View()), result)
    {
      SeeSync(result.timing.placement == Inside);
      if result.event == Acquired {
        var _ := fsm.Handle(SyncAcquired);
        reports := reports + [ReportAcquired];
      }
      if result.event == Lost {
        LoseReference();
        reports := reports + [ReportLost];
      }
    }

    method SeeSync(inside: bool)
      requires Valid()
      modifies this, fsm
      ensures Valid() && View() == SyncSeen(old(View()), inside)
    {
      consecutiveMisses, recoveryProbeIndex := 0, 0;
      if fsm.state == Recovery {
        var _ := fsm.Handle(SyncRecovered);
      }
      if fsm.state == Searching && inside {
        var _ := fsm.Handle(FirstSync);
      }
    }

    /** The miss reaches both counters; an initialized controller never refuses it. */
    method CountMiss() returns (outcome: Result<SyncEvent, ControllerStatus>)
      requires Valid()
      modifies this, controller.Repr()
      ensures Valid()
      ensures outcome.Ok? && TimeoutStep(View().controller, outcome) == HandleTimeout(old(View()).controller)
      ensures View() == old(View()).(misses := (old(consecutiveMisses) + 1) % 0x1_0000_0000,
                                     controller := View().controller)
    {
      consecutiveMisses := (consecutiveMisses + 1) % 0x1_0000_0000;
      outcome := controller.HandleSilence();
    }

    method OnMiss()
      requires Valid()
      modifies Repr()
      ensures Valid() && View() == HandleMiss(old(View()))
    {
      var wasSynchronizing := fsm.state == Synchronizing;
      var outcome := CountMiss();
      if outcome.Err? {
        assert false;
      }
      if outcome.value == Lost {
        var _ := fsm.Handle(SyncLost);
        reports := reports + [ReportLost];
        consecutiveMisses, recoveryProbeIndex := 0, 0;
      } else if wasSynchronizing {
        LoseReference();
        consecutiveMisses := 0;
      } else if fsm.state == FsmState.Tracking && consecutiveMisses >= config.recoveryEntry {
        var _ := fsm.Handle(SyncDegraded);
        recoveryProbeIndex := 0;
      }
    }

    method OnInvalidSync()
      requires Valid()
      modifies Repr()
      ensures Valid() && View() == HandleInvalidSync(old(View()))
    {
      if fsm.state == FsmState.Tracking || fsm.state == Recovery {
        OnMiss();
      }
    }

    method OnSessionEnd(rendezvousOk: bool) returns (resumed: bool)
      requires Valid()
      modifies Repr()
      ensures Valid()
      ensures SessionEnd(View(), resumed) == HandleSessionEnd(old(View()), rendezvousOk)
    {
      fsm.state := Stopped;
      InitControllerIsReady(config.controller);
      var status := controller.Init(config.controller);
      var accepted := false;
      if status.Ok? {
        accepted := fsm.Handle(StartRx);
      }
      if !accepted {
        reports := reports + [ReportError];
        return false;
      }
      consecutiveMisses, recoveryProbeIndex := 0, 0;
      if !rendezvousOk {
        reports := reports + [ReportError];
        return false;
      }
      resumed := true;
    }

    /** One step of the receive loop under the environment's choices. */
    method Advance(i: Input)
      requires Valid()
      modifies Repr()
      ensures Valid() && View() == Step(old(View()), i)
      ensures old(Consistent(View())) ==> Consistent(View())
    {
      if Consistent(View()) {
        StepConsistent(View(), i);
      }
      match point
      case Top =>
        if fsm.state == Searching {
          Search(i);
        } else if NextSwitch(controller.scheduler.View(), i.now).Ok? {
          point := Drain;
        } else {
          LoseReference();
        }
      case Drain => DrainSlot(i);
      case Scheduled => ListenScheduled(i);
    }

    method Search(i: Input)
      requires Valid() && point == Top && fsm.state == Searching
      modifies Repr()
      ensures Valid() && View() == SearchStep(old(View()), i)
    {
      if !i.selectOk {
        reports := reports + [ReportError];
        return;
      }
      var got := Receive(i.received);
      if got.GotSync? {
        OnSync(got.result);
      }
    }

    method DrainSlot(i: Input)
      requires Valid() && point == Drain
      modifies Repr()
      ensures Valid() && View() == DrainStep(old(View()), i)
    {
      if i.deadline {
        point := Scheduled;
        return;
      }
      var got := Receive(i.received);
      if got.GotData? {
        return;
      }
      if got.GotSessionEnd? {
        var resumed := OnSessionEnd(i.rendezvousOk);
        point := if resumed then Top else Scheduled;
        return;
      }
      if got.GotSync? {
        OnSync(got.result);
        return;
      }
      if got.GotTimeout? || got.GotCrcFail? {
        return;
      }
      point := Scheduled;
    }

    method ListenScheduled(i: Input)
      requires Valid() && point == Scheduled
      modifies Repr()
      ensures Valid() && View() == ScheduledStep(old(View()), i)
    {
      PickProbe();
      if i.selectOk {
        var got := Receive(i.received);
        Act(got, i.rendezvousOk);
      } else {
        reports := reports + [ReportError];
      }
      point := Top;
    }

    method PickProbe()
      requires Valid()
      modifies this`recoveryProbeIndex
      ensures Valid() && View() == ChooseProbe(old(View()))
    {
      if fsm.state == Recovery {
        recoveryProbeIndex := (recoveryProbeIndex + 1) % 0x100;
      }
    }

    /** React to the slot's scheduled reception. */
    method Act(got: ReceiveResult, rendezvousOk: bool)
      requires Valid()
      modifies Repr()
      ensures Valid() && View() == Conclude(old(View()), got, rendezvousOk)
    {
      match got
      case GotSync(result) => OnSync(result);
      case GotSessionEnd => var _ := OnSessionEnd(rendezvousOk);
      case GotData =>
      case GotTimeout => OnMiss();
      case GotCrcFail => OnMiss();
      case GotSyncError => OnInvalidSync();
      case GotRadioError => reports := reports + [ReportError];
    }
  }
}
