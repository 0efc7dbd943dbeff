/** What every run of the RX service keeps: the three state holders agree, losses follow the
    configured schedule, reports pair up, and exactly when the service gets stranded. */
module RxSafety {
  import opened CTypes
  import opened PhaseCorrection
  import opened SlotScheduler
  import opened SyncTracker
  import opened ClockModel
  import opened RxModel

  // ---------------------------------------------------------------- the invariant

  ghost predicate Consistent(s: Service) {
    && s.config.Valid()
    && s.controller.Ready()
    && s.controller.core.tracker.config == s.config.controller.sync
    && s.misses < s.LossCount()
    && (match s.fsm
        case Searching => !s.Synchronized() && (s.point != Top ==> !s.Locked() && s.misses == 0)
        case Synchronizing => s.Synchronized() && s.misses == 0
        case Tracking =>
          s.Locked() && s.Synchronized() && s.misses <= s.TrackerMisses() && s.misses < s.config.recoveryEntry
        case Recovery =>
          s.Locked() && s.Synchronized() && s.misses <= s.TrackerMisses() && s.misses >= s.config.recoveryEntry
        case _ => false)
    && Matched(s.reports)
    && (s.Locked() ==> Open(s.reports))
  }

  /** An ACQUIRED at i with no LOST between it and j. */
  ghost predicate OpenAt(r: seq<Report>, i: int, j: int) {
    0 <= i < j <= |r| && r[i] == ReportAcquired && forall k | i < k < j :: r[k] != ReportLost
  }

  ghost predicate Open(r: seq<Report>) {
    exists i :: OpenAt(r, i, |r|)
  }

  /** Every LOST has an ACQUIRED before it that no other LOST separates from it, so distinct LOSTs
      have distinct ACQUIREDs. */
  ghost predicate Matched(r: seq<Report>) {
    forall j | 0 <= j < |r| && r[j] == ReportLost :: exists i :: OpenAt(r, i, j)
  }

  lemma Reported(r: seq<Report>, e: Report)
    requires Matched(r) && (e == ReportLost ==> Open(r))
    ensures Matched(r + [e])
    ensures e == ReportAcquired || (e == ReportError && Open(r)) ==> Open(r + [e])
  {
    var r' := r + [e];
    forall j | 0 <= j < |r'| && r'[j] == ReportLost
      ensures exists i :: OpenAt(r', i, j)
    {
      var i :| OpenAt(r, i, j);
      assert OpenAt(r', i, j);
    }
    if e == ReportAcquired {
      assert OpenAt(r', |r|, |r'|);
    } else if e == ReportError && Open(r) {
      var i :| OpenAt(r, i, |r|);
      assert OpenAt(r', i, |r'|);
    }
  }

  /** Facts about one SYNC that a handler relies on. */
  ghost predicate SyncFacts(before: Service, after: Service, result: RxResult) {
    && after.controller.Ready() && after.Synchronized()
    && after == before.(controller := after.controller)
    && OnInput(before.controller.core.tracker, result.timing.placement == Inside)
       == Tracked(after.controller.core.tracker, result.event)
    && (!before.Synchronized() || before.fsm == Recovery ==> result.timing.placement == Inside)
  }

  lemma ReceiveFacts(s: Service, r: Received)
    requires s.controller.Ready()
    ensures var got := ReceiveOne(s, r);
            && got.service.controller.Ready()
            && got.service == s.(controller := got.service.controller)
            && got.service.controller.core.tracker.config == s.controller.core.tracker.config
            && (match got.result
                case GotSync(result) => SyncFacts(s, got.service, result)
                case _ =>
                  && got.service.controller.core.tracker == s.controller.core.tracker
                  && got.service.controller.lattice == s.controller.lattice)
  {
    match r
    case SyncBytes(buffer, rx) =>
      ProcessRxIsTransactional(s.controller, buffer, rx);
      RecoverRxIsTransactional(s.controller, buffer, rx);
    case Payload(endsSession, newSeed) =>
      if newSeed.Some? {
        RekeyStaysReady(s.controller.core, newSeed.value, s.config.controller.reservedChannel);
      }
    case _ =>
  }

  lemma HandleSyncConsistent(before: Service, s: Service, result: RxResult)
    requires Consistent(before) && SyncFacts(before, s, result)
    ensures Consistent(HandleSync(s, result))
  {
    match result.event
    case NoEvent =>
    case Acquired => Reported(s.reports, ReportAcquired);
    case Lost => Reported(s.reports, ReportLost);
  }

  lemma HandleMissConsistent(s: Service)
    requires Consistent(s) && s.point != Top
    ensures Consistent(HandleMiss(s).(point := Top))
  {
    if s.Locked() {
      Reported(s.reports, ReportLost);
    }
  }

  lemma SessionEndConsistent(s: Service, rendezvousOk: bool)
    requires Consistent(s)
    ensures var ended := HandleSessionEnd(s, rendezvousOk).service;
            Consistent(ended) && ended.fsm == Searching && !ended.Locked() && ended.misses == 0
  {
    InitControllerIsReady(s.config.controller);
    Reported(s.reports, ReportError);
  }

  /** A reception that moves neither tracker nor lattice. */
  lemma BystanderConsistent(s: Service, s': Service)
    requires Consistent(s) && s' == s.(controller := s'.controller) && s'.controller.Ready()
    requires s'.controller.core.tracker == s.controller.core.tracker && s'.controller.lattice == s.controller.lattice
    ensures Consistent(s')
  {}

  lemma ErrorConsistent(s: Service)
    requires Consistent(s)
    ensures Consistent(s.(reports := s.reports + [ReportError]))
  {
    Reported(s.reports, ReportError);
  }

  lemma SearchStepConsistent(s: Service, i: Input)
    requires Consistent(s) && s.point == Top
    ensures Consistent(SearchStep(s, i))
  {
    ErrorConsistent(s);
    ReceiveFacts(s, i.received);
    var r := ReceiveOne(s, i.received);
    if r.result.GotSync? {
      HandleSyncConsistent(s, r.service, r.result.result);
    } else {
      BystanderConsistent(s, r.service);
    }
  }

  lemma DrainStepConsistent(s: Service, i: Input)
    requires Consistent(s) && s.point == Drain
    ensures Consistent(DrainStep(s, i))
  {
    ReceiveFacts(s, i.received);
    var r := ReceiveOne(s, i.received);
    if r.result.GotSync? {
      HandleSyncConsistent(s, r.service, r.result.result);
    } else {
      BystanderConsistent(s, r.service);
      if r.result.GotSessionEnd? {
        SessionEndConsistent(r.service, i.rendezvousOk);
      }
    }
  }

  lemma ConcludeConsistent(s: Service, result: ReceiveResult, rendezvousOk: bool)
    requires Consistent(s) && s.point == Scheduled && !result.GotSync?
    ensures Consistent(Conclude(s, result, rendezvousOk).(point := Top))
  {
    match result
    case GotSessionEnd => SessionEndConsistent(s, rendezvousOk);
    case GotData =>
    case GotTimeout | GotCrcFail | GotSyncError => HandleMissConsistent(s);
    case GotRadioError => ErrorConsistent(s);
  }

  lemma ListenConsistent(s: Service, i: Input)
    requires Consistent(s) && s.point == Scheduled
    ensures Consistent(Listen(s, i).(point := Top))
  {
    if i.selectOk {
      ReceiveFacts(s, i.received);
      var r := ReceiveOne(s, i.received);
      if r.result.GotSync? {
        HandleSyncConsistent(s, r.service, r.result.result);
        TopConsistent(HandleSync(r.service, r.result.result));
      } else {
        BystanderConsistent(s, r.service);
        ConcludeConsistent(r.service, r.result, i.rendezvousOk);
      }
    } else {
      ErrorConsistent(s);
    }
  }

  lemma ChooseProbeConsistent(s: Service)
    requires Consistent(s)
    ensures Consistent(ChooseProbe(s)) && ChooseProbe(s).point == s.point
  {}

  lemma TopConsistent(s: Service)
    requires Consistent(s)
    ensures Consistent(s.(point := Top))
  {}

  lemma StepConsistent(s: Service, i: Input)
    requires Consistent(s)
    ensures Consistent(Step(s, i)) && Step(s, i).config == s.config
  {
    match s.point
    case Top =>
      if s.fsm == Searching {
        SearchStepConsistent(s, i);
      }
    case Drain => DrainStepConsistent(s, i);
    case Scheduled =>
      ChooseProbeConsistent(s);
      ListenConsistent(ChooseProbe(s), i);
  }

  ghost function Run(s: Service, inputs: seq<Input>): Service
    requires Consistent(s)
    decreases |inputs|
  {
    if inputs == [] then s
    else
      StepConsistent(s, inputs[0]);
      Run(Step(s, inputs[0]), inputs[1..])
  }

  lemma StartedConsistent(config: ServiceConfig)
    requires config.Valid()
    ensures Consistent(Started(config))
  {
    InitControllerIsReady(config.controller);
  }

  lemma {:induction false} RunConsistent(s: Service, inputs: seq<Input>)
    requires Consistent(s)
    ensures Consistent(Run(s, inputs)) && Run(s, inputs).config == s.config
    decreases |inputs|
  {
    if inputs != [] {
      StepConsistent(s, inputs[0]);
      RunConsistent(Step(s, inputs[0]), inputs[1..]);
    }
  }

  /** From start-up, after any number of steps on any radio inputs: TRACKING and RECOVERY have a
      locked tracker, a synchronized scheduler and a service miss count on their own side of the
      recovery threshold that never exceeds the tracker's, which stays below the loss limit;
      SYNCHRONIZING is synchronized and SEARCHING is not; the loop never runs in another state;
      and every reported loss is paired with an acquisition of its own. */
  lemma EveryRunIsConsistent(config: ServiceConfig, inputs: seq<Input>)
    requires config.Valid()
    ensures Consistent(Started(config))
    ensures var s := Run(Started(config), inputs);
            && (s.fsm == Tracking || s.fsm == Recovery ==>
                  s.Locked() && s.Synchronized() && s.misses <= s.TrackerMisses() < config.controller.sync.lossCount)
            && (s.fsm == Tracking ==> s.misses < config.recoveryEntry)
            && (s.fsm == Recovery ==> s.misses >= config.recoveryEntry)
            && (s.fsm == Synchronizing ==> s.Synchronized())
            && (s.fsm == Searching ==> !s.Synchronized())
            && s.fsm in {Searching, Synchronizing, FsmState.Tracking, Recovery}
            && Matched(s.reports)
  {
    StartedConsistent(config);
    RunConsistent(Started(config), inputs);
  }

  // ---------------------------------------------------------------- loss schedule

  /** The step takes a reception. */
  predicate Listens(s: Service, i: Input) {
    (s.point == Drain && !i.deadline) || (s.point == Scheduled && i.selectOk)
  }

  /** No SYNC is accepted, no session ends, and the loop head finds its next switch. Silence, corrupt
      frames, refused SYNCs, payloads, radio errors and refused channels may come in any order. */
  predicate Quiet(s: Service, i: Input)
    requires s.controller.Ready()
  {
    && (s.point == Top ==> NextSwitch(s.controller.lattice, i.now).Ok?)
    && (Listens(s, i) ==>
          !ReceiveOne(s, i.received).result.GotSync? && !ReceiveOne(s, i.received).result.GotSessionEnd?)
  }

  /** The slot's scheduled reception is a miss: silent, corrupt, or a SYNC that is refused. */
  predicate SlotMissed(s: Service, i: Input)
    requires s.controller.Ready()
  {
    && s.point == Scheduled && i.selectOk
    && var result := ReceiveOne(s, i.received).result;
       result.GotTimeout? || result.GotCrcFail? || result.GotSyncError?
  }

  ghost predicate QuietRun(s: Service, inputs: seq<Input>)
    requires Consistent(s)
    decreases |inputs|
  {
    inputs == [] ||
    (Quiet(s, inputs[0]) &&
     Consistent(Step(s, inputs[0])) && QuietRun(Step(s, inputs[0]), inputs[1..]))
  }

  /** How many slots the run misses. */
  ghost function SlotsMissed(s: Service, inputs: seq<Input>): nat
    requires Consistent(s)
    decreases |inputs|
  {
    if inputs == [] then 0
    else
      StepConsistent(s, inputs[0]);
      (if SlotMissed(s, inputs[0]) then 1 else 0) + SlotsMissed(Step(s, inputs[0]), inputs[1..])
  }

  /** Tracking or recovering after k missed slots in a row. */
  predicate Missed(s: Service, k: nat) {
    && s.misses == k && s.TrackerMisses() == k
    && s.fsm == (if k < s.config.recoveryEntry then FsmState.Tracking else Recovery)
  }

  /** Nothing is lost: the counters stand at k, the reference is kept and nothing but errors reported. */
  predicate StillHeld(before: Service, s: Service, k: nat) {
    Missed(s, k) && s.controller.lattice == before.controller.lattice &&
    SyncReports(s.reports) == SyncReports(before.reports)
  }

  /** The loss: one report, no lock, no reference, searching again. */
  predicate JustLost(before: Service, s: Service) {
    && s.fsm == Searching && !s.Locked() && !s.Synchronized() && s.misses == 0
    && SyncReports(s.reports) == SyncReports(before.reports) + [ReportLost]
  }

  lemma QuietDrain(s: Service, i: Input, k: nat)
    requires Consistent(s) && Missed(s, k) && Quiet(s, i) && s.point == Drain
    ensures StillHeld(s, Step(s, i), k)
  {
    ReceiveFacts(s, i.received);
  }

  lemma MissCounts(s: Service, k: nat)
    requires Consistent(s) && Missed(s, k)
    ensures k + 1 < s.LossCount() ==> StillHeld(s, HandleMiss(s), k + 1)
    ensures k + 1 == s.LossCount() ==> JustLost(s, HandleMiss(s))
  {
    LossCounts(s.reports);
  }

  lemma QuietListen(s: Service, i: Input, k: nat)
    requires Consistent(s) && Missed(s, k) && Quiet(s, i) && s.point == Scheduled
    ensures !SlotMissed(s, i) ==> StillHeld(s, Listen(s, i), k)
    ensures SlotMissed(s, i) && k + 1 < s.LossCount() ==> StillHeld(s, Listen(s, i), k + 1)
    ensures SlotMissed(s, i) && k + 1 == s.LossCount() ==> JustLost(s, Listen(s, i))
  {
    ErrorsDoNotCount(s.reports);
    if i.selectOk {
      ReceiveFacts(s, i.received);
      var r := ReceiveOne(s, i.received);
      BystanderConsistent(s, r.service);
      MissCounts(r.service, k);
    }
  }

  /** Counting the probe changes nothing that is received. */
  lemma ProbeIsSilent(s: Service, r: Received)
    requires s.controller.Ready()
    ensures ReceiveOne(ChooseProbe(s), r).result == ReceiveOne(s, r).result
    ensures ReceiveOne(ChooseProbe(s), r).service == ChooseProbe(ReceiveOne(s, r).service)
  {}

  /** One quiet scheduled reception. */
  lemma QuietScheduled(s: Service, i: Input, k: nat)
    requires Consistent(s) && Missed(s, k) && Quiet(s, i) && s.point == Scheduled
    ensures !SlotMissed(s, i) ==> StillHeld(s, Step(s, i), k)
    ensures SlotMissed(s, i) && k + 1 < s.LossCount() ==> StillHeld(s, Step(s, i), k + 1)
    ensures SlotMissed(s, i) && k + 1 == s.LossCount() ==> JustLost(s, Step(s, i))
  {
    ProbeIsSilent(s, i.received);
    ChooseProbeConsistent(s);
    QuietListen(ChooseProbe(s), i, k);
  }

  /** One quiet step of the schedule. */
  lemma QuietStep(s: Service, i: Input, k: nat)
    requires Consistent(s) && Missed(s, k) && Quiet(s, i)
    ensures !SlotMissed(s, i) ==> StillHeld(s, Step(s, i), k)
    ensures SlotMissed(s, i) && k + 1 < s.LossCount() ==> StillHeld(s, Step(s, i), k + 1)
    ensures SlotMissed(s, i) && k + 1 == s.LossCount() ==> JustLost(s, Step(s, i))
  {
    match s.point
    case Top =>
    case Drain => QuietDrain(s, i, k);
    case Scheduled => QuietScheduled(s, i, k);
  }

  /** From clean TRACKING, however the missed slots are interleaved with payloads, radio errors and
      refused channels: k missed slots leave TRACKING below the recovery threshold and RECOVERY
      from it on, with the reference kept and no loss reported, as long as k is below lossCount... */
  lemma {:induction false} LossSchedule(s: Service, inputs: seq<Input>, k: nat)
    requires Consistent(s) && Missed(s, k) && QuietRun(s, inputs)
    requires k + SlotsMissed(s, inputs) < s.LossCount()
    ensures StillHeld(s, Run(s, inputs), k + SlotsMissed(s, inputs))
    decreases |inputs|
  {
    if inputs != [] {
      var i, s1 := inputs[0], Step(s, inputs[0]);
      QuietStep(s, i, k);
      LossSchedule(s1, inputs[1..], if SlotMissed(s, i) then k + 1 else k);
    }
  }

  /** ... and missed slot number lossCount reports exactly one SYNC_LOST, drops the lock and the
      reference, and returns to SEARCHING. */
  lemma LossAtLimit(s: Service, inputs: seq<Input>, last: Input)
    requires Consistent(s) && Missed(s, 0) && QuietRun(s, inputs)
    requires SlotsMissed(s, inputs) == s.LossCount() - 1
    requires Run(s, inputs).controller.Ready() && SlotMissed(Run(s, inputs), last)
    ensures JustLost(s, Run(s, inputs + [last]))
  {
    LossSchedule(s, inputs, 0);
    RunConsistent(s, inputs);
    QuietStep(Run(s, inputs), last, s.LossCount() - 1);
    RunAppend(s, inputs, last);
  }

  lemma {:induction false} RunAppend(s: Service, inputs: seq<Input>, last: Input)
    requires Consistent(s)
    ensures Consistent(Run(s, inputs))
    ensures Run(s, inputs + [last]) == Step(Run(s, inputs), last)
    decreases |inputs|
  {
    RunConsistent(s, inputs);
    if inputs == [] {
      assert (inputs + [last])[1..] == [];
    } else {
      StepConsistent(s, inputs[0]);
      RunAppend(Step(s, inputs[0]), inputs[1..], last);
      assert (inputs + [last])[1..] == inputs[1..] + [last];
    }
  }

  // ---------------------------------------------------------------- the two miss counters

  /** The step accepts a SYNC outside the timing window. */
  predicate AcceptsOutside(s: Service, i: Input)
    requires s.controller.Ready()
  {
    Listens(s, i) && ReceiveOne(s, i.received).result.GotSync? &&
    ReceiveOne(s, i.received).result.result.timing.placement != Inside
  }

  /** While the service holds its synchronization, service and tracker go on counting the same misses
      unless a SYNC outside the window is accepted: that one clears the first counter and advances
      the second. */
  lemma CountersPart(s: Service, i: Input)
    requires Consistent(s) && (s.fsm == FsmState.Tracking || s.fsm == Recovery) && s.misses == s.TrackerMisses()
    requires Step(s, i).fsm == FsmState.Tracking || Step(s, i).fsm == Recovery
    ensures Step(s, i).misses == Step(s, i).TrackerMisses() <==> !AcceptsOutside(s, i)
  {
    if s.point == Drain {
      CountersPartDraining(s, i);
    } else if s.point == Scheduled {
      ProbeIsSilent(s, i.received);
      ChooseProbeConsistent(s);
      CountersPartListening(ChooseProbe(s), i);
    }
  }

  lemma CountersPartDraining(s: Service, i: Input)
    requires Consistent(s) && (s.fsm == FsmState.Tracking || s.fsm == Recovery) && s.misses == s.TrackerMisses()
    requires s.point == Drain && (Step(s, i).fsm == FsmState.Tracking || Step(s, i).fsm == Recovery)
    ensures Step(s, i).misses == Step(s, i).TrackerMisses() <==> !AcceptsOutside(s, i)
  {
    ReceiveFacts(s, i.received);
  }

  lemma CountersPartListening(s: Service, i: Input)
    requires Consistent(s) && (s.fsm == FsmState.Tracking || s.fsm == Recovery) && s.misses == s.TrackerMisses()
    requires s.point == Scheduled && (Listen(s, i).fsm == FsmState.Tracking || Listen(s, i).fsm == Recovery)
    ensures Listen(s, i).misses == Listen(s, i).TrackerMisses() <==> !AcceptsOutside(s, i)
  {
    ReceiveFacts(s, i.received);
  }

  // ---------------------------------------------------------------- the stranded receiver

  /** The FSM searches or synchronizes although the tracker still believes it is locked. */
  predicate Stranded(s: Service) {
    s.Locked() && (s.fsm == Searching || s.fsm == Synchronizing)
  }

  /** The next empty slot cannot make the tracker give up. */
  predicate OneMissSpare(s: Service) {
    s.fsm == Synchronizing ==> s.TrackerMisses() + 1 < s.LossCount()
  }

  /** No session end, and no accepted SYNC outside the timing window. */
  predicate Calm(s: Service, i: Input)
    requires s.controller.Ready()
  {
    match i.received
    case Payload(endsSession, _) => !endsSession
    case SyncBytes(buffer, rx) =>
      var outcome := ProcessRx(s.controller, buffer, rx).outcome;
      outcome.Ok? ==> outcome.value.timing.placement == Inside
    case _ => true
  }

  /** The reports other than errors. */
  function SyncReports(r: seq<Report>): seq<Report> {
    if r == [] then []
    else SyncReports(r[..|r| - 1]) + if r[|r| - 1] == ReportError then [] else [r[|r| - 1]]
  }

  lemma ErrorsDoNotCount(r: seq<Report>)
    ensures SyncReports(r + [ReportError]) == SyncReports(r)
  {
    assert (r + [ReportError])[..|r|] == r;
  }

  lemma LossCounts(r: seq<Report>)
    ensures SyncReports(r + [ReportLost]) == SyncReports(r) + [ReportLost]
  {
    assert (r + [ReportLost])[..|r|] == r;
  }

  lemma StrandedTop(s: Service, i: Input)
    requires Consistent(s) && Stranded(s) && OneMissSpare(s) && Calm(s, i) && s.point == Top
    ensures var s' := Step(s, i);
            Stranded(s') && OneMissSpare(s') && SyncReports(s'.reports) == SyncReports(s.reports)
  {
    ErrorsDoNotCount(s.reports);
    ReceiveFacts(s, i.received);
  }

  lemma StrandedDrain(s: Service, i: Input)
    requires Consistent(s) && Stranded(s) && OneMissSpare(s) && Calm(s, i) && s.point == Drain
    ensures var s' := Step(s, i);
            Stranded(s') && OneMissSpare(s') && SyncReports(s'.reports) == SyncReports(s.reports)
  {
    ErrorsDoNotCount(s.reports);
    ReceiveFacts(s, i.received);
  }

  lemma StrandedScheduled(s: Service, i: Input)
    requires Consistent(s) && Stranded(s) && OneMissSpare(s) && Calm(s, i) && s.point == Scheduled
    ensures var s' := Step(s, i);
            Stranded(s') && OneMissSpare(s') && SyncReports(s'.reports) == SyncReports(s.reports)
  {
    ErrorsDoNotCount(s.reports);
    ReceiveFacts(s, i.received);
  }

  lemma StrandedStep(s: Service, i: Input)
    requires Consistent(s) && Stranded(s) && OneMissSpare(s) && Calm(s, i)
    ensures var s' := Step(s, i);
            Stranded(s') && OneMissSpare(s') && SyncReports(s'.reports) == SyncReports(s.reports)
  {
    match s.point
    case Top => StrandedTop(s, i);
    case Drain => StrandedDrain(s, i);
    case Scheduled => StrandedScheduled(s, i);
  }

  ghost predicate CalmRun(s: Service, inputs: seq<Input>)
    requires Consistent(s)
    decreases |inputs|
  {
    inputs == [] ||
    (Calm(s, inputs[0]) &&
     Consistent(Step(s, inputs[0])) && CalmRun(Step(s, inputs[0]), inputs[1..]))
  }

  /** A stranded receiver stays stranded: whatever valid in-window SYNCs, silence, corrupt frames,
      payloads, invalid SYNCs and radio errors follow, in any number, it never tracks again and never
      reports an acquisition or a loss. */
  lemma {:induction false} StrandedForever(s: Service, inputs: seq<Input>)
    requires Consistent(s) && Stranded(s) && OneMissSpare(s) && CalmRun(s, inputs)
    ensures var s' := Run(s, inputs);
            Stranded(s') && s'.fsm != Tracking && SyncReports(s'.reports) == SyncReports(s.reports)
    decreases |inputs|
  {
    if inputs != [] {
      StrandedStep(s, inputs[0]);
      StrandedForever(Step(s, inputs[0]), inputs[1..]);
    }
  }

  /** The only ways out of being stranded are the tracker itself giving up, which is reported as a
      loss, and a peer's session end, which resets it. */
  lemma WaysOut(s: Service, i: Input)
    requires Consistent(s) && Stranded(s) && !Stranded(Step(s, i))
    ensures var s' := Step(s, i);
            && s'.fsm == Searching && !s'.Locked()
            && (s'.reports == s.reports + [ReportLost] || (i.received.Payload? && i.received.endsSession))
  {
    if s.point == Top {
      HeadKeepsStranded(s, i);
    } else if s.point == Drain {
      WaysOutDraining(s, i);
    } else {
      WaysOutListening(s, i);
    }
  }

  lemma HeadKeepsStranded(s: Service, i: Input)
    requires Consistent(s) && Stranded(s) && s.point == Top
    ensures Stranded(Step(s, i))
  {
    ReceiveFacts(s, i.received);
  }

  lemma WaysOutDraining(s: Service, i: Input)
    requires Consistent(s) && Stranded(s) && s.point == Drain && !Stranded(Step(s, i))
    ensures var s' := Step(s, i);
            && s'.fsm == Searching && !s'.Locked()
            && (s'.reports == s.reports + [ReportLost] || (i.received.Payload? && i.received.endsSession))
  {
    ReceiveFacts(s, i.received);
  }

  lemma WaysOutListening(s: Service, i: Input)
    requires Consistent(s) && Stranded(s) && s.point == Scheduled && !Stranded(Step(s, i))
    ensures var s' := Step(s, i);
            && s'.fsm == Searching && !s'.Locked()
            && (s'.reports == s.reports + [ReportLost] || (i.received.Payload? && i.received.endsSession))
  {
    ReceiveFacts(s, i.received);
  }

  lemma HeadStrands(s: Service, i: Input)
    requires Consistent(s) && !Stranded(s) && s.point == Top
    ensures Stranded(Step(s, i)) <==>
              && (s.fsm == FsmState.Tracking || s.fsm == Recovery)
              && NextSwitch(s.controller.lattice, i.now).Err?
  {
    ReceiveFacts(s, i.received);
  }

  lemma DrainNeverStrands(s: Service, i: Input)
    requires Consistent(s) && !Stranded(s) && s.point == Drain
    ensures !Stranded(Step(s, i))
  {
    ReceiveFacts(s, i.received);
  }

  lemma ScheduledNeverStrands(s: Service, i: Input)
    requires Consistent(s) && !Stranded(s) && s.point == Scheduled
    ensures !Stranded(Step(s, i))
  {
    ReceiveFacts(ChooseProbe(s), i.received);
  }

  /** Where stranding comes from: only from the loop head of a tracking or recovering service, and
      there exactly when the scheduler cannot place the next switch. */
  lemma StrandedAtHead(s: Service, i: Input)
    requires Consistent(s) && !Stranded(s)
    ensures Stranded(Step(s, i)) <==>
              && s.point == Top && (s.fsm == FsmState.Tracking || s.fsm == Recovery)
              && NextSwitch(s.controller.lattice, i.now).Err?
  {
    if s.point == Top {
      HeadStrands(s, i);
    } else if s.point == Drain {
      DrainNeverStrands(s, i);
    } else {
      ScheduledNeverStrands(s, i);
    }
  }

  /** A tracked, in-window SYNC in the scheduled reception: only the controller moves. */
  lemma ScheduledSync(s: Service, i: Input)
    requires Consistent(s) && s.point == Scheduled && s.fsm == FsmState.Tracking && i.selectOk && i.received.SyncBytes?
    requires var outcome := ProcessRx(s.controller, i.received.buffer, i.received.rx).outcome;
             outcome.Ok? && outcome.value.timing.placement == Inside
    ensures var s' := Step(s, i);
            && s'.point == Top && s'.fsm == FsmState.Tracking && s'.misses == 0
            && s'.controller == ProcessRx(s.controller, i.received.buffer, i.received.rx).controller
  {
    ReceiveFacts(s, i.received);
  }

  /** How it happens in the field. A SYNC that is early by more than the deadband, yet inside the
      window, moves the reference to an instant that is still in the future when the packet is
      received; if the loop head is reached before that instant, the service is stranded although
      the SYNC was valid. */
  lemma EarlySyncStrands(s: Service, i: Input, head: Input)
    requires Consistent(s) && s.point == Scheduled && s.fsm == FsmState.Tracking && i.selectOk && i.received.SyncBytes?
    requires var outcome := ProcessRx(s.controller, i.received.buffer, i.received.rx).outcome;
             && outcome.Ok? && outcome.value.timing.placement == Inside
             && outcome.value.timing.error < 0 - s.controller.gain.deadband
    ensures Consistent(Step(s, i))
    ensures var reference := Step(s, i).controller.lattice.referenceTime;
            && i.received.rx - s.controller.syncOffset + s.controller.gain.deadband <= reference
            && (head.now < reference ==> Stranded(Step(Step(s, i), head)))
  {
    EarlySyncPutsReferenceAhead(s.controller, i.received.buffer, i.received.rx);
    ScheduledSync(s, i);
    StepConsistent(s, i);
    HeadStrands(Step(s, i), head);
  }
}
