/** What single events do to the receiving service: a seed announcement retunes it, a session end resets
    it, and in-window SYNCs acquire it. */
module RxEvents {
  import opened CTypes
  import opened PhaseCorrection
  import opened SlotScheduler
  import opened SyncTracker
  import opened HopSequence
  import opened ClockModel
  import opened RxModel
  import opened RxSafety

  // ---------------------------------------------------------------- the configuration stays in force

  /** Everything the controller took from the configuration but the hop table, which announcements replace. */
  predicate Configured(s: Service) {
    var c, config := s.controller, s.config.controller;
    && c.core.hop.channels == config.channels && c.core.generation == config.generation
    && c.core.window == config.window && c.core.tracker.config == config.sync
    && c.lattice.config == config.slots && c.syncOffset == config.syncOffset && c.gain == config.gain
  }

  lemma ReceiveKeepsConfiguration(s: Service, r: Received)
    requires s.controller.Ready() && Configured(s)
    ensures Configured(ReceiveOne(s, r).service)
  {
    ReceiveFacts(s, r);
  }

  lemma ConcludeKeepsConfiguration(s: Service, result: ReceiveResult, rendezvousOk: bool)
    requires s.controller.Ready() && Configured(s)
    ensures Configured(Conclude(s, result, rendezvousOk))
  {}

  lemma StepKeepsConfiguration(s: Service, i: Input)
    requires Consistent(s) && Configured(s)
    ensures Configured(Step(s, i))
  {
    ReceiveKeepsConfiguration(s, i.received);
    var r := ReceiveOne(s, i.received);
    ConcludeKeepsConfiguration(r.service, r.result, i.rendezvousOk);
    if s.point == Scheduled {
      ReceiveKeepsConfiguration(ChooseProbe(s), i.received);
      var probed := ReceiveOne(ChooseProbe(s), i.received);
      ConcludeKeepsConfiguration(probed.service, probed.result, i.rendezvousOk);
    }
  }

  lemma {:induction false} RunKeepsConfiguration(s: Service, inputs: seq<Input>)
    requires Consistent(s) && Configured(s)
    ensures Configured(Run(s, inputs))
    decreases |inputs|
  {
    if inputs != [] {
      StepConsistent(s, inputs[0]);
      StepKeepsConfiguration(s, inputs[0]);
      RunKeepsConfiguration(Step(s, inputs[0]), inputs[1..]);
    }
  }

  // ---------------------------------------------------------------- seed announcements

  /** The step's reception leaves the link alone: where the loop goes next. */
  function Passed(s: Service): Service {
    if s.point == Scheduled then ChooseProbe(s).(point := Top) else s
  }

  /** Outside SEARCHING an announcement replaces the hop table by the one its seed gives for the configured
      channels, and moves nothing else. */
  lemma AnnouncementRetunes(s: Service, i: Input, seed: bv32)
    requires Consistent(s) && Configured(s) && Listens(s, i) && s.fsm != Searching
    requires i.received == Payload(false, Some(seed))
    ensures var hop := InitHop(s.config.controller.channels, seed, Some(s.config.controller.reservedChannel));
            && hop.Ok? && hop.value.Ready()
            && Step(s, i) == Passed(s).(controller := s.controller.(core := s.controller.core.(hop := hop.value)))
  {
    InitHopIsReady(s.config.controller.channels, seed, Some(s.config.controller.reservedChannel));
  }

  /** From then on every SYNC of a sender that hops by the announced seed passes the receiver's checks,
      in every slot; over every run from start-up. */
  lemma AnnouncedSenderIsHeard(config: ServiceConfig, inputs: seq<Input>, i: Input, seed: bv32,
                               sender: Core, slot: uint32, sequence: uint16)
    requires config.Valid() && Consistent(Started(config))
    requires var s := Run(Started(config), inputs); Listens(s, i) && s.fsm != Searching
    requires i.received == Payload(false, Some(seed))
    requires sender.Ready() && sender.generation == config.controller.generation
    requires Ok(sender.hop) == InitHop(config.controller.channels, seed, Some(config.controller.reservedChannel))
    ensures Consistent(Run(Started(config), inputs))
    ensures var s' := Step(Run(Started(config), inputs), i);
            s'.controller.Ready() && Genuine(s'.controller.core, Some(SentSync(sender, slot, sequence)))
  {
    var s := Run(Started(config), inputs);
    RunConsistent(Started(config), inputs);
    RunKeepsConfiguration(Started(config), inputs);
    AnnouncementRetunes(s, i, seed);
    StepConsistent(s, i);
  }

  /** In SEARCHING no payload reaches the adapter: neither a seed nor a session end has any effect. */
  lemma SearchingIgnoresPayloads(s: Service, i: Input)
    requires Consistent(s) && s.fsm == Searching && i.received.Payload?
    requires Listens(s, i) || (s.point == Top && i.selectOk)
    ensures Step(s, i) == Passed(s)
  {}

  // ---------------------------------------------------------------- the order of the loop

  /** From the head, a searching service stays there and any other drains its slot, unless there is no next
      switch, when it searches again. Draining goes on until the switch instant, a radio error or a
      refused SYNC, which lead to the scheduled reception, or a session end, which leads to the head if
      the rendezvous channel is selected. After the scheduled reception comes the head. */
  lemma LoopOrder(s: Service, i: Input)
    requires Consistent(s)
    ensures var s', result := Step(s, i), ReceiveOne(s, i.received).result;
            && (s.point == Top && s.fsm == Searching ==> s'.point == Top)
            && (s.point == Top && s.fsm != Searching ==>
                  if NextSwitch(s.controller.lattice, i.now).Ok? then s' == s.(point := Drain)
                  else s'.point == Top && s'.fsm == Searching && !s'.Synchronized() && s'.reports == s.reports)
            && (s.point == Drain ==>
                  && (s'.point == Scheduled <==>
                        || i.deadline || result == GotRadioError || result == GotSyncError
                        || (result == GotSessionEnd && !i.rendezvousOk))
                  && (s'.point == Top <==> !i.deadline && result == GotSessionEnd && i.rendezvousOk)
                  && (i.deadline ==> s' == s.(point := Scheduled)))
            && (s.point == Scheduled ==> s'.point == Top)
  {
    ReceiveFacts(s, i.received);
  }

  // ---------------------------------------------------------------- session ends

  /** A session end heard outside SEARCHING takes the service back to where it started, hop table included,
      without counting a miss or reporting a loss; only the loop point depends on whether the
      rendezvous channel could be selected. */
  lemma SessionEndRestarts(s: Service, i: Input)
    requires Consistent(s) && Listens(s, i) && s.fsm != Searching
    requires i.received.Payload? && i.received.endsSession
    ensures var s' := Step(s, i);
            && s' == Started(s.config).(reports := s'.reports, point := s'.point)
            && s'.reports == s.reports + (if i.rendezvousOk then [] else [ReportError])
            && (s'.point == Top <==> i.rendezvousOk || s.point == Scheduled)
  {
    InitControllerIsReady(s.config.controller);
  }

  // ---------------------------------------------------------------- acquisition

  /** The step takes a reception, while searching or in a slot. */
  predicate Hears(s: Service, i: Input) {
    Listens(s, i) || (s.point == Top && s.fsm == Searching && i.selectOk)
  }

  /** The step accepts a SYNC inside the timing window. */
  predicate AcceptsInside(s: Service, i: Input)
    requires s.controller.Ready()
  {
    Hears(s, i) && ReceiveOne(s, i.received).result.GotSync? &&
    ReceiveOne(s, i.received).result.result.timing.placement == Inside
  }

  /** Nothing disturbs an acquisition: no SYNC outside the window, no session end, no silent or corrupt
      scheduled reception, and no loop head without a next switch. Refused SYNCs, payloads, errors
      and everything drained are harmless. */
  predicate Undisturbed(s: Service, i: Input)
    requires s.controller.Ready()
  {
    && (s.point == Top && s.fsm != Searching ==> NextSwitch(s.controller.lattice, i.now).Ok?)
    && (Hears(s, i) ==>
          match ReceiveOne(s, i.received).result
          case GotSync(sync) => sync.timing.placement == Inside
          case GotSessionEnd => false
          case GotTimeout => s.point != Scheduled
          case GotCrcFail => s.point != Scheduled
          case _ => true)
  }

  /** k valid SYNCs towards the acquisition. */
  predicate Collecting(s: Service, k: nat) {
    !s.Locked() && s.controller.core.tracker.valid == k
  }

  predicate JustAcquired(before: Service, s: Service) {
    && s.fsm == FsmState.Tracking && s.Locked() && s.Synchronized() && s.misses == 0 && s.TrackerMisses() == 0
    && SyncReports(s.reports) == SyncReports(before.reports) + [ReportAcquired]
  }

  lemma AcquisitionCounts(r: seq<Report>)
    ensures SyncReports(r + [ReportAcquired]) == SyncReports(r) + [ReportAcquired]
  {
    assert (r + [ReportAcquired])[..|r|] == r;
  }

  /** The effect of an in-window SYNC on an unlocked service. */
  lemma SyncCounts(before: Service, s: Service, result: RxResult, k: nat)
    requires Consistent(before) && Collecting(before, k) && SyncFacts(before, s, result)
    requires result.timing.placement == Inside
    ensures var s' := HandleSync(s, result);
            if k + 1 < before.config.controller.sync.acquireCount
            then Collecting(s', k + 1) && s'.fsm == Synchronizing && s'.reports == s.reports
            else JustAcquired(before, s')
  {
    AcquisitionCounts(before.reports);
  }

  lemma InsideStep(s: Service, i: Input, k: nat)
    requires Consistent(s) && Collecting(s, k) && AcceptsInside(s, i)
    ensures var s' := Step(s, i);
            if k + 1 < s.config.controller.sync.acquireCount
            then Collecting(s', k + 1) && s'.fsm == Synchronizing && SyncReports(s'.reports) == SyncReports(s.reports)
            else JustAcquired(s, s')
  {
    ReceiveFacts(s, i.received);
    var r := ReceiveOne(s, i.received);
    SyncCounts(s, r.service, r.result.result, k);
  }

  lemma OtherStep(s: Service, i: Input, k: nat)
    requires Consistent(s) && Collecting(s, k) && Undisturbed(s, i) && !AcceptsInside(s, i)
    ensures var s' := Step(s, i);
            Collecting(s', k) && s'.fsm == s.fsm && SyncReports(s'.reports) == SyncReports(s.reports)
  {
    ErrorsDoNotCount(s.reports);
    ReceiveFacts(s, i.received);
  }

  ghost predicate UndisturbedRun(s: Service, inputs: seq<Input>)
    requires Consistent(s)
    decreases |inputs|
  {
    inputs == [] ||
    (Undisturbed(s, inputs[0]) &&
     Consistent(Step(s, inputs[0])) && UndisturbedRun(Step(s, inputs[0]), inputs[1..]))
  }

  ghost function SyncsHeard(s: Service, inputs: seq<Input>): nat
    requires Consistent(s)
    decreases |inputs|
  {
    if inputs == [] then 0
    else
      StepConsistent(s, inputs[0]);
      (if AcceptsInside(s, inputs[0]) then 1 else 0) + SyncsHeard(Step(s, inputs[0]), inputs[1..])
  }

  /** Acquisition over runs: n in-window SYNCs, however they are interleaved with refused SYNCs, payloads
      and errors, leave the service collecting, and SYNCHRONIZING from the first of them on, as long as
      they are fewer than acquireCount... */
  lemma {:induction false} AcquisitionSchedule(s: Service, inputs: seq<Input>, k: nat)
    requires Consistent(s) && Collecting(s, k) && UndisturbedRun(s, inputs)
    requires k + SyncsHeard(s, inputs) < s.config.controller.sync.acquireCount
    ensures var s' := Run(s, inputs);
            && Collecting(s', k + SyncsHeard(s, inputs))
            && s'.fsm == (if SyncsHeard(s, inputs) == 0 then s.fsm else Synchronizing)
            && SyncReports(s'.reports) == SyncReports(s.reports)
    decreases |inputs|
  {
    if inputs != [] {
      var i, s1 := inputs[0], Step(s, inputs[0]);
      StepConsistent(s, i);
      if AcceptsInside(s, i) {
        InsideStep(s, i, k);
        AcquisitionSchedule(s1, inputs[1..], k + 1);
      } else {
        OtherStep(s, i, k);
        AcquisitionSchedule(s1, inputs[1..], k);
      }
    }
  }

  /** ... and SYNC number acquireCount makes it TRACK and reports exactly one acquisition. */
  lemma AcquiredAtLimit(s: Service, inputs: seq<Input>, last: Input)
    requires Consistent(s) && Collecting(s, 0) && UndisturbedRun(s, inputs)
    requires SyncsHeard(s, inputs) == s.config.controller.sync.acquireCount - 1
    requires Run(s, inputs).controller.Ready() && AcceptsInside(Run(s, inputs), last)
    ensures JustAcquired(s, Run(s, inputs + [last]))
  {
    AcquisitionSchedule(s, inputs, 0);
    RunConsistent(s, inputs);
    InsideStep(Run(s, inputs), last, s.config.controller.sync.acquireCount - 1);
    RunAppend(s, inputs, last);
  }

  /** What does disturb one: a slot without a SYNC drops the reference and the count, without a report; a
      refused SYNC in its place changes nothing. */
  lemma AcquisitionFails(s: Service, i: Input)
    requires Consistent(s) && s.fsm == Synchronizing && !s.Locked() && SlotMissed(s, i)
    ensures var s' := Step(s, i);
            if ReceiveOne(s, i.received).result.GotSyncError? then s' == s.(point := Top)
            else s'.fsm == Searching && !s'.Synchronized() && Collecting(s', 0) && s'.reports == s.reports
  {
    ReceiveFacts(s, i.received);
  }
}
