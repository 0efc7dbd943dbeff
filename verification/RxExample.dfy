/** Concrete runs of the receiver, on a clock that respects when the loop listens: one that strands it,
    so that the hypothesis of RxSafety.StrandedForever is reachable, and one that sets its two miss
    counters apart. */
module RxExample {
  import opened CTypes
  import opened PhaseCorrection
  import opened SlotScheduler
  import opened SyncTracker
  import opened ClockModel
  import opened RxModel
  import opened RxSafety

  // ---------------------------------------------------------------- runs on a clock

  /** The latest instant the loop is known to have reached, and the switch it waits for. */
  datatype Clock = Clock(now: int, switch: int)

  /** The instants of an input do not lie in the past, and a packet in a slot's scheduled reception is
      stamped no earlier than the switch: the loop waits for it, and changing the channel drops
      older stamps. */
  predicate Possible(s: Service, c: Clock, i: Input) {
    match s.point
    case Top => if s.fsm == Searching then Stamped(i, c.now) else i.now >= c.now
    case Drain => Stamped(i, c.now)
    case Scheduled => Stamped(i, c.now) && Stamped(i, c.switch)
  }

  predicate Stamped(i: Input, earliest: int) {
    i.received.SyncBytes? ==> i.received.rx >= earliest
  }

  function Tick(s: Service, c: Clock, i: Input): Clock
    requires s.controller.Ready()
  {
    var heard := if i.received.SyncBytes? then c.(now := i.received.rx) else c;
    match s.point
    case Top =>
      if s.fsm == Searching then heard
      else
        var next := NextSwitch(s.controller.lattice, i.now);
        Clock(i.now, if next.Ok? then next.value.time else c.switch)
    case Drain => if i.deadline then c else heard
    case Scheduled => if i.received.SyncBytes? then heard else c.(now := if c.now < c.switch then c.switch else c.now)
  }

  ghost predicate Timely(s: Service, c: Clock, inputs: seq<Input>)
    requires Consistent(s)
    decreases |inputs|
  {
    inputs == [] ||
    (Possible(s, c, inputs[0]) &&
     Consistent(Step(s, inputs[0])) && Timely(Step(s, inputs[0]), Tick(s, c, inputs[0]), inputs[1..]))
  }

  lemma TimelyPrepend(s: Service, c: Clock, i: Input, rest: seq<Input>)
    requires Consistent(s) && Possible(s, c, i)
    ensures Consistent(Step(s, i))
    ensures Timely(Step(s, i), Tick(s, c, i), rest) ==> Timely(s, c, [i] + rest)
    ensures Run(s, [i] + rest) == Run(Step(s, i), rest)
  {
    StepConsistent(s, i);
    assert ([i] + rest)[1..] == rest;
  }

  lemma TimelyOne(s: Service, c: Clock, i: Input)
    requires Consistent(s) && Possible(s, c, i)
    ensures Timely(s, c, [i]) && Run(s, [i]) == Step(s, i)
  {
    TimelyPrepend(s, c, i, []);
    assert [i] + [] == [i];
  }

  lemma TimelyTwo(s: Service, c: Clock, i: Input, j: Input)
    requires Consistent(s) && Possible(s, c, i)
    requires Possible(Step(s, i), Tick(s, c, i), j)
    ensures Consistent(Step(s, i))
    ensures Timely(s, c, [i, j]) && Run(s, [i, j]) == Step(Step(s, i), j)
  {
    StepConsistent(s, i);
    TimelyOne(Step(s, i), Tick(s, c, i), j);
    TimelyPrepend(s, c, i, [j]);
    assert [i] + [j] == [i, j];
  }

  /** Runs that follow three steps extend to runs that start with them. */
  lemma TimelyThree(s: Service, c: Clock, i: Input, j: Input, k: Input, rest: seq<Input>)
    requires Consistent(s) && Consistent(Step(s, i)) && Consistent(Step(Step(s, i), j))
    requires var s1, c1 := Step(s, i), Tick(s, c, i);
             Possible(s, c, i) && Possible(s1, c1, j) && Possible(Step(s1, j), Tick(s1, c1, j), k)
    ensures var s1, c1 := Step(s, i), Tick(s, c, i);
            var s2, c2 := Step(s1, j), Tick(s1, c1, j);
            && Consistent(Step(s2, k))
            && Run(s, [i, j, k] + rest) == Run(Step(s2, k), rest)
            && (Timely(Step(s2, k), Tick(s2, c2, k), rest) ==> Timely(s, c, [i, j, k] + rest))
  {
    var s1, c1 := Step(s, i), Tick(s, c, i);
    TimelyPrepend(Step(s1, j), Tick(s1, c1, j), k, rest);
    TimelyPrepend(s1, c1, j, [k] + rest);
    TimelyPrepend(s, c, i, [j] + ([k] + rest));
    assert [i, j, k] + rest == [i] + ([j] + ([k] + rest));
  }

  // ---------------------------------------------------------------- the example

  const EXAMPLE := ServiceConfig(
    ControllerConfig([1], 1, 0, 0, WINDOW, TrackerConfig(1, 2), SlotConfig(300000, 20000), 0, GAIN), 1)

  const WINDOW := Window(20000, 20000)
  const GAIN := Gain(500, 2000, 8, 2, 500)
  const ANCHORED := Lattice(SlotConfig(300000, 20000), 0, 1000000, true, true)
  const BOOT := Clock(0, 0)
  const SLOT_ONE := Clock(1001000, 1280000)

  function Heard(slot: uint32, rx: int64): Input {
    Input(0, true, true, false, SyncBytes(Some(SyncPacket(0, 0, 0, slot)), rx))
  }

  /** The loop head at an instant. */
  function Head(now: int64): Input {
    Input(now, true, true, false, NothingHeard)
  }

  /** The drain reaches the switch instant. */
  const SWITCH := Input(0, true, true, true, NothingHeard)

  lemma ExampleAcceptsEverySlot(slot: uint32)
    ensures EXAMPLE.Valid() && Consistent(Started(EXAMPLE))
    ensures Genuine(Started(EXAMPLE).controller.core, Some(SyncPacket(0, 0, 0, slot)))
  {
    StartedConsistent(EXAMPLE);
    assert slot % 1 == 0;
  }

  /** The example's receiver after its first SYNC, at any point of the loop. */
  predicate ExampleTracking(s: Service, point: Point) {
    && s.config == EXAMPLE && s.fsm == FsmState.Tracking && s.point == point && s.misses == 0
    && s.TrackerMisses() == 0
    && Anchored(s.controller)
  }

  /** A controller that knows where slot 1 starts and accepts its SYNC. */
  predicate Anchored(c: Controller) {
    && c.Ready() && c.lattice == ANCHORED && c.syncOffset == 0 && c.gain == GAIN && c.core.window == WINDOW
    && Genuine(c.core, Some(SyncPacket(0, 0, 0, 1)))
  }

  lemma ExampleFirstRx()
    ensures EXAMPLE.Valid() && Started(EXAMPLE).controller.Ready()
    ensures var c := Started(EXAMPLE).controller;
            var step := ProcessRx(c, Some(SyncPacket(0, 0, 0, 0)), 1000000);
            && step.outcome.Ok? && step.outcome.value.timing == Evaluation(0, Inside)
            && step.outcome.value.event == Acquired
            && Anchored(step.controller) && step.controller.core.tracker.misses == 0
  {
    ExampleAcceptsEverySlot(0);
    ExampleAcceptsEverySlot(1);
    ProcessRxIsTransactional(Started(EXAMPLE).controller, Some(SyncPacket(0, 0, 0, 0)), 1000000);
  }

  /** A searching service whose first SYNC completes the acquisition tracks at once. */
  lemma FirstSyncTracks(s: Service, i: Input)
    requires s.controller.Ready() && s.point == Top && s.fsm == Searching && i.selectOk && i.received.SyncBytes?
    requires var outcome := ProcessRx(s.controller, i.received.buffer, i.received.rx).outcome;
             outcome.Ok? && outcome.value.timing.placement == Inside && outcome.value.event == Acquired
    ensures var s' := Step(s, i);
            && s'.config == s.config && s'.point == Top && s'.fsm == FsmState.Tracking && s'.misses == 0
            && s'.controller == ProcessRx(s.controller, i.received.buffer, i.received.rx).controller
  {}

  lemma ExampleFirstSync()
    ensures EXAMPLE.Valid() && Consistent(Started(EXAMPLE))
    ensures ExampleTracking(Step(Started(EXAMPLE), Heard(0, 1000000)), Top)
  {
    ExampleFirstRx();
    StartedConsistent(EXAMPLE);
    FirstSyncTracks(Started(EXAMPLE), Heard(0, 1000000));
  }

  lemma AnchoredSlots()
    ensures SlotStart(ANCHORED, 1) == Ok(1300000)
    ensures NextSwitch(ANCHORED, 1001000) == Ok(Switch(1, 1280000))
  {
    assert SlotAt(ANCHORED, 1001000) == Ok(0);
  }

  lemma ExampleHead(s: Service, c: Clock)
    requires Consistent(s) && ExampleTracking(s, Top)
    ensures ExampleTracking(Step(s, Head(1001000)), Drain)
    ensures Tick(s, c, Head(1001000)) == SLOT_ONE
  {
    AnchoredSlots();
  }

  lemma ExampleSwitch(s: Service, c: Clock)
    requires Consistent(s) && ExampleTracking(s, Drain)
    ensures ExampleTracking(Step(s, SWITCH), Scheduled)
    ensures Tick(s, c, SWITCH) == c
  {}

  /** A run of the example from start-up, and where it ends. */
  ghost predicate ExampleRun(inputs: seq<Input>, s: Service) {
    && EXAMPLE.Valid() && Consistent(Started(EXAMPLE))
    && Timely(Started(EXAMPLE), BOOT, inputs) && Run(Started(EXAMPLE), inputs) == s
  }

  /** The example waits for slot 1's reception; runs from there extend to runs from start-up. */
  lemma ExampleReachesSlot() returns (s: Service, start: seq<Input>)
    ensures Consistent(s) && ExampleTracking(s, Scheduled)
    ensures forall rest | Timely(s, SLOT_ONE, rest) :: ExampleRun(start + rest, Run(s, rest))
  {
    ExampleFirstSync();
    var s0 := Started(EXAMPLE);
    StepConsistent(s0, Heard(0, 1000000));
    var s1 := Step(s0, Heard(0, 1000000));
    var c1 := Clock(1000000, 0);
    ExampleHead(s1, c1);
    StepConsistent(s1, Head(1001000));
    var s2 := Step(s1, Head(1001000));
    ExampleSwitch(s2, SLOT_ONE);
    StepConsistent(s2, SWITCH);
    s := Step(s2, SWITCH);
    start := [Heard(0, 1000000), Head(1001000), SWITCH];
    forall rest | Timely(s, SLOT_ONE, rest)
      ensures ExampleRun(start + rest, Run(s, rest))
    {
      TimelyThree(s0, BOOT, Heard(0, 1000000), Head(1001000), SWITCH, rest);
    }
  }

  // ---------------------------------------------------------------- stranding

  lemma ExampleEarlySync(c: Controller)
    requires Anchored(c)
    ensures var step := ProcessRx(c, Some(SyncPacket(0, 0, 0, 1)), 1285000);
            && step.outcome.Ok? && step.outcome.value.timing == Evaluation(-15000, Inside)
            && step.controller.lattice.referenceTime == 1299500
  {
    ProcessRxIsTransactional(c, Some(SyncPacket(0, 0, 0, 1)), 1285000);
    AnchoredSlots();
    assert Correction(GAIN, -15000) == -500;
  }

  lemma ExampleStrands(s: Service)
    requires Consistent(s) && ExampleTracking(s, Scheduled)
    ensures Stranded(Step(Step(s, Heard(1, 1285000)), Head(1298000)))
    ensures Consistent(Step(s, Heard(1, 1285000)))
    ensures Possible(s, SLOT_ONE, Heard(1, 1285000))
    ensures Possible(Step(s, Heard(1, 1285000)), Tick(s, SLOT_ONE, Heard(1, 1285000)), Head(1298000))
  {
    ExampleEarlySync(s.controller);
    EarlySyncStrands(s, Heard(1, 1285000), Head(1298000));
    ScheduledSync(s, Heard(1, 1285000));
  }

  /** A tracked receiver hears a SYNC 15 ms early, 5 ms after it switched to the slot's channel, and
      looks at the clock 13 ms later: stranded. */
  lemma StrandingIsReachable() returns (inputs: seq<Input>, s': Service)
    ensures ExampleRun(inputs, s') && Stranded(s')
  {
    var s, start := ExampleReachesSlot();
    var early, head := Heard(1, 1285000), Head(1298000);
    ExampleStrands(s);
    TimelyTwo(s, SLOT_ONE, early, head);
    inputs, s' := start + [early, head], Run(s, [early, head]);
  }

  // ---------------------------------------------------------------- two miss counters

  lemma ExampleLateSync(c: Controller)
    requires Anchored(c)
    ensures var step := ProcessRx(c, Some(SyncPacket(0, 0, 0, 1)), 1325000);
            && step.outcome.Ok? && step.outcome.value.timing == Evaluation(25000, Placement.After)
  {
    ProcessRxIsTransactional(c, Some(SyncPacket(0, 0, 0, 1)), 1325000);
    AnchoredSlots();
  }

  lemma ExampleParts(s: Service)
    requires Consistent(s) && ExampleTracking(s, Scheduled)
    ensures var s' := Step(s, Heard(1, 1325000));
            s'.fsm == FsmState.Tracking && s'.misses == 0 && s'.TrackerMisses() == 1
    ensures Possible(s, SLOT_ONE, Heard(1, 1325000))
  {
    ExampleLateSync(s.controller);
    ReceiveFacts(s, Heard(1, 1325000).received);
  }

  /** The witness for CountersPart: a SYNC 25 ms late leaves a tracking service with no misses of its
      own and one of the tracker's. */
  lemma CountersPartReachably() returns (inputs: seq<Input>, s': Service)
    ensures ExampleRun(inputs, s') && s'.fsm == FsmState.Tracking && s'.misses < s'.TrackerMisses()
  {
    var s, start := ExampleReachesSlot();
    var late := Heard(1, 1325000);
    ExampleParts(s);
    TimelyOne(s, SLOT_ONE, late);
    inputs, s' := start + [late], Run(s, [late]);
  }
}
