/** The SYNC acquisition/loss hysteresis and its specification over whole input traces. */
module SyncTracker {
  import opened CTypes

  datatype TrackerConfig = TrackerConfig(acquireCount: uint32, lossCount: uint32)
  {
    predicate Valid() {
      acquireCount != 0 && lossCount != 0
    }
  }

  datatype SyncEvent = NoEvent | Acquired | Lost

  /** locked is the LOCKED state; !locked is SEARCHING. */
  datatype Tracker = Tracker(config: TrackerConfig, locked: bool, valid: nat, misses: nat)
  {
    predicate Ready() {
      && config.Valid()
      && valid < config.acquireCount && misses < config.lossCount
      && (if locked then valid == 0 else misses == 0)
    }
  }

  function Fresh(config: TrackerConfig): Tracker {
    Tracker(config, false, 0, 0)
  }

  datatype Tracked = Tracked(tracker: Tracker, event: SyncEvent)

  function OnValid(t: Tracker): Tracked {
    var heard := t.(misses := 0);
    if t.locked then Tracked(heard, NoEvent)
    else if t.valid + 1 >= t.config.acquireCount then
      Tracked(heard.(locked := true, valid := 0), Acquired)
    else Tracked(heard.(valid := t.valid + 1), NoEvent)
  }

  function OnMiss(t: Tracker): Tracked {
    var missed := t.(valid := 0);
    if !t.locked then Tracked(missed, NoEvent)
    else if t.misses + 1 >= t.config.lossCount then
      Tracked(missed.(locked := false, misses := 0), Lost)
    else Tracked(missed.(misses := t.misses + 1), NoEvent)
  }

  function OnInput(t: Tracker, heard: bool): Tracked {
    if heard then OnValid(t) else OnMiss(t)
  }

  // ---------------------------------------------------------------- trace specification

  /** The tracker after a whole trace of inputs (true: valid SYNC, false: miss). */
  function After(config: TrackerConfig, trace: seq<bool>): Tracker {
    if trace == [] then Fresh(config)
    else OnInput(After(config, trace[..|trace| - 1]), trace[|trace| - 1]).tracker
  }

  /** The events the tracker emitted along the trace, without the silent steps. */
  function Events(config: TrackerConfig, trace: seq<bool>): seq<SyncEvent> {
    if trace == [] then []
    else
      var before := trace[..|trace| - 1];
      var e := OnInput(After(config, before), trace[|trace| - 1]).event;
      Events(config, before) + if e == NoEvent then [] else [e]
  }

  /** The n inputs that end just before position `end` all equal b. */
  predicate RunOf(trace: seq<bool>, b: bool, end: nat, n: nat) {
    n <= end <= |trace| && forall k | end - n <= k < end :: trace[k] == b
  }

  /** Some run of acquireCount valid inputs has no run of lossCount misses after it. */
  ghost predicate LockedByTrace(config: TrackerConfig, trace: seq<bool>) {
    exists i: nat :: RunOf(trace, true, i, config.acquireCount) && NoLossAfter(config, trace, i)
  }

  ghost predicate NoLossAfter(config: TrackerConfig, trace: seq<bool>, i: nat) {
    forall j: nat | i + config.lossCount <= j <= |trace| :: !RunOf(trace, false, j, config.lossCount)
  }

  /** What the two counters count. */
  ghost predicate CountersMatch(t: Tracker, trace: seq<bool>) {
    && t.Ready()
    && (!t.locked ==> RunOf(trace, true, |trace|, t.valid) &&
                      (t.valid < |trace| ==> !trace[|trace| - 1 - t.valid]))
    && (t.locked ==> RunOf(trace, false, |trace|, t.misses) && t.misses < |trace| &&
                     trace[|trace| - 1 - t.misses])
  }

  lemma {:induction false} CountersCount(config: TrackerConfig, trace: seq<bool>)
    requires config.Valid()
    ensures CountersMatch(After(config, trace), trace) && After(config, trace).config == config
  {
    if trace != [] {
      var before := trace[..|trace| - 1];
      CountersCount(config, before);
      var t := After(config, trace);
      var n := if t.locked then t.misses else t.valid;
      forall k | |trace| - n <= k < |trace| - 1
        ensures trace[k] == before[k]
      {}
    }
  }

  lemma ValidsPrecedeMisses(trace: seq<bool>, i: nat, a: nat, j: nat, l: nat)
    requires RunOf(trace, true, i, a) && RunOf(trace, false, j, l) && 0 < a && i <= j
    ensures i + l <= j
  {
    assert trace[i - 1];
  }

  /** The hysteresis is exactly its trace specification: after any inputs the tracker is LOCKED
      if and only if some run of acquireCount valids is not followed by a later run of
      lossCount misses. */
  lemma {:induction false} LockedExactlyByTrace(config: TrackerConfig, trace: seq<bool>)
    requires config.Valid()
    ensures After(config, trace).locked <==> LockedByTrace(config, trace)
  {
    if trace == [] {
      return;
    }
    var n := |trace|;
    var before, last := trace[..n - 1], trace[n - 1];
    LockedExactlyByTrace(config, before);
    CountersCount(config, before);
    CountersCount(config, trace);
    var t, t' := After(config, before), After(config, trace);
    if t'.locked {
      if t.locked {
        var i: nat :| RunOf(before, true, i, config.acquireCount) && NoLossAfter(config, before, i);
        NotYetLost(config, trace, i);
      } else {
        assert RunOf(trace, true, n, config.acquireCount);
        assert NoLossAfter(config, trace, n);
      }
    } else {
      NotLockedByTrace(config, trace);
    }
  }

  /** A tracker that searches, or has just lost lock, has no surviving run of valids. */
  lemma NotLockedByTrace(config: TrackerConfig, trace: seq<bool>)
    requires config.Valid() && trace != [] && !After(config, trace).locked
    requires var before := trace[..|trace| - 1];
             After(config, before).locked || !LockedByTrace(config, before)
    ensures !LockedByTrace(config, trace)
  {
    var n := |trace|;
    var before := trace[..n - 1];
    CountersCount(config, before);
    CountersCount(config, trace);
    forall i: nat | RunOf(trace, true, i, config.acquireCount)
      ensures !NoLossAfter(config, trace, i)
    {
      if After(config, before).locked {
        // The step that lost lock completes a run of lossCount misses.
        assert RunOf(trace, false, n, config.lossCount) by {
          assert forall k | n - config.lossCount <= k < n - 1 :: before[k] == trace[k];
        }
        ValidsPrecedeMisses(trace, i, config.acquireCount, n, config.lossCount);
      } else {
        // acquireCount valids do not end the trace: the counter is short of them.
        assert i < n;
        assert RunOf(before, true, i, config.acquireCount) by {
          assert forall k | 0 <= k < i :: before[k] == trace[k];
        }
        var j: nat :| i + config.lossCount <= j <= |before| && RunOf(before, false, j, config.lossCount);
        assert RunOf(trace, false, j, config.lossCount);
      }
    }
  }

  /** While the tracker stays LOCKED no run of lossCount misses can have just completed. */
  lemma NotYetLost(config: TrackerConfig, trace: seq<bool>, i: nat)
    requires config.Valid() && trace != []
    requires var before := trace[..|trace| - 1];
             RunOf(before, true, i, config.acquireCount) && NoLossAfter(config, before, i)
    requires After(config, trace).locked
    ensures LockedByTrace(config, trace)
  {
    var before := trace[..|trace| - 1];
    CountersCount(config, trace);
    var t := After(config, trace);
    assert RunOf(trace, true, i, config.acquireCount);
    forall j: nat | i + config.lossCount <= j <= |trace|
      ensures !RunOf(trace, false, j, config.lossCount)
    {
      if j == |trace| {
        assert trace[|trace| - 1 - t.misses];
      } else if RunOf(trace, false, j, config.lossCount) {
        assert RunOf(before, false, j, config.lossCount);
        assert false;
      }
    }
  }

  /** Events alternate ACQUIRED, LOST, ACQUIRED, ..., and the tracker is LOCKED exactly when
      the last one was ACQUIRED. */
  lemma {:induction false} EventsAlternate(config: TrackerConfig, trace: seq<bool>)
    requires config.Valid()
    ensures var es := Events(config, trace);
            && (forall i | 0 <= i < |es| :: es[i] == if i % 2 == 0 then Acquired else Lost)
            && (After(config, trace).locked <==> |es| % 2 == 1)
  {
    if trace != [] {
      EventsAlternate(config, trace[..|trace| - 1]);
    }
  }

  // ---------------------------------------------------------------- the tracker object

  class SyncStateTracker {
    var config: TrackerConfig
    var locked: bool
    var consecutiveValid: uint32
    var consecutiveMisses: uint32
    var initialized: bool

    ghost predicate Valid()
      reads this
    {
      initialized ==> View().Ready()
    }

    function View(): Tracker
      reads this
    {
      Tracker(config, locked, consecutiveValid, consecutiveMisses)
    }

    constructor ()
      ensures Valid() && !initialized
      ensures View() == Fresh(TrackerConfig(0, 0))
    {
      config := TrackerConfig(0, 0);
      locked := false;
      consecutiveValid, consecutiveMisses := 0, 0;
      initialized := false;
    }

    method Init(newConfig: TrackerConfig) returns (ok: bool)
      modifies this
      ensures ok <==> newConfig.Valid()
      ensures ok ==> initialized && Valid() && View() == Fresh(newConfig)
      ensures !ok ==> View() == old(View()) && initialized == old(initialized)
    {
      if newConfig.acquireCount == 0 || newConfig.lossCount == 0 {
        return false;
      }
      config := newConfig;
      locked := false;
      consecutiveValid, consecutiveMisses := 0, 0;
      initialized := true;
      ok := true;
    }

    /** None when the tracker is not initialized; the counters cannot wrap. */
    method HandleValid() returns (event: Option<SyncEvent>)
      requires Valid()
      modifies this
      ensures Valid() && initialized == old(initialized)
      ensures old(initialized) ==>
                event == Some(OnValid(old(View())).event) && View() == OnValid(old(View())).tracker
      ensures !old(initialized) ==> event == None && View() == old(View())
    {
      if !initialized {
        return None;
      }
      event := Some(NoEvent);
      consecutiveMisses := 0;
      if !locked {
        consecutiveValid := consecutiveValid + 1;
        if consecutiveValid >= config.acquireCount {
          locked := true;
          consecutiveValid := 0;
          event := Some(Acquired);
        }
      }
    }

    method HandleMiss() returns (event: Option<SyncEvent>)
      requires Valid()
      modifies this
      ensures Valid() && initialized == old(initialized)
      ensures old(initialized) ==>
                event == Some(OnMiss(old(View())).event) && View() == OnMiss(old(View())).tracker
      ensures !old(initialized) ==> event == None && View() == old(View())
    {
      if !initialized {
        return None;
      }
      event := Some(NoEvent);
      consecutiveValid := 0;
      if locked {
        consecutiveMisses := consecutiveMisses + 1;
        if consecutiveMisses >= config.lossCount {
          locked := false;
          consecutiveMisses := 0;
          event := Some(Lost);
        }
      }
    }

    /** Struct assignment. */
    method CopyFrom(other: SyncStateTracker)
      requires other.Valid()
      modifies this
      ensures Valid() && View() == old(other.View()) && initialized == old(other.initialized)
    {
      config, locked := other.config, other.locked;
      consecutiveValid, consecutiveMisses := other.consecutiveValid, other.consecutiveMisses;
      initialized := other.initialized;
    }
  }
}
