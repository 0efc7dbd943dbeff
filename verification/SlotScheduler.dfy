/** The receiver's slot lattice: a reference slot, the time it starts, and a fixed slot length. */
module SlotScheduler {
  import opened CTypes

  datatype SlotStatus =
    InvalidArg | InvalidConfig | NotInitialized | NotSynchronized | BeforeReference | Overflow

  datatype SlotConfig = SlotConfig(slotDuration: uint32, switchGuard: uint32)
  {
    predicate Valid() {
      slotDuration != 0 && switchGuard < slotDuration
    }
  }

  datatype Lattice = Lattice(
    config: SlotConfig,
    referenceSlot: uint32,
    referenceTime: int64,
    initialized: bool,
    synchronized: bool)
  {
    predicate Ready() {
      initialized && config.Valid() && referenceTime >= 0
    }

    /** Where the lattice puts slot 0; two lattices with one phase agree on every slot start. */
    function Phase(): int {
      referenceTime - referenceSlot * config.slotDuration
    }
  }

  function SetReference(l: Lattice, slot: uint32, time: int64): Result<Lattice, SlotStatus> {
    if !l.initialized then Err(NotInitialized)
    else if time < 0 then Err(InvalidArg)
    else Ok(l.(referenceSlot := slot, referenceTime := time, synchronized := true))
  }

  function ClearReference(l: Lattice): Result<Lattice, SlotStatus> {
    if !l.initialized then Err(NotInitialized)
    else Ok(l.(referenceSlot := 0, referenceTime := 0, synchronized := false))
  }

  function SlotAt(l: Lattice, now: int64): Result<uint32, SlotStatus>
    requires l.initialized ==> l.Ready()
  {
    if !l.initialized then Err(NotInitialized)
    else if !l.synchronized then Err(NotSynchronized)
    else if now < l.referenceTime then Err(BeforeReference)
    else
      var elapsed := (now - l.referenceTime) / l.config.slotDuration;
      if elapsed > UINT32_MAX - l.referenceSlot then Err(Overflow)
      else Ok(l.referenceSlot + elapsed)
  }

  function SlotStart(l: Lattice, slot: uint32): Result<int64, SlotStatus> {
    if !l.initialized then Err(NotInitialized)
    else if !l.synchronized then Err(NotSynchronized)
    else if slot < l.referenceSlot then Err(BeforeReference)
    else
      var offset := (slot - l.referenceSlot) * l.config.slotDuration;
      assert offset >= 0;
      if offset > INT64_MAX - l.referenceTime then Err(Overflow)
      else Ok(l.referenceTime + offset)
  }

  datatype Switch = Switch(nextSlot: uint32, time: int64)

  function NextSwitch(l: Lattice, now: int64): Result<Switch, SlotStatus>
    requires l.initialized ==> l.Ready()
  {
    var current := SlotAt(l, now);
    if current.Err? then Err(current.error)
    else if current.value == UINT32_MAX then Err(Overflow)
    else
      var start := SlotStart(l, current.value + 1);
      if start.Err? then Err(start.error)
      else
        SlotStartIsPhase(l, current.value + 1);
        Ok(Switch(current.value + 1, start.value - l.config.switchGuard))
  }

  // ---------------------------------------------------------------- laws of the lattice

  lemma SlotStartIsPhase(l: Lattice, slot: uint32)
    ensures SlotStart(l, slot).Ok? ==>
              SlotStart(l, slot).value == l.Phase() + slot * l.config.slotDuration
    ensures SlotStart(l, slot).Ok? <==>
              && l.initialized && l.synchronized && l.referenceSlot <= slot
              && l.Phase() + slot * l.config.slotDuration <= INT64_MAX
    ensures l.Ready() && SlotStart(l, slot).Ok? ==> l.referenceTime <= SlotStart(l, slot).value
  {
    var d := l.config.slotDuration;
    assert (slot - l.referenceSlot) * d == slot * d - l.referenceSlot * d;
    if slot >= l.referenceSlot {
      assert (slot - l.referenceSlot) * d >= 0;
    }
  }

  /** SlotAt inverts SlotStart: the slot at `now` is k exactly while now lies in the half-open
      interval that starts at SlotStart(k). */
  lemma SlotAtInvertsSlotStart(l: Lattice, k: uint32, now: int64)
    requires l.Ready() && SlotStart(l, k).Ok?
    ensures SlotAt(l, now) == Ok(k) <==>
            SlotStart(l, k).value <= now < SlotStart(l, k).value + l.config.slotDuration
  {
    var d, q := l.config.slotDuration, k - l.referenceSlot;
    QuotientIs(now - l.referenceTime, d, q);
    assert d * q == q * d && q * d >= 0;
  }

  /** A successful switch query names the slot after the current one; the switch instant is
      strictly after the current slot began and exactly one guard before the next one. */
  lemma NextSwitchIsAhead(l: Lattice, now: int64)
    requires l.Ready() && NextSwitch(l, now).Ok?
    ensures var s := NextSwitch(l, now).value;
            && s.nextSlot > 0
            && SlotAt(l, now) == Ok(s.nextSlot - 1)
            && SlotStart(l, s.nextSlot).Ok? && SlotStart(l, s.nextSlot - 1).Ok?
            && SlotStart(l, s.nextSlot - 1).value < s.time
            && s.time + l.config.switchGuard == SlotStart(l, s.nextSlot).value
            && now < SlotStart(l, s.nextSlot).value
  {
    var k := SlotAt(l, now).value;
    SlotStartIsPhase(l, k + 1);
    SlotsAreEvenlySpaced(l, k);
    SlotAtInvertsSlotStart(l, k, now);
  }

  /** ... and it succeeds exactly when the lattice is synchronized, the reference has passed, and some
      slot start that is still ahead can be represented. */
  lemma NextSwitchExists(l: Lattice, now: int64)
    requires l.Ready()
    ensures NextSwitch(l, now).Ok? <==>
              && l.synchronized && l.referenceTime <= now
              && exists k: uint32 :: SlotStart(l, k).Ok? && now < SlotStart(l, k).value
  {
    if NextSwitch(l, now).Ok? {
      NextSwitchIsAhead(l, now);
      assert SlotStart(l, NextSwitch(l, now).value.nextSlot).Ok?;
    } else if l.synchronized && l.referenceTime <= now {
      forall k: uint32 | SlotStart(l, k).Ok?
        ensures SlotStart(l, k).value <= now
      {
        if now < SlotStart(l, k).value {
          LaterSlotMeansSwitch(l, now, k);
        }
      }
    }
  }

  lemma LaterSlotMeansSwitch(l: Lattice, now: int64, k: uint32)
    requires l.Ready() && l.synchronized && l.referenceTime <= now
    requires SlotStart(l, k).Ok? && now < SlotStart(l, k).value
    ensures NextSwitch(l, now).Ok?
  {
    WholeSlots(now - l.referenceTime, l.config.slotDuration, k - l.referenceSlot);
  }

  lemma WholeSlots(elapsed: nat, d: nat, n: nat)
    requires 0 < d && elapsed < n * d
    ensures elapsed / d < n && 0 <= (elapsed / d + 1) * d <= n * d
  {
    var whole := elapsed / d;
    QuotientIs(elapsed, d, whole);
    assert d * (whole + 1) == (whole + 1) * d && d * n == n * d;
    if whole >= n {
      ScaledOrder(d, n, whole);
    }
    ScaledOrder(d, whole + 1, n);
  }

  lemma SlotsAreEvenlySpaced(l: Lattice, k: uint32)
    requires l.Ready() && k < UINT32_MAX && l.referenceSlot <= k && SlotStart(l, k + 1).Ok?
    ensures SlotStart(l, k).Ok?
    ensures SlotStart(l, k + 1).value == SlotStart(l, k).value + l.config.slotDuration
  {
    var d, q := l.config.slotDuration, k - l.referenceSlot;
    assert (q + 1) * d == q * d + d;
  }

  /** Re-anchoring slot s to SlotStart(s) + c moves the phase, and with it every slot start
      from s on, by exactly c. */
  lemma RebaseShifts(l: Lattice, s: uint32, c: int)
    requires l.Ready() && SlotStart(l, s).Ok?
    requires 0 <= SlotStart(l, s).value + c <= INT64_MAX
    ensures var r := SetReference(l, s, SlotStart(l, s).value + c);
            && r.Ok? && r.value.Ready() && r.value.synchronized
            && r.value.Phase() == l.Phase() + c
            && r.value.config == l.config
    ensures forall k: uint32 ::
              var r := SetReference(l, s, SlotStart(l, s).value + c).value;
              SlotStart(l, k).Ok? && SlotStart(r, k).Ok? ==>
                SlotStart(r, k).value == SlotStart(l, k).value + c
  {
    SlotStartIsPhase(l, s);
    var r := SetReference(l, s, SlotStart(l, s).value + c).value;
    forall k: uint32 | SlotStart(l, k).Ok? && SlotStart(r, k).Ok?
      ensures SlotStart(r, k).value == SlotStart(l, k).value + c
    {
      SlotStartIsPhase(l, k);
      SlotStartIsPhase(r, k);
    }
  }

  // ---------------------------------------------------------------- the scheduler object

  class Scheduler {
    var config: SlotConfig
    var referenceSlot: uint32
    var referenceTime: int64
    var initialized: bool
    var synchronized: bool

    function View(): Lattice
      reads this
    {
      Lattice(config, referenceSlot, referenceTime, initialized, synchronized)
    }

    /** A zero-filled scheduler. */
    constructor ()
      ensures View() == Lattice(SlotConfig(0, 0), 0, 0, false, false)
    {
      config := SlotConfig(0, 0);
      referenceSlot := 0;
      referenceTime := 0;
      initialized := false;
      synchronized := false;
    }

    method Init(newConfig: SlotConfig) returns (ok: bool)
      modifies this
      ensures ok <==> newConfig.Valid()
      ensures ok ==> View() == Lattice(newConfig, 0, 0, true, false)
      ensures !ok ==> View() == old(View())
    {
      if newConfig.slotDuration == 0 || newConfig.switchGuard >= newConfig.slotDuration {
        return false;
      }
      config := newConfig;
      referenceSlot, referenceTime := 0, 0;
      initialized, synchronized := true, false;
      ok := true;
    }

    method SetReferenceTo(slot: uint32, time: int64) returns (ok: bool)
      modifies this
      ensures ok <==> SetReference(old(View()), slot, time).Ok?
      ensures View() == if ok then SetReference(old(View()), slot, time).value else old(View())
    {
      if !initialized || time < 0 {
        return false;
      }
      referenceSlot := slot;
      referenceTime := time;
      synchronized := true;
      ok := true;
    }

    method Clear() returns (ok: bool)
      modifies this
      ensures ok <==> ClearReference(old(View())).Ok?
      ensures View() == if ok then ClearReference(old(View())).value else old(View())
    {
      if !initialized {
        return false;
      }
      referenceSlot := 0;
      referenceTime := 0;
      synchronized := false;
      ok := true;
    }

    /** Struct assignment. */
    method CopyFrom(other: Scheduler)
      modifies this
      ensures View() == old(other.View())
    {
      config, referenceSlot, referenceTime := other.config, other.referenceSlot, other.referenceTime;
      initialized, synchronized := other.initialized, other.synchronized;
    }
  }
}
