/** The adaptive phase correction of the SYNC controller and the receive timing window. */
module PhaseCorrection {
  import opened CTypes

  datatype Gain = Gain(
    deadband: uint32,
    fastThreshold: uint32,
    slowDivisor: uint32,
    fastDivisor: uint32,
    maxStep: uint32)
  {
    /** What fhss_sync_controller_init accepts. */
    predicate Valid() {
      slowDivisor != 0 && fastDivisor != 0 && maxStep != 0 && deadband <= fastThreshold
    }
  }

  /** |v| computed without negating the smallest int64. */
  function Magnitude(v: int64): (m: nat)
    ensures m == Abs(v)
  {
    if v < 0 then -(v + 1) + 1 else v
  }

  function Quotient(a: nat, s: nat): nat
    requires 0 < s
  {
    a / s
  }

  /** Uncapped correction magnitude of an error magnitude beyond the deadband. */
  function RawStep(g: Gain, m: nat): nat
    requires g.Valid() && g.deadband < m
  {
    var slow := if m < g.fastThreshold then m else g.fastThreshold;
    Quotient(slow - g.deadband, g.slowDivisor) +
    if m > g.fastThreshold then Quotient(m - g.fastThreshold, g.fastDivisor) else 0
  }

  function StepMagnitude(g: Gain, m: nat): nat
    requires g.Valid()
  {
    if m <= g.deadband then 0
    else
      var raw := RawStep(g, m);
      var atLeastOne := if raw == 0 then 1 else raw;
      if atLeastOne > g.maxStep then g.maxStep else atLeastOne
  }

  function Correction(g: Gain, error: int64): int
    requires g.Valid()
  {
    var step := StepMagnitude(g, Magnitude(error));
    if error < 0 then 0 - step else step
  }

  // ---------------------------------------------------------------- shape of the gain

  lemma QuotientGrowth(a: nat, b: nat, s: nat)
    requires a <= b && 0 < s
    ensures 0 <= Quotient(b, s) - Quotient(a, s) <= b - a
    ensures Quotient(0, s) == 0
  {
    var qa, qb := a / s, b / s;
    assert a == s * qa + a % s && b == s * qb + b % s;
    if qb < qa {
      ScaledOrder(s, qb + 1, qa);
      assert false;
    }
    if qb - qa > b - a {
      ScaledOrder(s, qa + (b - a) + 1, qb);
      ScaledOrder(b - a, 1, s);
      assert false;
    }
  }

  /** Beyond the deadband the uncapped step grows, but never faster than the error. */
  lemma RawStepGrowth(g: Gain, m: nat, n: nat)
    requires g.Valid() && g.deadband < m <= n
    ensures 0 <= RawStep(g, n) - RawStep(g, m) <= n - m
    ensures RawStep(g, m) <= m - g.deadband
  {
    var f := g.fastThreshold;
    var slowM, slowN := if m < f then m else f, if n < f then n else f;
    var fastM, fastN := if m > f then m - f else 0, if n > f then n - f else 0;
    QuotientGrowth(slowM - g.deadband, slowN - g.deadband, g.slowDivisor);
    QuotientGrowth(fastM, fastN, g.fastDivisor);
    QuotientGrowth(0, slowM - g.deadband, g.slowDivisor);
    QuotientGrowth(0, fastM, g.fastDivisor);
    RawStepSplits(g, m);
    RawStepSplits(g, n);
  }

  lemma RawStepSplits(g: Gain, m: nat)
    requires g.Valid() && g.deadband < m
    ensures var f := g.fastThreshold;
            RawStep(g, m) == Quotient((if m < f then m else f) - g.deadband, g.slowDivisor) +
                             Quotient(if m > f then m - f else 0, g.fastDivisor)
  {
    QuotientGrowth(0, 0, g.fastDivisor);
  }

  lemma StepGrowth(g: Gain, m: nat, n: nat)
    requires g.Valid() && m <= n
    ensures 0 <= StepMagnitude(g, n) - StepMagnitude(g, m) <= n - m
  {
    if g.deadband < m {
      RawStepGrowth(g, m, n);
    } else if g.deadband < n {
      RawStepGrowth(g, n, n);
    }
  }

  /** The correction is odd, vanishes exactly on the deadband, and outside it is at least one
      microsecond, at most the cap, and never more than the part of the error beyond the
      deadband. */
  lemma CorrectionLaws(g: Gain, e: int64)
    requires g.Valid()
    ensures e > INT64_MIN ==> Correction(g, -e) == -Correction(g, e)
    ensures Correction(g, e) == 0 <==> Abs(e) <= g.deadband
    ensures Abs(e) > g.deadband ==>
              && 1 <= Abs(Correction(g, e)) <= g.maxStep
              && Abs(Correction(g, e)) <= Abs(e) - g.deadband
              && (Correction(g, e) < 0 <==> e < 0)
  {
    if Abs(e) > g.deadband {
      RawStepGrowth(g, Abs(e), Abs(e));
    }
  }

  /** Monotone and 1-Lipschitz over the whole int64 range, so both the correction and the
      residual error keep the order of two observations. */
  lemma CorrectionOrder(g: Gain, a: int64, b: int64)
    requires g.Valid() && a <= b
    ensures 0 <= Correction(g, b) - Correction(g, a) <= b - a
    ensures a - Correction(g, a) <= b - Correction(g, b)
  {
    CorrectionLaws(g, a);
    CorrectionLaws(g, b);
    if 0 <= a {
      StepGrowth(g, a, b);
    } else if b < 0 {
      StepGrowth(g, 0 - b, 0 - a);
    } else {
      StepGrowth(g, 0, b);
      StepGrowth(g, 0, 0 - a);
    }
  }

  // ---------------------------------------------------------------- the piecewise gain

  /** n steps of one microsecond each, at least one and at most the cap. */
  function Steps(g: Gain, n: nat): nat {
    if n == 0 then Min(1, g.maxStep) else Min(n, g.maxStep)
  }

  /** Up to the fast threshold the correction counts the whole slow divisors in the error beyond the
      deadband: n of them give n microseconds, fewer than two of them one. */
  lemma SlowGain(g: Gain, e: int64, n: nat)
    requires g.Valid() && g.deadband < e <= g.fastThreshold
    requires g.slowDivisor * n <= e - g.deadband < g.slowDivisor * n + g.slowDivisor
    ensures Correction(g, e) == Steps(g, n)
  {
    QuotientIs(e - g.deadband, g.slowDivisor, n);
    assert Quotient(e - g.deadband, g.slowDivisor) == n;
  }

  /** Above the threshold it counts the slow divisors between deadband and threshold, and the whole
      fast divisors in the error beyond the threshold. */
  lemma FastGain(g: Gain, e: int64, n: nat, k: nat)
    requires g.Valid() && g.fastThreshold < e
    requires g.slowDivisor * n <= g.fastThreshold - g.deadband < g.slowDivisor * n + g.slowDivisor
    requires g.fastDivisor * k <= e - g.fastThreshold < g.fastDivisor * k + g.fastDivisor
    ensures Correction(g, e) == Steps(g, n + k)
  {
    QuotientIs(g.fastThreshold - g.deadband, g.slowDivisor, n);
    QuotientIs(e - g.fastThreshold, g.fastDivisor, k);
    RawStepSplits(g, e);
  }

  /** The audio link's own gain: 100 us beyond the deadband are 12 slow divisors; 200 us beyond the
      threshold add 100 fast ones to the 187 below it; large errors meet the cap. */
  lemma AudioLinkGain()
    ensures var g := Gain(500, 2000, 8, 2, 500);
            Correction(g, 600) == 12 && Correction(g, -2200) == -287 && Correction(g, 5000) == 500
  {}

  lemma WholeParts(x: nat, d: nat) returns (n: nat)
    requires 0 < d
    ensures d * n <= x < d * n + d
  {
    n := x / d;
    QuotientIs(x, d, n);
  }

  lemma OneMore(d: nat, n: nat)
    ensures d * (n + 1) == d * n + d
    ensures n == 0 ==> d * n == 0
  {}

  /** The correction is one microsecond while the excess is below two slow divisors; from one slow divisor
      on, each further one adds exactly one, up to the cap, as long as the threshold is not
      passed. */
  lemma SlowGainGrows(g: Gain, e: int64)
    requires g.Valid() && g.deadband < e <= g.fastThreshold
    ensures e - g.deadband < 2 * g.slowDivisor ==> Correction(g, e) == 1
    ensures e - g.deadband >= g.slowDivisor && e + g.slowDivisor <= g.fastThreshold ==>
              Correction(g, e + g.slowDivisor) == Min(Correction(g, e) + 1, g.maxStep)
  {
    var n := WholeParts(e - g.deadband, g.slowDivisor);
    SlowGain(g, e, n);
    OneMore(g.slowDivisor, n);
    if e - g.deadband < 2 * g.slowDivisor && n >= 2 {
      ScaledOrder(g.slowDivisor, 2, n);
      assert false;
    }
    if e - g.deadband >= g.slowDivisor && e + g.slowDivisor <= g.fastThreshold {
      SlowGain(g, e + g.slowDivisor, n + 1);
    }
  }

  /** Beyond the threshold each fast divisor of error adds exactly one, up to the cap, once the
      uncapped step is at least one: that is when a slow divisor fits below the threshold or a
      fast one above it. */
  lemma FastGainGrows(g: Gain, e: int64)
    requires g.Valid() && g.fastThreshold < e && e + g.fastDivisor <= INT64_MAX
    requires g.fastThreshold - g.deadband >= g.slowDivisor || e - g.fastThreshold >= g.fastDivisor
    ensures Correction(g, e + g.fastDivisor) == Min(Correction(g, e) + 1, g.maxStep)
  {
    var n := WholeParts(g.fastThreshold - g.deadband, g.slowDivisor);
    var k := WholeParts(e - g.fastThreshold, g.fastDivisor);
    OneMore(g.slowDivisor, n);
    OneMore(g.fastDivisor, k);
    FastGain(g, e, n, k);
    FastGain(g, e + g.fastDivisor, n, k + 1);
  }

  // ---------------------------------------------------------------- convergence

  /** Error after n accepted SYNCs of a transmitter whose phase does not move. */
  function Settle(g: Gain, e: int64, n: nat): int64
    requires g.Valid()
    decreases n
  {
    if n == 0 then e
    else
      CorrectionLaws(g, e);
      Settle(g, e - Correction(g, e), n - 1)
  }

  /** From any error outside the deadband the loop stops exactly on the deadband edge it came
      from, after at most |e| - deadband SYNCs, and cannot get there before the capped step
      allows. Inside the deadband nothing moves. */
  lemma {:induction false} Settles(g: Gain, e: int64, n: nat)
    requires g.Valid()
    ensures Abs(e) <= g.deadband ==> Settle(g, e, n) == e
    ensures Abs(e) > g.deadband && n >= Abs(e) - g.deadband ==>
              Settle(g, e, n) == if e < 0 then 0 - g.deadband else g.deadband
    ensures Abs(e) > g.deadband + n * g.maxStep ==> Abs(Settle(g, e, n)) > g.deadband
    ensures Abs(Settle(g, e, n)) <= Abs(e)
    ensures Settle(g, e, n) == e || (Settle(g, e, n) < 0 <==> e < 0) || Settle(g, e, n) == 0
    decreases n
  {
    if n != 0 {
      CorrectionLaws(g, e);
      Settles(g, e - Correction(g, e), n - 1);
      assert n * g.maxStep == (n - 1) * g.maxStep + g.maxStep;
    }
  }

  // ---------------------------------------------------------------- bounded drift

  /** One accepted SYNC: correct by the observed error, then the transmitter drifts. */
  function Drifted(g: Gain, e: int64, drift: int): int
    requires g.Valid()
  {
    e - Correction(g, e) + drift
  }

  /** The error is within m now and after every one of the given drifts. */
  ghost predicate StaysWithin(g: Gain, m: nat, e: int, drifts: seq<int>)
    requires g.Valid() && m <= INT64_MAX
    decreases |drifts|
  {
    Abs(e) <= m &&
    (drifts != [] ==> StaysWithin(g, m, Drifted(g, e, drifts[0]), drifts[1..]))
  }

  ghost predicate Budgeted(drifts: seq<int>, budget: nat) {
    forall i | 0 <= i < |drifts| :: Abs(drifts[i]) <= budget
  }

  /** The contraction step: correcting an error within m leaves at most m - correction(m). */
  lemma ResidualBound(g: Gain, m: nat, e: int64)
    requires g.Valid() && m <= INT64_MAX && Abs(e) <= m
    ensures Abs(e - Correction(g, e)) <= m - Correction(g, m)
  {
    CorrectionLaws(g, m);
    CorrectionOrder(g, e, m);
    CorrectionOrder(g, 0 - m, e);
  }

  lemma {:induction false} DriftWithinBudget(g: Gain, m: nat, budget: nat, e: int64, drifts: seq<int>)
    requires g.Valid() && m <= INT64_MAX && Abs(e) <= m
    requires budget <= Correction(g, m) && Budgeted(drifts, budget)
    ensures StaysWithin(g, m, e, drifts)
    decreases |drifts|
  {
    ResidualBound(g, m, e);
    if drifts != [] {
      DriftWithinBudget(g, m, budget, Drifted(g, e, drifts[0]), drifts[1..]);
    }
  }

  /** The drift budget correction(m) is exact: a per-SYNC drift budget is survived from every
      error within m, for every drift sequence of any length, precisely when it does not
      exceed correction(m). */
  lemma DriftBudgetIsExact(g: Gain, m: nat, budget: nat)
    requires g.Valid() && m <= INT64_MAX
    ensures (forall e: int64, drifts |
               Abs(e) <= m && Budgeted(drifts, budget) :: StaysWithin(g, m, e, drifts))
            <==> budget <= Correction(g, m)
  {
    if budget <= Correction(g, m) {
      forall e: int64, drifts | Abs(e) <= m && Budgeted(drifts, budget)
        ensures StaysWithin(g, m, e, drifts)
      {
        DriftWithinBudget(g, m, budget, e, drifts);
      }
    } else {
      var push := [budget];
      assert Budgeted(push, budget);
      assert Drifted(g, m, push[0]) > m;
      assert !StaysWithin(g, m, m, push);
    }
  }

  // ---------------------------------------------------------------- timing window

  datatype Window = Window(earlyMargin: uint32, lateMargin: uint32)
  datatype Placement = Before | Inside | After
  datatype Evaluation = Evaluation(error: int, placement: Placement)

  function Evaluate(w: Window, expected: int, actual: int): Evaluation {
    var error := actual - expected;
    Evaluation(error,
      if error < 0 - w.earlyMargin then Before
      else if error > w.lateMargin then After
      else Inside)
  }
}
