/** The seeded hopping order: xorshift32, the pinned Fisher-Yates shuffle and slot lookup. */
module HopSequence {
  import opened CTypes
  import opened Xorshift

  datatype HopStatus = InvalidConfig | NotInitialized

  // ---------------------------------------------------------------- the shuffle

  function Swap(p: seq<uint8>, i: nat, j: nat): seq<uint8>
    requires i < |p| && j < |p|
  {
    p[i := p[j]][j := p[i]]
  }

  /** The draw that picks the partner of position i - 1. */
  function Select(value: bv32, i: nat): nat
    requires i > 2
  {
    1 + (value as int) % (i - 1)
  }

  /** The remaining shuffle steps, for positions i - 1 down to 2, from a generator state. */
  function Shuffle(p: seq<uint8>, state: bv32, i: nat): seq<uint8>
    requires i <= |p|
    decreases i
  {
    if i <= 2 then p
    else
      var value := NextRandom(state);
      Shuffle(Swap(p, i - 1, Select(value, i)), value, i - 1)
  }

  function Identity(n: nat): (p: seq<uint8>)
    requires n <= 256
    ensures |p| == n && forall k | 0 <= k < n :: p[k] == k
  {
    seq(n, k requires 0 <= k < n => k as uint8)
  }

  function HopTable(n: nat, seed: bv32): seq<uint8>
    requires n <= 256
  {
    Shuffle(Identity(n), InitialState(seed), n)
  }

  predicate Distinct<T(==)>(s: seq<T>) {
    forall j, k | 0 <= j < k < |s| :: s[j] != s[k]
  }

  predicate IsPermutation(p: seq<uint8>) {
    Distinct(p) && forall k | 0 <= k < |p| :: p[k] < |p|
  }

  lemma {:induction false} ShuffleKeepsPermutation(p: seq<uint8>, state: bv32, i: nat)
    requires i <= |p| && IsPermutation(p)
    ensures var q := Shuffle(p, state, i);
            |q| == |p| && IsPermutation(q) && (|p| > 0 ==> q[0] == p[0])
    decreases i
  {
    if i > 2 {
      var value := NextRandom(state);
      ShuffleKeepsPermutation(Swap(p, i - 1, Select(value, i)), value, i - 1);
    }
  }

  /** Every seed yields a permutation of 0..n-1 whose first entry is the rendezvous index 0. */
  lemma HopTableIsPinnedPermutation(n: nat, seed: bv32)
    requires 0 < n <= 256
    ensures |HopTable(n, seed)| == n && IsPermutation(HopTable(n, seed)) && HopTable(n, seed)[0] == 0
  {
    ShuffleKeepsPermutation(Identity(n), InitialState(seed), n);
  }

  // ---- the shuffle structure is fair: orders and draw sequences correspond one to one

  predicate LegalDraws(draws: seq<nat>, i: nat)
  {
    |draws| == (if i > 2 then i - 2 else 0) &&
    forall k | 0 <= k < |draws| :: 1 <= draws[k] < i - k
  }

  /** The shuffle with its random selections given explicitly, first draw first. */
  function ShuffleBy(p: seq<uint8>, draws: seq<nat>, i: nat): seq<uint8>
    requires i <= |p| && LegalDraws(draws, i)
    decreases i
  {
    if i <= 2 then p
    else
      ShuffleBy(Swap(p, i - 1, draws[0]), draws[1..], i - 1)
  }

  function Draws(state: bv32, i: nat): (draws: seq<nat>)
    ensures LegalDraws(draws, i)
    decreases i
  {
    if i <= 2 then []
    else
      var value := NextRandom(state);
      [Select(value, i)] + Draws(value, i - 1)
  }

  lemma {:induction false} ShuffleUsesItsDraws(p: seq<uint8>, state: bv32, i: nat)
    requires i <= |p|
    ensures Shuffle(p, state, i) == ShuffleBy(p, Draws(state, i), i)
    decreases i
  {
    if i > 2 {
      var value := NextRandom(state);
      ShuffleUsesItsDraws(Swap(p, i - 1, Select(value, i)), value, i - 1);
      assert Draws(state, i)[1..] == Draws(value, i - 1);
    }
  }

  lemma {:induction false} ShuffleByFixesTail(p: seq<uint8>, draws: seq<nat>, i: nat)
    requires i <= |p| && LegalDraws(draws, i)
    ensures var q := ShuffleBy(p, draws, i);
            |q| == |p| && (forall k | i <= k < |p| :: q[k] == p[k]) && (|p| > 0 ==> q[0] == p[0])
    decreases i
  {
    if i > 2 {
      ShuffleByFixesTail(Swap(p, i - 1, draws[0]), draws[1..], i - 1);
    }
  }

  /** The final order reveals every draw: different draw sequences give different orders. */
  lemma {:induction false} DrawsAreRecoverable(p: seq<uint8>, a: seq<nat>, b: seq<nat>, i: nat)
    requires i <= |p| && Distinct(p) && LegalDraws(a, i) && LegalDraws(b, i)
    requires ShuffleBy(p, a, i) == ShuffleBy(p, b, i)
    ensures a == b
    decreases i
  {
    if i > 2 {
      var pa, pb := Swap(p, i - 1, a[0]), Swap(p, i - 1, b[0]);
      ShuffleByFixesTail(pa, a[1..], i - 1);
      ShuffleByFixesTail(pb, b[1..], i - 1);
      assert p[a[0]] == pa[i - 1] == pb[i - 1] == p[b[0]];
      DrawsAreRecoverable(pa, a[1..], b[1..], i - 1);
    }
  }

  /** Every order that keeps the first entry in place is produced by some draw sequence. */
  lemma {:induction false} EveryOrderIsDrawn(p: seq<uint8>, q: seq<uint8>, i: nat) returns (draws: seq<nat>)
    requires i <= |p| == |q| && 0 < i
    requires IsPermutation(p) && IsPermutation(q)
    requires p[0] == q[0] && forall k | i <= k < |p| :: p[k] == q[k]
    ensures LegalDraws(draws, i) && ShuffleBy(p, draws, i) == q
    decreases i
  {
    if i <= 2 {
      draws := [];
      if i == 2 {
        var j := IndexOf(p, q[1]);
      }
      assert p == q;
    } else {
      var j := IndexOf(p, q[i - 1]);
      var rest := EveryOrderIsDrawn(Swap(p, i - 1, j), q, i - 1);
      draws := [j] + rest;
      assert draws[1..] == rest;
    }
  }

  // ---- the draws come from the seeded generator

  /** The draws of any part of the shuffle are the generator's next states, reduced to the positions
      that are left. */
  lemma {:induction false} DrawsFollowGenerator(seed: bv32, j: nat, i: nat, k: nat)
    requires k < |Draws(StateAfter(seed, j), i)|
    ensures Draws(StateAfter(seed, j), i)[k] - 1 == (StateAfter(seed, j + k + 1) as int) % (i - 1 - k)
    decreases k
  {
    if k != 0 {
      DrawsFollowGenerator(seed, j + 1, i - 1, k - 1);
    }
  }

  /** Draw number k of the table for n channels is 1 plus the generator's state k + 1 modulo n - 1 - k. */
  lemma DrawIsGeneratorState(n: nat, seed: bv32, k: nat)
    requires k + 2 < n
    ensures var draws := Draws(InitialState(seed), n);
            k < |draws| && draws[k] - 1 == (StateAfter(seed, k + 1) as int) % (n - 1 - k)
  {
    DrawsFollowGenerator(seed, 0, n, k);
  }

  /** Two seeds give one table exactly when they give the same draws. */
  lemma TablesEqualIffDrawsEqual(n: nat, a: bv32, b: bv32)
    requires n <= 256
    ensures HopTable(n, a) == HopTable(n, b) <==> Draws(InitialState(a), n) == Draws(InitialState(b), n)
  {
    ShuffleUsesItsDraws(Identity(n), InitialState(a), n);
    ShuffleUsesItsDraws(Identity(n), InitialState(b), n);
    if HopTable(n, a) == HopTable(n, b) {
      DrawsAreRecoverable(Identity(n), Draws(InitialState(a), n), Draws(InitialState(b), n), n);
    }
  }

  /** Seeds whose first generator states are 1 and 2. */
  const LOW_SEED: bv32 := 0xF2B58529
  const HIGH_SEED: bv32 := 0xE56B0A52

  lemma FirstStates()
    ensures StateAfter(LOW_SEED, 1) == 1 && StateAfter(HIGH_SEED, 1) == 2
  {
    assert StateAfter(LOW_SEED, 0) == LOW_SEED && StateAfter(HIGH_SEED, 0) == HIGH_SEED;
    assert NextRandom(LOW_SEED) == 1 && NextRandom(HIGH_SEED) == 2;
  }

  /** The seed matters: wherever there is anything to shuffle, some two seeds give different tables. */
  lemma SeedsMatter(n: nat)
    requires 3 <= n <= 256
    ensures HopTable(n, LOW_SEED) != HopTable(n, HIGH_SEED)
  {
    FirstStates();
    DrawIsGeneratorState(n, LOW_SEED, 0);
    DrawIsGeneratorState(n, HIGH_SEED, 0);
    TablesEqualIffDrawsEqual(n, LOW_SEED, HIGH_SEED);
    SmallResidues(n - 1);
  }

  lemma SmallResidues(d: nat)
    requires 2 <= d
    ensures (1 as bv32) as int % d != (2 as bv32) as int % d
  {
    assert (1 as bv32) as int == 1 && (2 as bv32) as int == 2;
  }

  /** A table worked out by hand: four channels, seed 1. */
  lemma FourChannels()
    ensures HopTable(4, 1) == [0, 3, 2, 1]
  {
    assert NextRandom(1) == 0x42021 && NextRandom(0x42021) == 0x4080601;
    assert (0x42021 as bv32) as int == 0x42021 && (0x4080601 as bv32) as int == 0x4080601;
    var p := Identity(4);
    assert p == [0, 1, 2, 3];
    assert Shuffle(p, 1, 4) == Shuffle(Swap(p, 3, 1), 0x42021, 3);
    assert Swap(p, 3, 1) == [0, 3, 2, 1];
  }

  // ---------------------------------------------------------------- pigeonhole

  function Range(n: nat): (s: set<int>)
    ensures |s| == n && forall x :: x in s <==> 0 <= x < n
  {
    if n == 0 then {} else Range(n - 1) + {n - 1}
  }

  function Elements(s: seq<int>): set<int> {
    set x | x in s
  }

  lemma {:induction false} DistinctCount(s: seq<int>)
    requires Distinct(s)
    ensures |Elements(s)| == |s|
  {
    if s != [] {
      var init, last := s[..|s| - 1], s[|s| - 1];
      DistinctCount(init);
      assert s == init + [last];
      assert Elements(s) == Elements(init) + {last};
    }
  }

  /** Distinct entries below n fill 0..n-1, so every value has a position. */
  lemma IndexOf(p: seq<uint8>, v: int) returns (j: nat)
    requires IsPermutation(p) && 0 <= v < |p|
    ensures j < |p| && p[j] == v
  {
    var entries := Elements(p);
    DistinctCount(p);
    if v !in entries {
      SubsetCount(entries, Range(|p|) - {v});
    }
    j :| 0 <= j < |p| && p[j] == v;
  }

  lemma SubsetCount(a: set<int>, b: set<int>)
    requires a <= b
    ensures |a| <= |b|
  {
    assert b == a + (b - a);
  }

  // ---------------------------------------------------------------- slot lookup

  datatype Hop = Hop(channels: seq<uint8>, permutation: seq<uint8>, initialized: bool)
  {
    predicate Ready() {
      && initialized
      && 0 < |channels| <= 256 && |permutation| == |channels|
      && Distinct(channels)
      && IsPermutation(permutation) && permutation[0] == 0
    }
  }

  /** What initialization accepts; `reserved` is None for the API without that policy. */
  predicate Acceptable(channels: seq<uint8>, reserved: Option<uint8>) {
    && 0 < |channels| <= 256
    && Distinct(channels)
    && (reserved.Some? ==> reserved.value !in channels)
  }

  function InitHop(channels: seq<uint8>, seed: bv32, reserved: Option<uint8>): Result<Hop, HopStatus> {
    if Acceptable(channels, reserved) then
      Ok(Hop(channels, HopTable(|channels|, seed), true))
    else Err(InvalidConfig)
  }

  lemma InitHopIsReady(channels: seq<uint8>, seed: bv32, reserved: Option<uint8>)
    requires Acceptable(channels, reserved)
    ensures InitHop(channels, seed, reserved).value.Ready()
  {
    HopTableIsPinnedPermutation(|channels|, seed);
  }

  function IndexAt(h: Hop, slot: uint32): Result<uint8, HopStatus>
    requires h.initialized ==> h.Ready()
  {
    if !h.initialized then Err(NotInitialized)
    else Ok(h.permutation[slot % |h.channels|])
  }

  function ChannelAt(h: Hop, slot: uint32): Result<uint8, HopStatus>
    requires h.initialized ==> h.Ready()
  {
    var index := IndexAt(h, slot);
    if index.Err? then Err(index.error) else Ok(h.channels[index.value])
  }

  lemma WindowResidue(s: nat, n: nat, r: nat) returns (k: nat)
    requires 0 < n && r < n
    ensures s <= k < s + n && k % n == r
  {
    var q := s / n;
    assert s == n * q + s % n;
    k := if r >= s % n then n * q + r else n * q + n + r;
    QuotientIs(k, n, if r >= s % n then q else q + 1);
  }

  lemma SameResidue(j: nat, k: nat, n: nat)
    requires 0 < n && j < k < j + n
    ensures j % n != k % n
  {
    QuotientIs(j, n, j / n);
    QuotientIs(k, n, k / n);
    if j / n == k / n {
      assert j - n * (j / n) != k - n * (k / n);
    } else if k / n < j / n {
      ScaledOrder(n, k / n + 1, j / n);
    } else {
      ScaledOrder(n, j / n + 1, k / n);
      assert j % n == j - n * (j / n) && k % n == k - n * (k / n);
      if k / n == j / n + 1 {
        assert n * (k / n) == n * (j / n) + n;
      } else {
        ScaledOrder(n, j / n + 2, k / n);
      }
    }
  }

  /** In any |channels| consecutive slots that do not wrap the slot counter, every channel is
      used exactly once; the rendezvous channel sits on the multiples of |channels|; a channel
      kept out of the list is never used. */
  lemma CycleVisitsEachChannelOnce(h: Hop, s: uint32, c: uint8)
    requires h.Ready() && s + |h.channels| - 1 <= UINT32_MAX
    ensures forall j: uint32, k: uint32 | s <= j < k < s + |h.channels| ::
              ChannelAt(h, j) != ChannelAt(h, k)
    ensures c in h.channels <==>
              exists k: uint32 | s <= k < s + |h.channels| :: ChannelAt(h, k) == Ok(c)
    ensures forall k: uint32 ::
              ChannelAt(h, k) == Ok(h.channels[0]) <==> k % |h.channels| == 0
  {
    var n := |h.channels|;
    forall j: uint32, k: uint32 | s <= j < k < s + n
      ensures ChannelAt(h, j) != ChannelAt(h, k)
    {
      SameResidue(j, k, n);
    }
    if c in h.channels {
      var k := SlotOfChannel(h, s, c);
      assert ChannelAt(h, k) == Ok(c);
    }
  }

  lemma SlotOfChannel(h: Hop, s: uint32, c: uint8) returns (k: uint32)
    requires h.Ready() && s + |h.channels| - 1 <= UINT32_MAX && c in h.channels
    ensures s <= k < s + |h.channels| && ChannelAt(h, k) == Ok(c)
  {
    var v :| 0 <= v < |h.channels| && h.channels[v] == c;
    var r := IndexOf(h.permutation, v);
    k := WindowResidue(s, |h.channels|, r);
  }

  /** Hopping follows the table: the channels of one cycle reveal every entry, so two receivers with one
      channel list that hop alike for a cycle have the same table. */
  lemma CycleRevealsTable(h: Hop, h': Hop)
    requires h.Ready() && h'.Ready() && h.channels == h'.channels
    requires forall slot: uint32 | slot < |h.channels| :: ChannelAt(h, slot) == ChannelAt(h', slot)
    ensures h.permutation == h'.permutation
  {
    var n := |h.channels|;
    forall k | 0 <= k < n
      ensures h.permutation[k] == h'.permutation[k]
    {
      EntryRevealed(h, h', k);
    }
  }

  lemma EntryRevealed(h: Hop, h': Hop, k: nat)
    requires h.Ready() && h'.Ready() && h.channels == h'.channels && k < |h.channels|
    requires ChannelAt(h, k) == ChannelAt(h', k)
    ensures h.permutation[k] == h'.permutation[k]
  {
    ChannelOfEntry(h, k);
    ChannelOfEntry(h', k);
    DistinctAt(h.channels, h.permutation[k], h'.permutation[k]);
  }

  lemma ChannelOfEntry(h: Hop, k: nat)
    requires h.Ready() && k < |h.channels|
    ensures h.permutation[k] < |h.channels| && ChannelAt(h, k) == Ok(h.channels[h.permutation[k]])
  {
    SmallRemainder(k, |h.channels|);
  }

  lemma SmallRemainder(k: nat, n: nat)
    requires k < n
    ensures k % n == k
  {}

  lemma DistinctAt(s: seq<uint8>, a: nat, b: nat)
    requires Distinct(s) && a < |s| && b < |s| && s[a] == s[b]
    ensures a == b
  {}

  // ---------------------------------------------------------------- the sequence object

  /** In-place Fisher-Yates over the first n entries of the table, entry 0 pinned. */
  method ShuffleInPlace(table: array<uint8>, n: nat, seed: bv32)
    requires n <= table.Length
    modifies table
    ensures table[..n] == Shuffle(old(table[..n]), InitialState(seed), n)
    ensures table[n..] == old(table[n..])
  {
    var state := InitialState(seed);
    ghost var was := table[..n];
    var i := n;
    while i > 2
      invariant i <= n
      invariant table[n..] == old(table[n..])
      invariant Shuffle(table[..n], state, i) == Shuffle(was, InitialState(seed), n)
    {
      state := NextRandom(state);
      var selected := 1 + (state as int) % (i - 1);
      ghost var before := table[..n];
      table[i - 1], table[selected] := table[selected], table[i - 1];
      assert table[..n] == Swap(before, i - 1, selected);
      i := i - 1;
    }
  }

  /** Rejects a reserved or repeated channel while filling the table with 0, 1, 2, ... */
  method FillIdentity(channels: seq<uint8>, reserved: Option<uint8>, table: array<uint8>) returns (ok: bool)
    requires 0 < |channels| <= 256 && table.Length == |channels|
    modifies table
    ensures ok <==> Acceptable(channels, reserved)
    ensures ok ==> forall k | 0 <= k < |channels| :: table[k] == k
  {
    var i := 0;
    while i < |channels|
      invariant i <= |channels|
      invariant Distinct(channels[..i])
      invariant reserved.Some? ==> reserved.value !in channels[..i]
      invariant forall k | 0 <= k < i :: table[k] == k
    {
      if reserved.Some? && channels[i] == reserved.value {
        return false;
      }
      var j := 0;
      while j < i
        invariant j <= i
        invariant channels[i] !in channels[..j]
      {
        if channels[i] == channels[j] {
          return false;
        }
        j := j + 1;
      }
      table[i] := i;
      i := i + 1;
    }
    assert channels[..i] == channels;
    ok := true;
  }

  class FhssHopSequence {
    var channels: seq<uint8>
    var permutation: seq<uint8>
    var initialized: bool

    function View(): Hop
      reads this
    {
      Hop(channels, permutation, initialized)
    }

    constructor ()
      ensures View() == Hop([], [], false)
    {
      channels, permutation, initialized := [], [], false;
    }

    method Initialize(newChannels: seq<uint8>, seed: bv32, reserved: Option<uint8>) returns (ok: bool)
      modifies this
      ensures ok <==> InitHop(newChannels, seed, reserved).Ok?
      ensures View() == if ok then InitHop(newChannels, seed, reserved).value else old(View())
    {
      var n := |newChannels|;
      if n == 0 || n > 256 {
        return false;
      }
      var table := new uint8[n](_ => 0);
      ok := FillIdentity(newChannels, reserved, table);
      if !ok {
        return;
      }
      assert table[..n] == Identity(n);
      ShuffleInPlace(table, n, seed);
      channels, permutation, initialized := newChannels, table[..n], true;
    }

    /** Struct assignment. */
    method CopyFrom(other: FhssHopSequence)
      modifies this
      ensures View() == old(other.View())
    {
      channels, permutation, initialized := other.channels, other.permutation, other.initialized;
    }
  }
}
