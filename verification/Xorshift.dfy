/** The hop table's generator, xorshift32. */
module Xorshift {

  function Mix(x: bv32, shifted: bv32): bv32 { x ^ shifted }

  function Left13(x: bv32): bv32 { Mix(x, x << 13) }
  function Right17(x: bv32): bv32 { Mix(x, x >> 17) }
  function Left5(x: bv32): bv32 { Mix(x, x << 5) }

  function NextRandom(state: bv32): bv32 {
    Left5(Right17(Left13(state)))
  }

  const DEFAULT_STATE: bv32 := 0x6D2B79F5

  function InitialState(seed: bv32): bv32 {
    if seed != 0 then seed else DEFAULT_STATE
  }

  function StateAfter(seed: bv32, n: nat): bv32 {
    if n == 0 then InitialState(seed) else NextRandom(StateAfter(seed, n - 1))
  }

  lemma Left13Kernel(x: bv32)
    requires Left13(x) == 0
    ensures x == 0
  {}

  lemma Right17Kernel(x: bv32)
    requires Right17(x) == 0
    ensures x == 0
  {}

  lemma Left5Kernel(x: bv32)
    requires Left5(x) == 0
    ensures x == 0
  {}

  /** Zero, the generator's fixed point, has no other predecessor. */
  lemma OnlyZeroLeadsToZero(x: bv32)
    requires NextRandom(x) == 0
    ensures x == 0
  {
    Left5Kernel(Right17(Left13(x)));
    Right17Kernel(Left13(x));
    Left13Kernel(x);
  }

  // ---------------------------------------------------------------- what the generator computes

  // The values of a step are named before they are combined: exclusive or and shifts are kept in separate
  // lemmas, because the two together are hard on a solver that works bit by bit.

  lemma Regroup(x: bv32, y: bv32, z: bv32, u: bv32, v: bv32, w: bv32, a: bv32, b: bv32, c: bv32)
    requires z == x ^ y && w == u ^ v
    requires a == x ^ u && b == y ^ v && c == z ^ w
    ensures c == a ^ b
  {}

  lemma MixIsLinear(x: bv32, y: bv32, z: bv32, u: bv32, v: bv32, w: bv32, a: bv32, b: bv32, c: bv32)
    requires z == x ^ y && w == u ^ v
    requires a == Mix(x, u) && b == Mix(y, v) && c == Mix(z, w)
    ensures c == a ^ b
  {
    Regroup(x, y, z, u, v, w, a, b, c);
  }

  lemma Left13Shift(x: bv32, y: bv32, z: bv32, u: bv32, v: bv32, w: bv32)
    requires z == x ^ y && u == x << 13 && v == y << 13 && w == z << 13
    ensures w == u ^ v
  {}

  lemma Left13Part(x: bv32) returns (u: bv32)
    ensures Left13(x) == Mix(x, u) && u == x << 13
  {
    u := x << 13;
  }

  lemma Left13IsLinear(x: bv32, y: bv32, z: bv32, a: bv32, b: bv32, c: bv32)
    requires z == x ^ y && a == Left13(x) && b == Left13(y) && c == Left13(z)
    ensures c == a ^ b
  {
    var u, v, w := Left13Parts(x, y, z, a, b, c);
    MixIsLinear(x, y, z, u, v, w, a, b, c);
  }

  lemma Left13Parts(x: bv32, y: bv32, z: bv32, a: bv32, b: bv32, c: bv32) returns (u: bv32, v: bv32, w: bv32)
    requires z == x ^ y && a == Left13(x) && b == Left13(y) && c == Left13(z)
    ensures w == u ^ v && a == Mix(x, u) && b == Mix(y, v) && c == Mix(z, w)
  {
    u := Left13Part(x);
    v := Left13Part(y);
    w := Left13Part(z);
    Left13Shift(x, y, z, u, v, w);
  }

  lemma Right17Shift(x: bv32, y: bv32, z: bv32, u: bv32, v: bv32, w: bv32)
    requires z == x ^ y && u == x >> 17 && v == y >> 17 && w == z >> 17
    ensures w == u ^ v
  {}

  lemma Right17Part(x: bv32) returns (u: bv32)
    ensures Right17(x) == Mix(x, u) && u == x >> 17
  {
    u := x >> 17;
  }

  lemma Right17IsLinear(x: bv32, y: bv32, z: bv32, a: bv32, b: bv32, c: bv32)
    requires z == x ^ y && a == Right17(x) && b == Right17(y) && c == Right17(z)
    ensures c == a ^ b
  {
    var u, v, w := Right17Parts(x, y, z, a, b, c);
    MixIsLinear(x, y, z, u, v, w, a, b, c);
  }

  lemma Right17Parts(x: bv32, y: bv32, z: bv32, a: bv32, b: bv32, c: bv32) returns (u: bv32, v: bv32, w: bv32)
    requires z == x ^ y && a == Right17(x) && b == Right17(y) && c == Right17(z)
    ensures w == u ^ v && a == Mix(x, u) && b == Mix(y, v) && c == Mix(z, w)
  {
    u := Right17Part(x);
    v := Right17Part(y);
    w := Right17Part(z);
    Right17Shift(x, y, z, u, v, w);
  }

  lemma Left5Shift(x: bv32, y: bv32, z: bv32, u: bv32, v: bv32, w: bv32)
    requires z == x ^ y && u == x << 5 && v == y << 5 && w == z << 5
    ensures w == u ^ v
  {}

  lemma Left5Part(x: bv32) returns (u: bv32)
    ensures Left5(x) == Mix(x, u) && u == x << 5
  {
    u := x << 5;
  }

  lemma Left5IsLinear(x: bv32, y: bv32, z: bv32, a: bv32, b: bv32, c: bv32)
    requires z == x ^ y && a == Left5(x) && b == Left5(y) && c == Left5(z)
    ensures c == a ^ b
  {
    var u, v, w := Left5Parts(x, y, z, a, b, c);
    MixIsLinear(x, y, z, u, v, w, a, b, c);
  }

  lemma Left5Parts(x: bv32, y: bv32, z: bv32, a: bv32, b: bv32, c: bv32) returns (u: bv32, v: bv32, w: bv32)
    requires z == x ^ y && a == Left5(x) && b == Left5(y) && c == Left5(z)
    ensures w == u ^ v && a == Mix(x, u) && b == Mix(y, v) && c == Mix(z, w)
  {
    u := Left5Part(x);
    v := Left5Part(y);
    w := Left5Part(z);
    Left5Shift(x, y, z, u, v, w);
  }

  lemma NamedStates(x: bv32, p: bv32) returns (a: bv32, b: bv32)
    requires p == NextRandom(x)
    ensures a == Left13(x) && b == Right17(a) && p == Left5(b)
  {
    a := Left13(x);
    b := Right17(a);
  }

  lemma NamedNextIsLinear(x: bv32, y: bv32, z: bv32, p: bv32, q: bv32, r: bv32)
    requires z == x ^ y && p == NextRandom(x) && q == NextRandom(y) && r == NextRandom(z)
    ensures r == p ^ q
  {
    var a, b := NamedStates(x, p);
    var a', b' := NamedStates(y, q);
    var a'', b'' := NamedStates(z, r);
    Left13IsLinear(x, y, z, a, a', a'');
    Right17IsLinear(a, a', a'', b, b', b'');
    Left5IsLinear(b, b', b'', p, q, r);
  }

  /** One step is linear over exclusive or, so its values on the 32 states with a single bit set
      determine it everywhere. */
  lemma NextIsLinear(x: bv32, y: bv32)
    ensures NextRandom(x ^ y) == NextRandom(x) ^ NextRandom(y)
  {
    NamedNextIsLinear(x, y, x ^ y, NextRandom(x), NextRandom(y), NextRandom(x ^ y));
  }

  /** Those values, lowest bit first. */
  lemma SingleBitStates0()
    ensures NextRandom(0x00000001) == 0x00042021
    ensures NextRandom(0x00000002) == 0x00084042
    ensures NextRandom(0x00000004) == 0x00108084
    ensures NextRandom(0x00000008) == 0x00210108
    ensures NextRandom(0x00000010) == 0x00420231
    ensures NextRandom(0x00000020) == 0x00840462
    ensures NextRandom(0x00000040) == 0x010808C4
    ensures NextRandom(0x00000080) == 0x02101188
  {}

  lemma SingleBitStates8()
    ensures NextRandom(0x00000100) == 0x04202310
    ensures NextRandom(0x00000200) == 0x08404620
    ensures NextRandom(0x00000400) == 0x10808C40
    ensures NextRandom(0x00000800) == 0x21011880
    ensures NextRandom(0x00001000) == 0x42023100
    ensures NextRandom(0x00002000) == 0x84046200
    ensures NextRandom(0x00004000) == 0x0808C400
    ensures NextRandom(0x00008000) == 0x10118800
  {}

  lemma SingleBitStates16()
    ensures NextRandom(0x00010000) == 0x20231000
    ensures NextRandom(0x00020000) == 0x40462021
    ensures NextRandom(0x00040000) == 0x808C4042
    ensures NextRandom(0x00080000) == 0x01080084
    ensures NextRandom(0x00100000) == 0x02100108
    ensures NextRandom(0x00200000) == 0x04200210
    ensures NextRandom(0x00400000) == 0x08400420
    ensures NextRandom(0x00800000) == 0x10800840
  {}

  lemma SingleBitStates24()
    ensures NextRandom(0x01000000) == 0x21001080
    ensures NextRandom(0x02000000) == 0x42002100
    ensures NextRandom(0x04000000) == 0x84004200
    ensures NextRandom(0x08000000) == 0x08008400
    ensures NextRandom(0x10000000) == 0x10010800
    ensures NextRandom(0x20000000) == 0x20021000
    ensures NextRandom(0x40000000) == 0x40042000
    ensures NextRandom(0x80000000) == 0x80084000
  {}

  lemma XorIsZero(x: bv32, y: bv32, z: bv32)
    requires z == x ^ y
    ensures z == 0 <==> x == y
  {}

  /** No two states share a successor. */
  lemma NextIsInjective(x: bv32, y: bv32)
    requires NextRandom(x) == NextRandom(y)
    ensures x == y
  {
    var p, z := NextRandom(x), x ^ y;
    var r := NextRandom(z);
    NamedNextIsLinear(x, y, z, p, p, r);
    XorIsZero(p, p, r);
    OnlyZeroLeadsToZero(z);
    XorIsZero(x, y, z);
  }

  /** Two different seeds give different states for ever, except that seed 0 stands for the default. */
  lemma {:induction false} SeedsStayApart(a: bv32, b: bv32, n: nat)
    ensures StateAfter(a, n) == StateAfter(b, n) <==>
              a == b || (a == 0 && b == DEFAULT_STATE) || (b == 0 && a == DEFAULT_STATE)
    ensures a != 0 ==> StateAfter(a, 0) == a
  {
    if n != 0 {
      SeedsStayApart(a, b, n - 1);
      if StateAfter(a, n) == StateAfter(b, n) {
        NextIsInjective(StateAfter(a, n - 1), StateAfter(b, n - 1));
      }
    }
  }

  /** From every seed, zero included, the generator never gets stuck at zero. */
  lemma {:induction false} StateNeverZero(seed: bv32, n: nat)
    ensures StateAfter(seed, n) != 0
  {
    if n != 0 {
      StateNeverZero(seed, n - 1);
      if StateAfter(seed, n) == 0 {
        OnlyZeroLeadsToZero(StateAfter(seed, n - 1));
      }
    }
  }
}
