/** The pseudo-random generators of the microbenchmarks, on machine words. */
module Generators {

  // ---------------------------------------------------------------- splitmix64

  function Xor30(z: bv64): bv64 {
    z ^ (z >> 30)
  }

  function UndoXor30(y: bv64): bv64 {
    y ^ (y >> 30) ^ (y >> 60)
  }

  lemma Xor30Undone(z: bv64)
    ensures UndoXor30(Xor30(z)) == z
  {
    assert UndoXor30(z ^ (z >> 30)) == z;
  }

  function Xor27(z: bv64): bv64 {
    z ^ (z >> 27)
  }

  function UndoXor27(y: bv64): bv64 {
    y ^ (y >> 27) ^ (y >> 54)
  }

  lemma Xor27Undone(z: bv64)
    ensures UndoXor27(Xor27(z)) == z
  {
    assert UndoXor27(z ^ (z >> 27)) == z;
  }

  function Xor31(z: bv64): bv64 {
    z ^ (z >> 31)
  }

  function UndoXor31(y: bv64): bv64 {
    y ^ (y >> 31) ^ (y >> 62)
  }

  lemma Xor31Undone(z: bv64)
    ensures UndoXor31(Xor31(z)) == z
  {
    assert UndoXor31(z ^ (z >> 31)) == z;
  }

  function Multiply1(z: bv64): bv64 {
    z * 0xBF58476D1CE4E5B9
  }

  /** Division by an odd factor: multiplication with its inverse modulo 2^64. */
  function Divide1(z: bv64): bv64 {
    z * 0x96DE1B173F119089
  }

  lemma Multiply1Undone(z: bv64)
    ensures Divide1(Multiply1(z)) == z
  {
    assert Divide1(z * 0xBF58476D1CE4E5B9) == z;
  }

  function Multiply2(z: bv64): bv64 {
    z * 0x94D049BB133111EB
  }

  /** Division by an odd factor: multiplication with its inverse modulo 2^64. */
  function Divide2(z: bv64): bv64 {
    z * 0x319642B2D24D8EC3
  }

  lemma Multiply2Undone(z: bv64)
    ensures Divide2(Multiply2(z)) == z
  {
    assert Divide2(z * 0x94D049BB133111EB) == z;
  }

  function SplitMix64(index: bv64): bv64 {
    Xor31(Multiply2(Xor27(Multiply1(Xor30(index + 0x9E3779B97F4A7C15)))))
  }

  /** The index that a value came from. */
  function SplitMix64Index(value: bv64): bv64 {
    UndoXor30(Divide1(UndoXor27(Divide2(UndoXor31(value))))) - 0x9E3779B97F4A7C15
  }

  lemma IndexOfSplitMix64(x: bv64)
    ensures SplitMix64Index(SplitMix64(x)) == x
  {
    var z := x + 0x9E3779B97F4A7C15;
    Xor30Undone(z);
    Multiply1Undone(Xor30(z));
    Xor27Undone(Multiply1(Xor30(z)));
    Multiply2Undone(Xor27(Multiply1(Xor30(z))));
    Xor31Undone(Multiply2(Xor27(Multiply1(Xor30(z)))));
  }

  /** splitmix64 maps different words to different words. */
  lemma SplitMix64Injective(x: bv64, y: bv64)
    ensures SplitMix64(x) == SplitMix64(y) <==> x == y
  {
    IndexOfSplitMix64(x);
    IndexOfSplitMix64(y);
  }

  /** The values for 0 and 1, as the published generator gives them. */
  lemma SplitMix64Values()
    ensures SplitMix64(0) == 0xE220A8397B1DCDAF && SplitMix64(1) == 0x910A2DEC89025CC1
  {
  }

  // ---------------------------------------------------------------- Lehmer

  function Join(high: bv64, low: bv64): bv128 {
    ((high as bv128) << 64) + (low as bv128)
  }

  function LehmerSeed(seed: bv64): bv128 {
    Join(SplitMix64(seed), SplitMix64(seed + 1))
  }

  function LehmerRandom(state: bv128): bv128 {
    state * 0xda942042e4dd58b5
  }

  function LehmerBack(state: bv128): bv128 {
    state * 0x0CD365D2CB1A6A6C8B838D0354EAD59D
  }

  /** The Lehmer step is a bijection on 128-bit states and keeps the lowest bit. */
  lemma LehmerBijective(state: bv128)
    ensures LehmerBack(LehmerRandom(state)) == state && LehmerRandom(LehmerBack(state)) == state
    ensures LehmerRandom(state) & 1 == state & 1
  {
  }

  lemma JoinInjective(a: bv64, b: bv64, a': bv64, b': bv64)
    requires Join(a, b) == Join(a', b')
    ensures a == a' && b == b'
  {
  }

  /** A seed's word is the upper half of the state, the next one's the lower. */
  lemma LehmerSeedOfZero()
    ensures LehmerSeed(0) == 0xE220A8397B1DCDAF910A2DEC89025CC1
  {
    SplitMix64Values();
  }

  /** The step is the multiplication with the constant: as often as the state says, the constant is added. */
  lemma LehmerAddsConstant(state: bv128)
    ensures LehmerRandom(0) == 0 && LehmerRandom(state + 1) == LehmerRandom(state) + 0xda942042e4dd58b5
  {
  }

  /** Different seeds start different streams. */
  lemma LehmerSeedInjective(seed: bv64, seed': bv64)
    requires LehmerSeed(seed) == LehmerSeed(seed')
    ensures seed == seed'
  {
    JoinInjective(SplitMix64(seed), SplitMix64(seed + 1), SplitMix64(seed'), SplitMix64(seed' + 1));
    SplitMix64Injective(seed, seed');
  }

  function LehmerRun(state: bv128, n: nat): bv128 {
    if n == 0 then state else LehmerRandom(LehmerRun(state, n - 1))
  }

  /** Streams never meet: two states that agree after any number of steps were equal, and zero stays apart. */
  lemma {:induction false} LehmerStreamsApart(state: bv128, state': bv128, n: nat)
    ensures LehmerRun(state, n) == LehmerRun(state', n) <==> state == state'
    ensures LehmerRun(state, n) & 1 == state & 1
    ensures LehmerRun(state, n) == 0 <==> state == 0
  {
    if n != 0 {
      LehmerStreamsApart(state, state', n - 1);
      LehmerBijective(LehmerRun(state, n - 1));
      LehmerBijective(LehmerRun(state', n - 1));
    }
  }

  // ---------------------------------------------------------------- the linear feedback shift register

  /** shr, and, neg, and, xor. */
  function Lfsr(x: bv64): bv64 {
    (x >> 1) ^ ((0 - (x & 1)) & 0xd800000000000000)
  }

  function LfsrBack(y: bv64): bv64 {
    if y & 0x8000000000000000 == 0 then y << 1 else ((y ^ 0xd800000000000000) << 1) | 1
  }

  function BitAt(x: bv64, i: bv6): bool {
    (x >> i) & 1 == 1
  }

  /** The bits below the highest to which the bit that leaves the register is added. */
  predicate Tap(i: bv6) {
    i == 62 || i == 60 || i == 59
  }

  /** Every bit moves down by one; the lowest one comes in at the top and is added at the taps. */
  lemma LfsrMovesBits(x: bv64, i: bv6)
    ensures BitAt(Lfsr(x), i) <==> if i == 63 then BitAt(x, 0) else BitAt(x, i + 1) != (Tap(i) && BitAt(x, 0))
  {
  }

  lemma LfsrForthAndBack(x: bv64)
    ensures LfsrBack(Lfsr(x)) == x
  {
  }

  lemma LfsrBackAndForth(x: bv64)
    ensures Lfsr(LfsrBack(x)) == x
  {
    if x & 0x8000000000000000 == 0 {
      assert Lfsr(x << 1) == x;
    } else {
      assert Lfsr(((x ^ 0xd800000000000000) << 1) | 1) == x;
    }
  }

  lemma LfsrBijective(x: bv64)
    ensures LfsrBack(Lfsr(x)) == x && Lfsr(LfsrBack(x)) == x
    ensures Lfsr(x) == 0 <==> x == 0
  {
    LfsrForthAndBack(x);
    LfsrBackAndForth(x);
  }

  function LfsrRun(x: bv64, n: nat): bv64 {
    if n == 0 then x else Lfsr(LfsrRun(x, n - 1))
  }

  /** A register that starts from zero stays there; from any other seed it never gets there. */
  lemma {:induction false} LfsrNeverZero(x: bv64, y: bv64, n: nat)
    ensures LfsrRun(x, n) == 0 <==> x == 0
    ensures LfsrRun(x, n) == LfsrRun(y, n) <==> x == y
  {
    if n != 0 {
      LfsrNeverZero(x, y, n - 1);
      LfsrBijective(LfsrRun(x, n - 1));
      LfsrBijective(LfsrRun(y, n - 1));
    }
  }

  /** A bit below the taps leaves the register as it is. */
  lemma {:induction false} BitArrives(x: bv64, n: nat, i: bv6, k: nat)
    requires k == i as nat && i <= 59
    ensures BitAt(LfsrRun(x, n + k), 0) == BitAt(LfsrRun(x, n), i)
    decreases k
  {
    if k != 0 {
      LfsrMovesBits(LfsrRun(x, n), i - 1);
      BitArrives(x, n + 1, i - 1, k - 1);
    }
  }

  /** The bit that leaves the register after `n` steps. */
  function OutputBit(x: bv64, n: nat): bool {
    BitAt(LfsrRun(x, n), 0)
  }

  /** The linear recurrence of the output bits: o(n + 64) is the sum of o(n), o(n + 1), o(n + 3) and o(n + 4). */
  lemma LfsrRecurrence(x: bv64, n: nat)
    ensures OutputBit(x, n + 64) <==>
      (OutputBit(x, n) != OutputBit(x, n + 1)) != (OutputBit(x, n + 3) != OutputBit(x, n + 4))
  {
    BitArrives(x, n + 5, 59, 59);
    LfsrMovesBits(LfsrRun(x, n + 4), 59);
    LfsrMovesBits(LfsrRun(x, n + 3), 60);
    LfsrMovesBits(LfsrRun(x, n + 2), 61);
    LfsrMovesBits(LfsrRun(x, n + 1), 62);
    LfsrMovesBits(LfsrRun(x, n), 63);
  }
}
