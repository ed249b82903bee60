/** The splitmix64 generator of the samplers (dial9-core/src/sampling.rs). */
module SplitMix {
  const STATES: nat := 0x1_0000_0000_0000_0000

  // The rounds of the output function, and what undoes each of them.

  function Shift30(z: bv64): bv64 { z ^ (z >> 30) }
  function Shift27(z: bv64): bv64 { z ^ (z >> 27) }
  function Shift31(z: bv64): bv64 { z ^ (z >> 31) }
  function Times1(z: bv64): bv64 { z * 0xbf58_476d_1ce4_e5b9 }
  function Times2(z: bv64): bv64 { z * 0x94d0_49bb_1331_11eb }

  function Unshift30(z: bv64): bv64 { z ^ (z >> 30) ^ (z >> 60) }
  function Unshift27(z: bv64): bv64 { z ^ (z >> 27) ^ (z >> 54) }
  function Unshift31(z: bv64): bv64 { z ^ (z >> 31) ^ (z >> 62) }
  function Over1(z: bv64): bv64 { z * 0x96de_1b17_3f11_9089 }
  function Over2(z: bv64): bv64 { z * 0x3196_42b2_d24d_8ec3 }

  /** The output for a state: two xor-shift-multiply rounds and a last xor-shift. */
  function Mixed(state: bv64): bv64 {
    Shift31(Times2(Shift27(Times1(Shift30(state)))))
  }

  /** The first two outputs from seed 0, as every splitmix64 gives them. */
  lemma KnownOutputs()
    ensures Mixed(0x9e37_79b9_7f4a_7c15) == 0xe220_a839_7b1d_cdaf
    ensures Mixed(0x3c6e_f372_fe94_f82a) == 0x6e78_9e6a_a1b9_65f4
  {
  }

  /** The state behind an output. */
  function Unmixed(output: bv64): bv64 {
    Unshift30(Over1(Unshift27(Over2(Unshift31(output)))))
  }

  class SplitMix64 {
    var state: bv64

    constructor (seed: bv64)
      ensures state == seed
    {
      state := seed;
    }

    method NextU64() returns (z: bv64)
      modifies this
      ensures state == old(state) + 0x9e37_79b9_7f4a_7c15
      ensures z == Mixed(state)
    {
      state := state + 0x9e37_79b9_7f4a_7c15;
      hide Shift30, Shift27, Shift31, Times1, Times2;
      z := state;
      z := Times1(Shift30(z));
      z := Times2(Shift27(z));
      z := Shift31(z);
    }
  }

  // ----- The output is a bijection -----

  lemma Shift31Is(z: bv64)
    ensures Shift31(z) == z ^ (z >> 31)
  {
  }

  lemma Unshift31Is(z: bv64)
    ensures Unshift31(z) == z ^ (z >> 31) ^ (z >> 62)
  {
  }

  lemma Unshift31Shifted(z: bv64)
    ensures Unshift31(z ^ (z >> 31)) == z
  {
  }

  lemma Shift31Unshifted(z: bv64)
    ensures Shift31(z ^ (z >> 31) ^ (z >> 62)) == z
  {
  }

  lemma Undo31(z: bv64)
    ensures Unshift31(Shift31(z)) == z && Shift31(Unshift31(z)) == z
  {
    hide *;
    Shift31Is(z);
    Unshift31Is(z);
    Unshift31Shifted(z);
    Shift31Unshifted(z);
  }

  lemma Shift27Is(z: bv64)
    ensures Shift27(z) == z ^ (z >> 27)
  {
  }

  lemma Unshift27Is(z: bv64)
    ensures Unshift27(z) == z ^ (z >> 27) ^ (z >> 54)
  {
  }

  lemma Unshift27Shifted(z: bv64)
    ensures Unshift27(z ^ (z >> 27)) == z
  {
  }

  lemma Shift27Unshifted(z: bv64)
    ensures Shift27(z ^ (z >> 27) ^ (z >> 54)) == z
  {
  }

  lemma Undo27(z: bv64)
    ensures Unshift27(Shift27(z)) == z && Shift27(Unshift27(z)) == z
  {
    hide *;
    Shift27Is(z);
    Unshift27Is(z);
    Unshift27Shifted(z);
    Shift27Unshifted(z);
  }

  lemma Shift30Is(z: bv64)
    ensures Shift30(z) == z ^ (z >> 30)
  {
  }

  lemma Unshift30Is(z: bv64)
    ensures Unshift30(z) == z ^ (z >> 30) ^ (z >> 60)
  {
  }

  lemma Unshift30Shifted(z: bv64)
    ensures Unshift30(z ^ (z >> 30)) == z
  {
  }

  lemma Shift30Unshifted(z: bv64)
    ensures Shift30(z ^ (z >> 30) ^ (z >> 60)) == z
  {
  }

  lemma Undo30(z: bv64)
    ensures Unshift30(Shift30(z)) == z && Shift30(Unshift30(z)) == z
  {
    hide *;
    Shift30Is(z);
    Unshift30Is(z);
    Unshift30Shifted(z);
    Shift30Unshifted(z);
  }

  // Products are compared as literal expressions, one equation a lemma: solvers do badly at
  // 64-bit multiplication as soon as a product has a name.

  lemma Times1Is(z: bv64)
    ensures Times1(z) == z * 0xbf58_476d_1ce4_e5b9
  {
  }

  lemma Over1Is(z: bv64)
    ensures Over1(z) == z * 0x96de_1b17_3f11_9089
  {
  }

  lemma Times2Is(z: bv64)
    ensures Times2(z) == z * 0x94d0_49bb_1331_11eb
  {
  }

  lemma Over2Is(z: bv64)
    ensures Over2(z) == z * 0x3196_42b2_d24d_8ec3
  {
  }

  lemma Over1Product(z: bv64)
    ensures Over1(z * 0xbf58_476d_1ce4_e5b9) == z
  {
  }

  lemma Times1Product(z: bv64)
    ensures Times1(z * 0x96de_1b17_3f11_9089) == z
  {
  }

  lemma Over2Product(z: bv64)
    ensures Over2(z * 0x94d0_49bb_1331_11eb) == z
  {
  }

  lemma Times2Product(z: bv64)
    ensures Times2(z * 0x3196_42b2_d24d_8ec3) == z
  {
  }

  lemma UndoTimes1(z: bv64)
    ensures Over1(Times1(z)) == z
  {
    hide *;
    Times1Is(z);
    Over1Product(z);
  }

  lemma UndoOver1(z: bv64)
    ensures Times1(Over1(z)) == z
  {
    hide *;
    Over1Is(z);
    Times1Product(z);
  }

  lemma UndoTimes2(z: bv64)
    ensures Over2(Times2(z)) == z
  {
    hide *;
    Times2Is(z);
    Over2Product(z);
  }

  lemma UndoOver2(z: bv64)
    ensures Times2(Over2(z)) == z
  {
    hide *;
    Over2Is(z);
    Times2Product(z);
  }

  /** Every output comes from exactly one state. */
  lemma MixedIsBijective(state: bv64, output: bv64)
    ensures Mixed(state) == output <==> state == Unmixed(output)
  {
    UnmixedUndoes(state);
    MixedUndoes(output);
    hide *;
  }

  lemma UnmixedUndoes(state: bv64)
    ensures Unmixed(Mixed(state)) == state
  {
    hide Shift30, Shift27, Shift31, Times1, Times2, Unshift30, Unshift27, Unshift31, Over1, Over2;
    Undo31(Times2(Shift27(Times1(Shift30(state)))));
    UndoTimes2(Shift27(Times1(Shift30(state))));
    Undo27(Times1(Shift30(state)));
    UndoTimes1(Shift30(state));
    Undo30(state);
  }

  lemma MixedUndoes(output: bv64)
    ensures Mixed(Unmixed(output)) == output
  {
    hide Shift30, Shift27, Shift31, Times1, Times2, Unshift30, Unshift27, Unshift31, Over1, Over2;
    Undo30(Over1(Unshift27(Over2(Unshift31(output)))));
    UndoOver1(Unshift27(Over2(Unshift31(output))));
    Undo27(Over2(Unshift31(output)));
    UndoOver2(Unshift31(output));
    Undo31(output);
  }

  // ----- Counting 64-bit values -----

  /** A 64-bit value as a number. */
  function Rank(b: bv64): nat
    decreases b
  {
    if b == 0 then 0 else 1 + Rank(b - 1)
  }

  lemma PredFits(a: bv64, b: bv64)
    requires b != 0 && a <= 0xFFFF_FFFF_FFFF_FFFF - b
    ensures a <= 0xFFFF_FFFF_FFFF_FFFF - (b - 1)
  {
  }

  lemma SumPositive(a: bv64, b: bv64)
    requires b != 0 && a <= 0xFFFF_FFFF_FFFF_FFFF - b
    ensures a + b != 0
  {
  }

  lemma RankZero()
    ensures Rank(0) == 0
  {
  }

  lemma RankPred(b: bv64)
    requires b != 0
    ensures Rank(b) == 1 + Rank(b - 1)
  {
  }

  /** A sum with a name of its own, so that equal summands make it equal. */
  function Plus(a: bv64, b: bv64): bv64 {
    a + b
  }

  lemma RankSum(a: bv64, b: bv64)
    requires a + b != 0
    ensures Rank(Plus(a, b)) == 1 + Rank(Plus(a, b - 1))
  {
    hide Rank;
    RankPred(a + b);
  }

  lemma RankSumZero(a: bv64)
    ensures Plus(a, 0) == a
  {
  }

  /** The sum does not overflow. */
  predicate Addable(a: bv64, b: bv64) {
    a <= 0xFFFF_FFFF_FFFF_FFFF - b
  }

  lemma AddableStep(a: bv64, b: bv64)
    requires b != 0 && Addable(a, b)
    ensures Addable(a, b - 1) && a + b != 0
  {
    PredFits(a, b);
    SumPositive(a, b);
  }

  /** Without overflow, ranks add up. */
  lemma {:induction false} RankAdd(a: bv64, b: bv64)
    requires Addable(a, b)
    ensures Rank(Plus(a, b)) == Rank(a) + Rank(b)
    decreases Rank(b)
  {
    hide *;
    if b == 0 {
      RankZero();
      RankSumZero(a);
    } else {
      RankPred(b);
      AddableStep(a, b);
      RankSum(a, b);
      RankAdd(a, b - 1);
    }
  }

  lemma RankDouble(b: bv64, twice: bv64)
    requires b <= 0x7FFF_FFFF_FFFF_FFFF && twice == b + b
    ensures Rank(twice) == 2 * Rank(b)
  {
    hide Rank;
    DoubleFits(b);
    RankAdd(b, b);
  }

  lemma DoubleFits(b: bv64)
    requires b <= 0x7FFF_FFFF_FFFF_FFFF
    ensures b <= 0xFFFF_FFFF_FFFF_FFFF - b
  {
  }

  /** Eight doublings in a row. */
  lemma RankByte(b1: bv64, b2: bv64, b3: bv64, b4: bv64, b5: bv64, b6: bv64, b7: bv64, b8: bv64, b9: bv64)
    requires b1 + b1 == b2 && b2 + b2 == b3 && b3 + b3 == b4 && b4 + b4 == b5
    requires b5 + b5 == b6 && b6 + b6 == b7 && b7 + b7 == b8 && b8 + b8 == b9
    requires b1 <= 0x7FFF_FFFF_FFFF_FFFF && b2 <= 0x7FFF_FFFF_FFFF_FFFF && b3 <= 0x7FFF_FFFF_FFFF_FFFF
    requires b4 <= 0x7FFF_FFFF_FFFF_FFFF && b5 <= 0x7FFF_FFFF_FFFF_FFFF && b6 <= 0x7FFF_FFFF_FFFF_FFFF
    requires b7 <= 0x7FFF_FFFF_FFFF_FFFF && b8 <= 0x7FFF_FFFF_FFFF_FFFF
    ensures Rank(b9) == 256 * Rank(b1)
  {
    hide *;
    RankDouble(b1, b2);
    RankDouble(b2, b3);
    RankDouble(b3, b4);
    RankDouble(b4, b5);
    RankDouble(b5, b6);
    RankDouble(b6, b7);
    RankDouble(b7, b8);
    RankDouble(b8, b9);
  }

  /** There are 2^64 values: the largest has rank 2^64 - 1. */
  lemma RankTop()
    ensures Rank(0xFFFF_FFFF_FFFF_FFFF) == STATES - 1
  {
    assert Rank(1) == 1;
    hide Rank;
    RankByte(0x1, 0x2, 0x4, 0x8, 0x10, 0x20, 0x40, 0x80, 0x100);
    RankByte(0x100, 0x200, 0x400, 0x800, 0x1000, 0x2000, 0x4000, 0x8000, 0x10000);
    RankByte(0x10000, 0x20000, 0x40000, 0x80000, 0x100000, 0x200000, 0x400000, 0x800000, 0x1000000);
    RankByte(0x1000000, 0x2000000, 0x4000000, 0x8000000, 0x10000000, 0x20000000, 0x40000000, 0x80000000, 0x100000000);
    RankByte(0x100000000, 0x200000000, 0x400000000, 0x800000000, 0x1000000000, 0x2000000000, 0x4000000000, 0x8000000000, 0x10000000000);
    RankByte(0x10000000000, 0x20000000000, 0x40000000000, 0x80000000000, 0x100000000000, 0x200000000000, 0x400000000000, 0x800000000000, 0x1000000000000);
    RankByte(0x1000000000000, 0x2000000000000, 0x4000000000000, 0x8000000000000, 0x10000000000000, 0x20000000000000, 0x40000000000000, 0x80000000000000, 0x100000000000000);
    RankTopFrom();
  }

  lemma RankTopFrom()
    requires Rank(0x100_0000_0000_0000) == 0x100_0000_0000_0000
    ensures Rank(0xFFFF_FFFF_FFFF_FFFF) == STATES - 1
  {
    RankPred(0x8000_0000_0000_0000);
    hide Rank;
    RankDouble(0x100_0000_0000_0000, 0x200_0000_0000_0000);
    RankDouble(0x200_0000_0000_0000, 0x400_0000_0000_0000);
    RankDouble(0x400_0000_0000_0000, 0x800_0000_0000_0000);
    RankDouble(0x800_0000_0000_0000, 0x1000_0000_0000_0000);
    RankDouble(0x1000_0000_0000_0000, 0x2000_0000_0000_0000);
    RankDouble(0x2000_0000_0000_0000, 0x4000_0000_0000_0000);
    RankDouble(0x4000_0000_0000_0000, 0x8000_0000_0000_0000);
    RankAdd(0x8000_0000_0000_0000, 0x7FFF_FFFF_FFFF_FFFF);
  }

  /** The value with a given rank, counting up from zero and around. */
  function Counter(n: nat): bv64 {
    if n == 0 then 0 else Counter(n - 1) + 1
  }

  lemma Wraps(b: bv64)
    ensures b + 1 == 0 <==> b == 0xFFFF_FFFF_FFFF_FFFF
    ensures b + 1 - 1 == b
  {
  }

  lemma CounterZero()
    ensures Counter(0) == 0
  {
  }

  lemma PredSucc(b: bv64)
    ensures b - 1 + 1 == b
  {
  }

  /** Counting reaches every value once before it starts over. */
  lemma {:induction false} RankOfCounter(n: nat)
    requires n < STATES
    ensures Rank(Counter(n)) == n
  {
    if n != 0 {
      RankOfCounter(n - 1);
      RankTop();
      Wraps(Counter(n - 1));
      RankPred(Counter(n));
    }
  }

  lemma {:induction false} CounterOfRank(b: bv64)
    ensures Counter(Rank(b)) == b
    decreases Rank(b)
  {
    hide *;
    if b == 0 {
      RankZero();
      CounterZero();
    } else {
      RankPred(b);
      CounterOfRank(b - 1);
      CounterNext(Rank(b));
      PredSucc(b);
    }
  }

  // ----- The sequence of states -----

  /** The state after `n` draws. */
  function StateAfter(seed: bv64, n: nat): bv64 {
    if n == 0 then seed else StateAfter(seed, n - 1) + 0x9e37_79b9_7f4a_7c15
  }

  /** The state `c` increments past `seed`. */
  function Jump(seed: bv64, c: bv64): bv64 {
    seed + c * 0x9e37_79b9_7f4a_7c15
  }

  /** How many increments lead from `seed` to `v`: the increment is odd, so it has an inverse. */
  function Distance(seed: bv64, v: bv64): bv64 {
    (v - seed) * 0xf1de_83e1_9937_733d
  }

  lemma JumpIs(seed: bv64, c: bv64)
    ensures Jump(seed, c) == seed + c * 0x9e37_79b9_7f4a_7c15
  {
  }

  lemma JumpStep(seed: bv64, c: bv64)
    ensures Jump(seed, c + 1) == seed + c * 0x9e37_79b9_7f4a_7c15 + 0x9e37_79b9_7f4a_7c15
  {
  }

  lemma DistanceIs(seed: bv64, c: bv64)
    ensures Distance(seed, seed + c * 0x9e37_79b9_7f4a_7c15) == c
  {
  }

  lemma JumpReaches(seed: bv64, v: bv64)
    ensures Jump(seed, (v - seed) * 0xf1de_83e1_9937_733d) == v
  {
  }

  lemma DistanceOfJump(seed: bv64, c: bv64)
    ensures Distance(seed, Jump(seed, c)) == c
  {
    hide *;
    JumpIs(seed, c);
    DistanceIs(seed, c);
  }

  lemma JumpOfDistance(seed: bv64, v: bv64)
    ensures Jump(seed, Distance(seed, v)) == v
  {
    hide Jump;
    JumpReaches(seed, v);
  }

  lemma JumpNext(seed: bv64, c: bv64)
    ensures Jump(seed, c + 1) == Jump(seed, c) + 0x9e37_79b9_7f4a_7c15
  {
    hide *;
    JumpIs(seed, c);
    JumpStep(seed, c);
  }

  lemma CounterNext(n: nat)
    requires n > 0
    ensures Counter(n) == Counter(n - 1) + 1
  {
  }

  lemma StateNext(seed: bv64, n: nat)
    requires n > 0
    ensures StateAfter(seed, n) == StateAfter(seed, n - 1) + 0x9e37_79b9_7f4a_7c15
  {
  }

  lemma StateZero(seed: bv64)
    ensures StateAfter(seed, 0) == Jump(seed, 0) && Counter(0) == 0
  {
  }

  lemma {:induction false} StateIs(seed: bv64, n: nat)
    ensures StateAfter(seed, n) == Jump(seed, Counter(n))
  {
    hide *;
    if n == 0 {
      StateZero(seed);
    } else {
      StateIs(seed, n - 1);
      JumpNext(seed, Counter(n - 1));
      CounterNext(n);
      StateNext(seed, n);
    }
  }

  /** The draw at which the state first equals `v`. */
  function DrawOf(seed: bv64, v: bv64): nat {
    Rank(Distance(seed, v))
  }

  lemma {:induction false} RankBound(b: bv64)
    ensures Rank(b) < STATES
  {
    hide *;
    RankTop();
    RankComplement(b, 0xFFFF_FFFF_FFFF_FFFF - b);
  }

  lemma RankComplement(b: bv64, rest: bv64)
    requires rest == 0xFFFF_FFFF_FFFF_FFFF - b
    ensures Rank(0xFFFF_FFFF_FFFF_FFFF) >= Rank(b)
  {
    hide Rank;
    ComplementFits(b, rest);
    RankAdd(b, rest);
  }

  lemma ComplementFits(b: bv64, rest: bv64)
    requires rest == 0xFFFF_FFFF_FFFF_FFFF - b
    ensures b <= 0xFFFF_FFFF_FFFF_FFFF - rest && b + rest == 0xFFFF_FFFF_FFFF_FFFF
  {
  }

  /** From any seed, every 64-bit value is the state after exactly one number of draws below 2^64. */
  lemma FullPeriod(seed: bv64, v: bv64, n: nat)
    requires n < STATES
    ensures StateAfter(seed, n) == v <==> n == DrawOf(seed, v)
    ensures DrawOf(seed, v) < STATES
  {
    StateIs(seed, n);
    DistanceOfJump(seed, Counter(n));
    RankOfCounter(n);
    RankBound(Distance(seed, v));
    var d := DrawOf(seed, v);
    StateIs(seed, d);
    CounterOfRank(Distance(seed, v));
    JumpOfDistance(seed, v);
    hide Jump, Distance, Counter, StateAfter, Rank;
  }

  /** After 2^64 draws the state is the seed again. */
  lemma PeriodCloses(seed: bv64)
    ensures StateAfter(seed, STATES) == seed
  {
    assert STATES > 0;
    hide *;
    StateIs(seed, STATES);
    CounterNext(STATES);
    RankTop();
    CounterOfRank(0xFFFF_FFFF_FFFF_FFFF);
    Wraps(0xFFFF_FFFF_FFFF_FFFF);
    StateIs(seed, 0);
    StateZero(seed);
    StateStart(seed);
  }

  lemma StateStart(seed: bv64)
    ensures StateAfter(seed, 0) == seed
  {
  }

  /** The first 2^64 outputs from any seed are pairwise distinct. */
  lemma OutputsDistinct(seed: bv64, i: nat, j: nat)
    requires 1 <= i < j <= STATES
    ensures Mixed(StateAfter(seed, i)) != Mixed(StateAfter(seed, j))
  {
    hide *;
    UnmixedUndoes(StateAfter(seed, i));
    UnmixedUndoes(StateAfter(seed, j));
    FullPeriod(seed, StateAfter(seed, i), i);
    if j < STATES {
      FullPeriod(seed, StateAfter(seed, i), j);
    } else {
      PeriodCloses(seed);
      StateStart(seed);
      FullPeriod(seed, StateAfter(seed, i), 0);
    }
  }
}
