/** The shift-and-subtract remainder on two-limb integers. Off its fast path the loop
    reads the dividend backwards and sets bit i instead of bit 0, so it is not a
    remainder; what address selection relies on is the range of its result. */
module Modulo {
  import opened Words
  import opened Uint128

  predicate DividendBit(a: Uint128, i: nat)
    requires i < 128
  {
    And64(Shr64(a.hi, 63 - i % 64), 1) != 0 || (i < 64 && And64(Shr64(a.lo, 63 - i), 1) != 0)
  }

  function SetBit(r: Uint128, i: nat): Uint128
    requires i < 128
  {
    if i >= 64 then r.(hi := Or64(r.hi, Shl64(1, i - 64)))
    else r.(lo := Or64(r.lo, Shl64(1, i)))
  }

  function Step(a: Uint128, b: Uint128, r: Uint128, i: nat): Uint128
    requires i < 128
  {
    var s := ShlU(r, 1);
    var t := if DividendBit(a, i) then SetBit(s, i) else s;
    if Cmp(t, b) >= 0 then SubU(t, b) else t
  }

  /** The iterations i = k-1, ..., 0 of the loop. */
  function Iterate(a: Uint128, b: Uint128, r: Uint128, k: nat): Uint128
    requires k <= 128
    decreases k
  {
    if k == 0 then r else Iterate(a, b, Step(a, b, r, k - 1), k - 1)
  }

  function Mod(a: Uint128, b: Uint128): Uint128 {
    if b == ZERO then a
    else if b.hi == 0 && a.hi == 0 then Uint128(0, a.lo % b.lo)
    else Iterate(a, b, ZERO, 128)
  }

  method ModUint128(a: Uint128, b: Uint128) returns (r: Uint128)
    ensures r == Mod(a, b)
  {
    hide ShlU, SetBit, SubU, DividendBit, Cmp;
    if b == ZERO {
      return a;
    }
    if b.hi == 0 && a.hi == 0 {
      return Uint128(0, a.lo % b.lo);
    }
    r := ZERO;
    var i := 127;
    while i >= 0
      invariant -1 <= i <= 127
      invariant Iterate(a, b, r, i + 1) == Iterate(a, b, ZERO, 128)
    {
      r := ShlU(r, 1);
      if DividendBit(a, i) {
        r := SetBit(r, i);
      }
      if Cmp(r, b) >= 0 {
        r := SubU(r, b);
      }
      i := i - 1;
    }
  }

  // ---- one step on values ----

  function StepValue(b: nat, r: nat, i: nat, set1: bool): nat {
    var s := (2 * r) % TWO128;
    var t := if set1 then Or(s, Pow2(i)) else s;
    if t >= b then t - b else t
  }

  lemma SetBitValue(r: Uint128, i: nat)
    requires i < 128
    ensures SetBit(r, i).Val() == Or(r.Val(), Pow2(i))
  {
    ShiftedOneValue(i);
    OrValue(r, ShiftedOne(i));
    assert OrU(r, ShiftedOne(i)) == SetBit(r, i);
  }

  /** The remainder variable before the comparison. */
  function Shifted(a: Uint128, r: Uint128, i: nat): Uint128
    requires i < 128
  {
    if DividendBit(a, i) then SetBit(ShlU(r, 1), i) else ShlU(r, 1)
  }

  lemma ShiftedValue(a: Uint128, r: Uint128, i: nat)
    requires i < 128
    ensures Shifted(a, r, i).Val()
         == if DividendBit(a, i) then Or((2 * r.Val()) % TWO128, Pow2(i)) else (2 * r.Val()) % TWO128
  {
    hide ShlU, SetBit, DividendBit, Or, Pow2;
    ShlOne(r);
    SetBitValue(ShlU(r, 1), i);
  }

  lemma ShlOne(r: Uint128)
    ensures ShlU(r, 1).Val() == (2 * r.Val()) % TWO128
  {
    assert Pow2(1) == 2;
    hide ShlU, Pow2;
    Twice(r.Val(), Pow2(1));
    ShlValue(r, 1);
  }

  lemma Twice(v: int, p: int)
    requires p == 2
    ensures v * p == 2 * v
  {
  }

  lemma StepIsStepValue(a: Uint128, b: Uint128, r: Uint128, i: nat)
    requires i < 128
    ensures Step(a, b, r, i).Val() == StepValue(b.Val(), r.Val(), i, DividendBit(a, i))
  {
    hide ShlU, SetBit, SubU, DividendBit, Or, Pow2;
    var t := Shifted(a, r, i);
    assert Step(a, b, r, i) == if Cmp(t, b) >= 0 then SubU(t, b) else t;
    hide Step;
    ShiftedValue(a, r, i);
    hide Shifted;
    SubAbove(t, b);
  }

  lemma SubAbove(t: Uint128, b: Uint128)
    ensures t.Val() >= b.Val() ==> SubU(t, b).Val() == t.Val() - b.Val()
  {
    SubValue(t, b);
    hide SubU;
    if t.Val() >= b.Val() {
      SmallMod(t.Val() - b.Val(), TWO128);
    }
  }

  // ---- the range of the result for capacities 2^h - 1 with h > 64 ----

  /** A value with fewer than n ones is not n ones. */
  lemma NotAllOnes(x: nat, n: nat)
    requires PopCount(x) < n
    ensures x != Pow2(n) - 1
  {
    PopCountOnes(n);
  }

  lemma PopCountDouble(x: nat)
    ensures PopCount(2 * x) == PopCount(x)
  {
  }

  /** Without the top bit a step doubles, and no carry leaves the h bits. */
  lemma StepBelowTop(h: nat, r: nat, i: nat, set1: bool)
    requires 64 < h <= 128 && i < 64
    requires r < Pow2(h - 1) && PopCount(r) < 64
    ensures StepValue(Pow2(h) - 1, r, i, set1) == if set1 then Or(2 * r, Pow2(i)) else 2 * r
    ensures StepValue(Pow2(h) - 1, r, i, set1) < Pow2(h) - 1
    ensures PopCount(StepValue(Pow2(h) - 1, r, i, set1)) <= PopCount(r) + 1
  {
    hide And, Or, PopCount;
    PowersUpTo128(h);
    SmallMod(2 * r, TWO128);
    PopCountDouble(r);
    PopCountOrBit(2 * r, i);
    Pow2Mono(i, h);
    OrBound(2 * r, Pow2(i), h);
    NotAllOnes(2 * r, h);
    NotAllOnes(Or(2 * r, Pow2(i)), h);
  }

  lemma PowersUpTo128(h: nat)
    requires h <= 128
    ensures Pow2(h) <= TWO128
  {
    Pow2Words();
    if h < 128 {
      Pow2Mono(h, 128);
    }
  }

  lemma OrZero()
    ensures Or(1, 0) == 1
  {
  }

  /** With the top bit set and h < 128, subtracting 2^h - 1 moves that bit to the bottom. */
  lemma StepRotates(h: nat, low: nat, i: nat, set1: bool)
    requires 64 < h < 128 && i < 64
    requires low < Pow2(h - 1) && PopCount(low) + 1 < 64
    ensures StepValue(Pow2(h) - 1, Pow2(h - 1) + low, i, set1)
         == (if set1 then Or(2 * low, Pow2(i)) else 2 * low) + 1
    ensures StepValue(Pow2(h) - 1, Pow2(h - 1) + low, i, set1) < Pow2(h) - 1
    ensures PopCount(StepValue(Pow2(h) - 1, Pow2(h - 1) + low, i, set1)) <= PopCount(low) + 2
  {
    hide And, Or, PopCount;
    PowersUpTo128(h + 1);
    OrZero();
    var s := Pow2(h) + 2 * low;
    SmallMod(s, TWO128);
    Pow2Mono(i, h);
    OrSplit(s, Pow2(i), 1, 2 * low, 0, Pow2(i), h);
    PopCountDouble(low);
    PopCountOrBit(2 * low, i);
    OrBound(2 * low, Pow2(i), h);
    var t := if set1 then Or(2 * low, Pow2(i)) else 2 * low;
    NotAllOnes(t, h);
    PopCountInc(t);
    NotAllOnes(t + 1, h);
  }

  /** At h = 128 the top bit is simply shifted out. */
  lemma StepDrops(low: nat, i: nat, set1: bool)
    requires i < 64
    requires low < Pow2(127) && PopCount(low) < 64
    ensures StepValue(Pow2(128) - 1, Pow2(127) + low, i, set1)
         == StepValue(Pow2(128) - 1, low, i, set1)
  {
    hide Or, PopCount, Pow2;
    Pow2Words();
    Pow2Half(128);
    DivModUnique(2 * (Pow2(127) + low), TWO128, 1, 2 * low);
    SmallMod(2 * low, TWO128);
  }

  /** One loop step keeps the result below 2^h - 1 and adds at most one set bit. */
  lemma StepKeepsRange(h: nat, r: nat, i: nat, set1: bool)
    requires 64 < h <= 128 && i < 64
    requires r < Pow2(h) - 1 && PopCount(r) < 64
    ensures StepValue(Pow2(h) - 1, r, i, set1) < Pow2(h) - 1
    ensures PopCount(StepValue(Pow2(h) - 1, r, i, set1)) <= PopCount(r) + 1
  {
    hide StepValue, PopCount, Pow2;
    Pow2Half(h);
    if r < Pow2(h - 1) {
      StepBelowTop(h, r, i, set1);
    } else {
      var low := r - Pow2(h - 1);
      PopCountTop(low, h - 1);
      if h < 128 {
        StepRotates(h, low, i, set1);
      } else {
        StepDrops(low, i, set1);
        StepBelowTop(h, low, i, set1);
      }
    }
  }

  lemma HighBitsUnset(a: Uint128, i: nat)
    requires a.hi == 0 && 64 <= i < 128
    ensures !DividendBit(a, i)
  {
    assert Shr64(0, 63 - i % 64) == 0;
  }

  /** The first 64 iterations leave a zero remainder for a one-limb dividend. */
  lemma {:induction false} IdleIterations(a: Uint128, b: Uint128, k: nat)
    requires a.hi == 0 && b != ZERO && 64 <= k <= 128
    ensures Iterate(a, b, ZERO, k) == Iterate(a, b, ZERO, 64)
  {
    hide Step, DividendBit;
    if k > 64 {
      HighBitsUnset(a, k - 1);
      StepIsStepValue(a, b, ZERO, k - 1);
      assert Step(a, b, ZERO, k - 1) == ZERO;
      IdleIterations(a, b, k - 1);
    }
  }

  lemma {:induction false} IterationsInRange(a: Uint128, b: Uint128, r: Uint128, k: nat, h: nat)
    requires 64 < h <= 128 && b.Val() == Pow2(h) - 1 && k <= 64
    requires r.Val() < Pow2(h) - 1 && PopCount(r.Val()) <= 64 - k
    ensures Iterate(a, b, r, k).Val() < Pow2(h) - 1
    decreases k
  {
    hide Step, StepValue, DividendBit, PopCount;
    if k > 0 {
      StepKeepsRange(h, r.Val(), k - 1, DividendBit(a, k - 1));
      StepIsStepValue(a, b, r, k - 1);
      IterationsInRange(a, b, Step(a, b, r, k - 1), k - 1, h);
    }
  }

  /** For every capacity 2^h - 1 a one-limb dividend yields a result below the capacity. */
  lemma ModInRange(a: Uint128, b: Uint128, h: nat)
    requires a.hi == 0 && 1 <= h <= 128 && b.Val() == Pow2(h) - 1
    ensures Mod(a, b).Val() < b.Val()
  {
    Pow2Mono(0, h);
    if b.hi == 0 {
    } else {
      CapacityLimbs(b, h);
      IdleIterations(a, b, 128);
      Pow2Mono(0, h);
      IterationsInRange(a, b, ZERO, 64, h);
    }
  }

  lemma CapacityLimbs(b: Uint128, h: nat)
    requires 1 <= h <= 128 && b.Val() == Pow2(h) - 1
    ensures b.hi == 0 <==> h <= 64
    ensures b != ZERO
  {
    Pow2Words();
    Pow2Mono(0, h);
    if h < 64 {
      Pow2Mono(h, 64);
    } else if h > 64 {
      Pow2Mono(64, h);
    }
  }

  // ---- exactly when it is a remainder ----

  /** Both high limbs zero: the fast path is the remainder. */
  lemma FastPathIsRemainder(a: Uint128, b: Uint128)
    requires a.hi == 0 && b.hi == 0 && b != ZERO
    ensures Mod(a, b).Val() == a.Val() % b.Val()
  {
  }

  function Rotated(e: nat, h: nat): nat {
    if e < h then e else e - h
  }

  /** A lone bit with no dividend bits left to read is rotated k places. */
  lemma {:induction false} LoneBit(a: Uint128, b: Uint128, r: Uint128, e: nat, k: nat, h: nat)
    requires 64 < h <= 128 && b.Val() == Pow2(h) - 1 && k <= 63 && e < h
    requires h == 128 ==> e + k < 128
    requires forall i | 0 <= i < k :: !DividendBit(a, i)
    requires r.Val() == Pow2(e)
    ensures Iterate(a, b, r, k).Val() == Pow2(Rotated(e + k, h))
    decreases k
  {
    hide Step, StepValue, DividendBit, Pow2;
    if k > 0 {
      StepIsStepValue(a, b, r, k - 1);
      LoneBitStep(e, k - 1, h);
      LoneBit(a, b, Step(a, b, r, k - 1), Rotated(e + 1, h), k - 1, h);
    }
  }

  lemma LoneBitStep(e: nat, i: nat, h: nat)
    requires 64 < h <= 128 && e < h && i < 64
    requires h == 128 ==> e + 1 < 128
    ensures StepValue(Pow2(h) - 1, Pow2(e), i, false) == Pow2(Rotated(e + 1, h))
  {
    PopCountTop(0, e);
    if e + 1 < h {
      if e < h - 1 {
        Pow2Mono(e, h - 1);
      }
      StepBelowTop(h, Pow2(e), i, false);
    } else {
      StepRotates(h, 0, i, false);
    }
  }

  lemma SmallDividend(v: nat, i: nat)
    requires v == 1 || v == 2
    requires i < 64
    ensures DividendBit(Uint128(0, v), i) <==> i == 64 - v
  {
    assert Shr64(0, 63 - i % 64) == 0;
    var n := 63 - i;
    if n == 0 {
    } else if n == 1 {
      assert Pow2(n) == 2;
    } else {
      assert Pow2(n) == 4 * Pow2(n - 2);
      SmallMod(v, Pow2(n));
    }
    AndMask(Shr64(v, n), 1);
  }

  lemma FirstBit(e: nat, h: nat)
    requires e < 64 < h <= 128
    ensures StepValue(Pow2(h) - 1, 0, e, true) == Pow2(e)
  {
    StepBelowTop(h, 0, e, true);
  }

  /** The dividends 1 and 2 come out as a power of two far from where they started. */
  lemma SmallDividendResult(v: nat, b: Uint128, h: nat)
    requires v == 1 || v == 2
    requires 64 < h <= 128 && b.Val() == Pow2(h) - 1
    ensures Mod(Uint128(0, v), b).Val() == Pow2(Rotated(128 - 2 * v, h))
  {
    hide Step, DividendBit, Pow2;
    var a := Uint128(0, v);
    CapacityLimbs(b, h);
    IdleIterations(a, b, 128);
    forall i | 0 <= i < 64
      ensures DividendBit(a, i) <==> i == 64 - v
    {
      SmallDividend(v, i);
    }
    if v == 2 {
      StepIsStepValue(a, b, ZERO, 63);
      assert Step(a, b, ZERO, 63) == ZERO;
    }
    var e := 64 - v;
    StepIsStepValue(a, b, ZERO, e);
    FirstBit(e, h);
    LoneBit(a, b, Step(a, b, ZERO, e), e, e, h);
  }

  lemma SmallPowers()
    ensures Pow2(0) == 1 && Pow2(1) == 2
  {
  }

  lemma Pow2Injective(m: nat, n: nat)
    requires Pow2(m) == Pow2(n)
    ensures m == n
  {
    if m < n {
      Pow2Mono(m, n);
    } else if n < m {
      Pow2Mono(n, m);
    }
  }

  /** The helper computes a remainder for every 64-bit value exactly when the capacity
      2^h - 1 fits one limb, that is for at most 64 host bits. */
  lemma RemainderIffOneLimb(b: Uint128, h: nat)
    requires 1 <= h <= 128 && b.Val() == Pow2(h) - 1
    ensures b.Val() > 0
    ensures (forall v: U64 :: Mod(Uint128(0, v), b).Val() == v % b.Val()) <==> h <= 64
  {
    hide Mod, Pow2;
    CapacityLimbs(b, h);
    if h <= 64 {
      forall v: U64
        ensures Mod(Uint128(0, v), b).Val() == v % b.Val()
      {
        FastPathIsRemainder(Uint128(0, v), b);
      }
    } else {
      var v: U64 := if h == 126 then 2 else 1;
      SmallDividendResult(v, b, h);
      Pow2Mono(64, h);
      Pow2Words();
      SmallMod(v, b.Val());
      SmallPowers();
      if Mod(Uint128(0, v), b).Val() == v {
        Pow2Injective(Rotated(128 - 2 * v, h), v - 1);
      }
    }
  }
}
