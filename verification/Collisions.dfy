/** What the modulo loop does with each bit above 64 host bits, and from that exactly when two
    session values are given the same source address. */
module Collisions {
  import opened Wrappers
  import opened Words
  import opened Uint128
  import opened Modulo
  import opened SourceAddress

  // ---- bits ----

  lemma {:induction false} HasOr(a: nat, b: nat, p: nat)
    ensures Has(Or(a, b), p) <==> Has(a, p) || Has(b, p)
    decreases p
  {
    OrUnfold(a, b);
    var o := Or(a, b);
    assert o / 2 == Or(a / 2, b / 2) && (o % 2 == 1 <==> a % 2 == 1 || b % 2 == 1);
    if p > 0 {
      HasOr(a / 2, b / 2, p - 1);
    }
  }

  lemma {:induction false} HasNone(p: nat)
    ensures !Has(0, p)
  {
    if p > 0 {
      HasNone(p - 1);
    }
  }

  lemma {:induction false} HasPow(i: nat, p: nat)
    ensures Has(Pow2(i), p) <==> p == i
    decreases i
  {
    if i == 0 {
      if p > 0 {
        HasNone(p - 1);
      }
    } else if p > 0 {
      HasPow(i - 1, p - 1);
    }
  }

  lemma {:induction false} HasBelow(x: nat, n: nat, p: nat)
    requires x < Pow2(n) && n <= p
    ensures !Has(x, p)
    decreases n
  {
    if n == 0 {
      HasNone(p);
    } else {
      HasBelow(x / 2, n - 1, p - 1);
    }
  }

  /** A leading one above an n-bit value is one more bit. */
  lemma {:induction false} HasTop(low: nat, n: nat, p: nat)
    requires low < Pow2(n)
    ensures Has(Pow2(n) + low, p) <==> p == n || Has(low, p)
    decreases n
  {
    if n == 0 {
      HasPow(0, p);
      HasNone(p);
    } else {
      assert (Pow2(n) + low) / 2 == Pow2(n - 1) + low / 2 && (Pow2(n) + low) % 2 == low % 2;
      if p > 0 {
        HasTop(low / 2, n - 1, p - 1);
      }
    }
  }

  lemma {:induction false} SameBits(x: nat, y: nat, n: nat)
    requires x < Pow2(n) && y < Pow2(n)
    requires forall p: nat | p < n :: Has(x, p) <==> Has(y, p)
    ensures x == y
  {
    if n > 0 {
      forall p: nat | p < n - 1
        ensures Has(x / 2, p) <==> Has(y / 2, p)
      {
        assert Has(x, p + 1) <==> Has(y, p + 1);
      }
      assert Has(x, 0) <==> Has(y, 0);
      SameBits(x / 2, y / 2, n - 1);
    }
  }

  /** The bit the loop reads at iteration i. */
  lemma ReadsBit(v: U64, i: nat)
    requires i < 64
    ensures DividendBit(Uint128(0, v), i) <==> Has(v, 63 - i)
  {
    BitRead(Uint128(0, v), i);
    HasNone(63 - i % 64);
    hide Has, DividendBit;
  }

  /** The bit an iteration reads. The high limb is read in both halves of the loop, so a dividend
      with a high limb would be read twice; a 64-bit value never is. */
  lemma BitRead(a: Uint128, i: nat)
    requires i < 128
    ensures DividendBit(a, i) <==> Has(a.hi, 63 - i % 64) || (i < 64 && Has(a.lo, 63 - i))
  {
    LowestBit(a.hi, 63 - i % 64);
    if i < 64 {
      LowestBit(a.lo, 63 - i);
    }
    hide And64, Has, Shr64;
  }

  lemma LowestBit(x: U64, n: nat)
    ensures And64(Shr64(x, n), 1) != 0 <==> Has(x, n)
  {
    AndMask(Shr64(x, n), 1);
    assert Pow2(1) == 2;
    HasShift(x, n);
    hide And, Has;
  }

  lemma {:induction false} HasShift(x: nat, n: nat)
    ensures Has(x, n) <==> (x / Pow2(n)) % 2 == 1
    decreases n
  {
    if n > 0 {
      DivPowStep(x, n);
      HasShift(x / 2, n - 1);
    }
  }

  // ---- one step of the loop ----

  /** The position a bit comes from when the h bits rotate by one. */
  function Before(p: nat, h: nat): nat
    requires h > 0
  {
    if p == 0 then h - 1 else p - 1
  }

  lemma DoubleBits(x: nat, p: nat)
    ensures Has(2 * x, p) <==> p > 0 && Has(x, p - 1)
    ensures Has(2 * x + 1, p) <==> p == 0 || Has(x, p - 1)
  {
    assert (2 * x) / 2 == x && (2 * x + 1) / 2 == x;
  }

  lemma DoubleOrBits(x: nat, i: nat, set1: bool, p: nat)
    ensures Has(if set1 then Or(2 * x, Pow2(i)) else 2 * x, p)
       <==> (p > 0 && Has(x, p - 1)) || (set1 && p == i)
  {
    hide Has, Or;
    DoubleBits(x, p);
    HasOr(2 * x, Pow2(i), p);
    HasPow(i, p);
  }

  lemma StepBitsBelow(h: nat, r: nat, i: nat, set1: bool, p: nat)
    requires 64 < h <= 128 && i < 64 && p < h
    requires r < Pow2(h - 1) && PopCount(r) < 64
    ensures Has(StepValue(Pow2(h) - 1, r, i, set1), p) <==> Has(r, Before(p, h)) || (set1 && p == i)
  {
    hide StepValue, PopCount, Or, Has;
    StepBelowTop(h, r, i, set1);
    DoubleOrBits(r, i, set1, p);
    HasBelow(r, h - 1, h - 1);
  }

  /** Rotating a set top bit: it comes in at the bottom, where nothing was. */
  lemma BottomBit(t: nat, p: nat)
    requires !Has(t, 0)
    ensures Has(t + 1, p) <==> p == 0 || Has(t, p)
  {
    assert t == 2 * (t / 2);
    DoubleBits(t / 2, p);
  }

  /** With the top bit set a step rotates it to the bottom; setting bit 0 in the same step is
      the one case where the two are added instead of joined. */
  lemma StepBitsTop(h: nat, low: nat, i: nat, set1: bool, p: nat)
    requires 64 < h < 128 && i < 64 && p < h && (set1 ==> i > 0)
    requires low < Pow2(h - 1) && PopCount(low) + 1 < 64
    ensures Has(StepValue(Pow2(h) - 1, Pow2(h - 1) + low, i, set1), p)
       <==> Has(Pow2(h - 1) + low, Before(p, h)) || (set1 && p == i)
  {
    hide StepValue, PopCount, Or, Has;
    StepRotates(h, low, i, set1);
    DoubleOrBits(low, i, set1, p);
    DoubleOrBits(low, i, set1, 0);
    BottomBit(if set1 then Or(2 * low, Pow2(i)) else 2 * low, p);
    HasTop(low, h - 1, Before(p, h));
    HasBelow(low, h - 1, h - 1);
  }

  /** A loop step rotates the bits by one and sets bit i. At 128 host bits nothing comes back
      from the top, so the top must be clear. */
  lemma StepBits(h: nat, r: nat, i: nat, set1: bool, p: nat)
    requires 64 < h <= 128 && i < 64 && p < h
    requires r < Pow2(h) && PopCount(r) < 64
    requires h == 128 ==> !Has(r, 127)
    requires set1 && i == 0 ==> !Has(r, h - 1)
    ensures Has(StepValue(Pow2(h) - 1, r, i, set1), p) <==> Has(r, Before(p, h)) || (set1 && p == i)
  {
    hide StepValue, PopCount, Has;
    if r < Pow2(h - 1) {
      StepBitsBelow(h, r, i, set1, p);
    } else {
      var low := r - Pow2(h - 1);
      HasTop(low, h - 1, h - 1);
      PopCountTop(low, h - 1);
      StepBitsTop(h, low, i, set1, p);
    }
  }

  /** The last iteration with the top bit set and bit 0 to be set: the sum carries. */
  lemma LastStepCarries(h: nat, r: nat)
    requires 64 < h < 128 && r < Pow2(h) && PopCount(r) < 64 && Has(r, h - 1)
    ensures StepValue(Pow2(h) - 1, r, 0, true) == StepValue(Pow2(h) - 1, r, 0, false) + 1
  {
    hide StepValue, PopCount, Or;
    if r < Pow2(h - 1) {
      HasBelow(r, h - 1, h - 1);
    }
    var low := r - Pow2(h - 1);
    hide Has;
    PopCountTop(low, h - 1);
    StepRotates(h, low, 0, true);
    StepRotates(h, low, 0, false);
    OrBit(2 * low, 0);
    assert Pow2(0) == 1 && !Bit(2 * low, 0);
  }

  // ---- where each bit lands ----

  /** Bit j of the value ends up here, counted in the h host bits. */
  function Landing(j: nat, h: nat): nat
    requires j < 64 < h
  {
    Rotated(2 * (63 - j), h)
  }

  /** With k iterations to go, the bits read so far. */
  predicate Placed(v: U64, k: nat, h: nat, p: nat)
    requires k <= 64 < h
  {
    exists i | k <= i < 64 :: Has(v, 63 - i) && Rotated(2 * i - k, h) == p
  }

  /** The next iteration moves every bit on and adds its own. */
  lemma PlacedNext(v: U64, k: nat, h: nat, p: nat)
    requires 0 < k <= 64 < h <= 128 && p < h
    ensures Placed(v, k - 1, h, p) <==> Placed(v, k, h, Before(p, h)) || (Has(v, 64 - k) && p == k - 1)
  {
    hide Has;
    if Placed(v, k - 1, h, p) {
      var i :| k - 1 <= i < 64 && Has(v, 63 - i) && Rotated(2 * i - (k - 1), h) == p;
      assert i >= k ==> Rotated(2 * i - k, h) == Before(p, h);
    }
    if Placed(v, k, h, Before(p, h)) {
      var i :| k <= i < 64 && Has(v, 63 - i) && Rotated(2 * i - k, h) == Before(p, h);
      assert Rotated(2 * i - (k - 1), h) == p;
    }
    if Has(v, 64 - k) && p == k - 1 {
      assert Has(v, 63 - (k - 1)) && Rotated(2 * (k - 1) - (k - 1), h) == p;
    }
  }

  /** The top bit before the last iteration is the one bit that meets bit 63 at position 0. */
  lemma TopBeforeLast(v: U64, h: nat)
    requires 64 < h <= 128
    ensures Placed(v, 1, h, h - 1) <==> h % 2 == 0 && h < 128 && Has(v, 63 - h / 2)
  {
    hide Has;
    if Placed(v, 1, h, h - 1) {
      var i :| 1 <= i < 64 && Has(v, 63 - i) && Rotated(2 * i - 1, h) == h - 1;
      assert 2 * i == h;
    }
    if h % 2 == 0 && h < 128 && Has(v, 63 - h / 2) {
      assert Rotated(2 * (h / 2) - 1, h) == h - 1;
    }
  }

  /** The remainder variable holds exactly the bits placed so far. */
  predicate Holds(r: nat, v: U64, k: nat, h: nat)
    requires k <= 64 < h
  {
    && r < Pow2(h) - 1 && PopCount(r) <= 64 - k
    && forall p: nat | p < h :: Has(r, p) <==> Placed(v, k, h, p)
  }

  lemma NotAtTop(v: U64, k: nat)
    requires 0 < k <= 64
    ensures !Placed(v, k, 128, 127)
  {
  }

  lemma HoldsNext(r: nat, v: U64, k: nat, h: nat)
    requires 1 < k <= 64 < h <= 128 && Holds(r, v, k, h)
    ensures Holds(StepValue(Pow2(h) - 1, r, k - 1, Has(v, 64 - k)), v, k - 1, h)
  {
    hide StepValue, PopCount, Has, Placed;
    StepKeepsRange(h, r, k - 1, Has(v, 64 - k));
    NotAtTop(v, k);
    var t := StepValue(Pow2(h) - 1, r, k - 1, Has(v, 64 - k));
    forall p: nat | p < h
      ensures Has(t, p) <==> Placed(v, k - 1, h, p)
    {
      StepBits(h, r, k - 1, Has(v, 64 - k), p);
      PlacedNext(v, k, h, p);
    }
  }

  lemma {:induction false} IterationsHold(v: U64, b: Uint128, r: Uint128, k: nat, h: nat) returns (last: Uint128)
    requires 64 < h <= 128 && b.Val() == Pow2(h) - 1 && 1 <= k <= 64 && Holds(r.Val(), v, k, h)
    ensures Holds(last.Val(), v, 1, h)
    ensures Iterate(Uint128(0, v), b, r, k) == Step(Uint128(0, v), b, last, 0)
    decreases k
  {
    hide Step, Holds, Has, DividendBit;
    var a := Uint128(0, v);
    if k == 1 {
      last := r;
      var next := Step(a, b, r, 0);
      assert Iterate(a, b, r, 1) == Iterate(a, b, next, 0) == next;
    } else {
      ReadsBit(v, k - 1);
      StepIsStepValue(a, b, r, k - 1);
      HoldsNext(r.Val(), v, k, h);
      last := IterationsHold(v, b, Step(a, b, r, k - 1), k - 1, h);
    }
  }

  // ---- the result ----

  /** The bits of the value where they land, those that meet joined. */
  function Folded(v: U64, h: nat, j: nat): nat
    requires j <= 64 < h
    decreases 64 - j
  {
    if j == 64 then 0
    else if Has(v, j) then Or(Folded(v, h, j + 1), Pow2(Landing(j, h)))
    else Folded(v, h, j + 1)
  }

  /** Bit 63 is read last; the bit h/2 below it meets it there, and the sum of the two carries. */
  function Carry(v: U64, h: nat): nat
    requires h > 64
  {
    if h % 2 == 0 && h < 128 && Has(v, 63) && Has(v, 63 - h / 2) then 1 else 0
  }

  predicate Lands(v: U64, h: nat, from: nat, p: nat)
    requires h > 64
  {
    exists j | from <= j < 64 :: Has(v, j) && Landing(j, h) == p
  }

  lemma {:induction false} FoldedBits(v: U64, h: nat, j: nat, p: nat)
    requires j <= 64 < h <= 128
    ensures Has(Folded(v, h, j), p) <==> Lands(v, h, j, p)
    ensures Folded(v, h, j) < Pow2(h)
    decreases 64 - j
  {
    if j == 64 {
      HasNone(p);
    } else {
      FoldedBits(v, h, j + 1, p);
      var rest := Folded(v, h, j + 1);
      Pow2Mono(Landing(j, h), h);
      HasOr(rest, Pow2(Landing(j, h)), p);
      HasPow(Landing(j, h), p);
      OrBound(rest, Pow2(Landing(j, h)), h);
      hide Has, Or, Pow2;
      assert Lands(v, h, j, p) <==> Lands(v, h, j + 1, p) || (Has(v, j) && Landing(j, h) == p) by {
        if Lands(v, h, j, p) {
          var m :| j <= m < 64 && Has(v, m) && Landing(m, h) == p;
        }
        if Lands(v, h, j + 1, p) {
          var m :| j + 1 <= m < 64 && Has(v, m) && Landing(m, h) == p;
        }
      }
    }
  }

  lemma PlacedIsLands(v: U64, h: nat, p: nat)
    requires 64 < h <= 128
    ensures Placed(v, 0, h, p) <==> Lands(v, h, 0, p)
  {
    hide Has;
    if Placed(v, 0, h, p) {
      var i :| 0 <= i < 64 && Has(v, 63 - i) && Rotated(2 * i - 0, h) == p;
      assert Has(v, 63 - i) && Landing(63 - i, h) == p;
    }
    if Lands(v, h, 0, p) {
      var j :| 0 <= j < 64 && Has(v, j) && Landing(j, h) == p;
      assert Has(v, 63 - (63 - j)) && Rotated(2 * (63 - j) - 0, h) == p;
    }
  }

  lemma LastIteration(r: nat, v: U64, h: nat)
    requires 64 < h <= 128 && Holds(r, v, 1, h)
    ensures StepValue(Pow2(h) - 1, r, 0, Has(v, 63)) == Folded(v, h, 0) + Carry(v, h)
  {
    hide StepValue, PopCount, Has, Placed, Lands, Folded;
    var joined := Has(v, 63) && !Has(r, h - 1);
    var f := StepValue(Pow2(h) - 1, r, 0, joined);
    StepKeepsRange(h, r, 0, joined);
    NotAtTop(v, 1);
    TopBeforeLast(v, h);
    forall p: nat | p < h
      ensures Has(f, p) <==> Has(Folded(v, h, 0), p)
    {
      StepBits(h, r, 0, joined, p);
      PlacedNext(v, 1, h, p);
      PlacedIsLands(v, h, p);
      FoldedBits(v, h, 0, p);
    }
    FoldedBits(v, h, 0, 0);
    SameBits(f, Folded(v, h, 0), h);
    if Has(v, 63) && Has(r, h - 1) {
      LastStepCarries(h, r);
    }
  }

  /** Above 64 host bits the loop's result is known for every value: each bit where it lands,
      bits that meet joined, and a carry for the pair that meets in the last iteration. */
  lemma LoopResult(v: U64, b: Uint128, h: nat)
    requires 64 < h <= 128 && b.Val() == Pow2(h) - 1
    ensures Mod(Uint128(0, v), b).Val() == Folded(v, h, 0) + Carry(v, h)
  {
    hide Step, StepValue, Has, DividendBit, Placed, PopCount;
    var a := Uint128(0, v);
    CapacityLimbs(b, h);
    IdleIterations(a, b, 128);
    NothingPlaced(v, h);
    var last := IterationsHold(v, b, ZERO, 64, h);
    ReadsBit(v, 0);
    StepIsStepValue(a, b, last, 0);
    LastIteration(last.Val(), v, h);
  }

  lemma NothingPlaced(v: U64, h: nat)
    requires 64 < h <= 128
    ensures Holds(0, v, 64, h)
  {
    Pow2Mono(1, h);
    forall p: nat | p < h
      ensures !Has(0, p) && !Placed(v, 64, h, p)
    {
      HasNone(p);
    }
  }

  // ---- when two values meet ----

  /** Bit j or, for an even number of host bits, one of the two it may meet. */
  predicate Touched(v: U64, h: nat, j: nat)
    requires j < 64 < h
  {
    || Has(v, j)
    || (h % 2 == 0 && j + h / 2 < 64 && Has(v, j + h / 2))
    || (h % 2 == 0 && j >= h / 2 && Has(v, j - h / 2))
  }

  lemma LandsIsTouched(v: U64, h: nat, j: nat)
    requires j < 64 < h <= 128
    ensures Lands(v, h, 0, Landing(j, h)) <==> Touched(v, h, j)
  {
    hide Has;
    if Lands(v, h, 0, Landing(j, h)) {
      var m :| 0 <= m < 64 && Has(v, m) && Landing(m, h) == Landing(j, h);
      assert m == j || 2 * (m - j) == h || 2 * (j - m) == h;
    }
    if Has(v, j) {
      assert Landing(j, h) == Landing(j, h);
    }
    if h % 2 == 0 && j + h / 2 < 64 && Has(v, j + h / 2) {
      assert Landing(j + h / 2, h) == Landing(j, h);
    }
    if h % 2 == 0 && j >= h / 2 && Has(v, j - h / 2) {
      assert Landing(j - h / 2, h) == Landing(j, h);
    }
  }

  /** The two values touch the same bits. */
  predicate SameTouched(v: U64, w: U64, h: nat)
    requires h > 64
  {
    forall j: nat | j < 64 :: Touched(v, h, j) <==> Touched(w, h, j)
  }

  lemma FoldedSameIff(v: U64, w: U64, h: nat)
    requires 64 < h <= 128
    ensures Folded(v, h, 0) == Folded(w, h, 0) <==> SameTouched(v, w, h)
  {
    hide Has, Folded, Touched;
    var x, y := Folded(v, h, 0), Folded(w, h, 0);
    if x == y {
      forall j: nat | j < 64
        ensures Touched(v, h, j) <==> Touched(w, h, j)
      {
        LandsIsTouched(v, h, j);
        LandsIsTouched(w, h, j);
        FoldedBits(v, h, 0, Landing(j, h));
        FoldedBits(w, h, 0, Landing(j, h));
      }
    }
    if SameTouched(v, w, h) {
      forall p: nat | p < h
        ensures Has(x, p) <==> Has(y, p)
      {
        FoldedBits(v, h, 0, p);
        FoldedBits(w, h, 0, p);
        SameLandings(v, w, h, p);
        SameLandings(w, v, h, p);
      }
      FoldedBits(v, h, 0, 0);
      FoldedBits(w, h, 0, 0);
      SameBits(x, y, h);
    }
  }

  lemma SameLandings(v: U64, w: U64, h: nat, p: nat)
    requires 64 < h <= 128 && SameTouched(v, w, h)
    ensures Lands(v, h, 0, p) ==> Lands(w, h, 0, p)
  {
    hide Has, Touched;
    if Lands(v, h, 0, p) {
      var j: nat :| 0 <= j < 64 && Has(v, j) && Landing(j, h) == p;
      LandsIsTouched(v, h, j);
      LandsIsTouched(w, h, j);
      assert Lands(v, h, 0, Landing(j, h));
      assert Touched(v, h, j) <==> Touched(w, h, j);
    }
  }

  /** With an even number of host bits all bits land on even positions, so a carry shows. */
  lemma EvenPositions(v: U64, h: nat)
    requires 64 < h <= 128 && h % 2 == 0
    ensures Folded(v, h, 0) % 4 <= 1
    ensures Carry(v, h) == 1 ==> Folded(v, h, 0) % 4 == 1
  {
    hide Folded;
    var x := Folded(v, h, 0);
    FoldedBits(v, h, 0, 0);
    FoldedBits(v, h, 0, 1);
    assert Has(x, 1) <==> (x / 2) % 2 == 1;
    hide Has;
    assert !Lands(v, h, 0, 1);
    if Carry(v, h) == 1 {
      assert Has(v, 63) && Landing(63, h) == 0;
    }
  }

  /** Above 64 host bits two values give the same result exactly when they touch the same bits
      and carry alike. */
  lemma SameResultIff(v: U64, w: U64, b: Uint128, h: nat)
    requires 64 < h <= 128 && b.Val() == Pow2(h) - 1
    ensures Mod(Uint128(0, v), b) == Mod(Uint128(0, w), b)
       <==> SameTouched(v, w, h) && Carry(v, h) == Carry(w, h)
  {
    hide Mod, Folded, SameTouched, Has;
    LoopResult(v, b, h);
    LoopResult(w, b, h);
    FoldedSameIff(v, w, h);
    if h % 2 == 0 {
      EvenPositions(v, h);
      EvenPositions(w, h);
    }
  }

  lemma OddApart(v: U64, w: U64, h: nat)
    requires 64 < h <= 128 && (h % 2 == 1 || h == 128) && SameTouched(v, w, h)
    ensures v == w
  {
    hide Has;
    forall j: nat | j < 64
      ensures Has(v, j) <==> Has(w, j)
    {
      assert Touched(v, h, j) <==> Touched(w, h, j);
    }
    Pow2Words();
    hide Pow2;
    SameBits(v, w, 64);
  }

  /** All 64-bit values stay apart exactly for an odd number of host bits, or all 128. */
  lemma DistinctIff(b: Uint128, h: nat)
    requires 64 < h <= 128 && b.Val() == Pow2(h) - 1
    ensures (forall v: U64, w: U64 :: Mod(Uint128(0, v), b) == Mod(Uint128(0, w), b) ==> v == w)
       <==> h % 2 == 1 || h == 128
  {
    hide Mod, SameTouched, Carry, Pow2;
    if h % 2 == 1 || h == 128 {
      forall v: U64, w: U64 | Mod(Uint128(0, v), b) == Mod(Uint128(0, w), b)
        ensures v == w
      {
        SameResultIff(v, w, b, h);
        OddApart(v, w, h);
      }
    } else {
      var v, w := MeetingValues(h);
      SameResultIff(v, w, b, h);
      assert Mod(Uint128(0, v), b) == Mod(Uint128(0, w), b) && v != w;
    }
  }

  /** The single bits 0 and h/2 land together. */
  lemma MeetingValues(h: nat) returns (v: U64, w: U64)
    requires 64 < h < 128 && h % 2 == 0
    ensures v != w && SameTouched(v, w, h) && Carry(v, h) == Carry(w, h)
  {
    Pow2Words();
    Pow2Mono(h / 2, 64);
    Pow2Mono(0, h / 2);
    v, w := Pow2(0), Pow2(h / 2);
    forall j: nat
      ensures Has(v, j) <==> j == 0
      ensures Has(w, j) <==> j == h / 2
    {
      HasPow(0, j);
      HasPow(h / 2, j);
    }
    hide Has, Pow2;
  }

  // ---- addresses ----

  /** What decides whether two session values share an address of the block. */
  predicate Meet(c: Cidr6, v: U64, w: U64)
    requires c.Valid()
  {
    if c.bits == 128 then true
    else if c.bits >= 64 then v % (Pow2(HostBits(c)) - 1) == w % (Pow2(HostBits(c)) - 1)
    else SameTouched(v, w, HostBits(c)) && Carry(v, HostBits(c)) == Carry(w, HostBits(c))
  }

  lemma SameByHost(c: Cidr6, x: Uint128, y: Uint128)
    requires c.Valid() && Contains(c, x) && Contains(c, y)
    ensures x == y <==> x.Val() % Pow2(HostBits(c)) == y.Val() % Pow2(HostBits(c))
  {
    var p := Pow2(HostBits(c));
    DivMod(x.Val(), p);
    DivMod(y.Val(), p);
    if x.Val() % p == y.Val() % p {
      ValInjective(x, y);
    }
  }

  lemma SameSessionIff(c: Cidr6, v: U64, w: U64)
    requires c.Valid()
    ensures AssignSession(c, v) == AssignSession(c, w) <==> Meet(c, v, w)
  {
    hide AssignSession, Mod, Contains, SameTouched, Carry, Capacity, Pow2;
    SessionInBlock(c, v);
    SessionInBlock(c, w);
    SameByHost(c, AssignSession(c, v), AssignSession(c, w));
    if c.bits < 64 {
      SameResultIff(v, w, Capacity(c), HostBits(c));
      var x, y := Mod(Uint128(0, v), Capacity(c)), Mod(Uint128(0, w), Capacity(c));
      if x.Val() == y.Val() {
        ValInjective(x, y);
      }
    }
  }

  /** Above 64 host bits, the host part of a session or ttl address. */
  lemma SessionHost(c: Cidr6, range: Option<nat>, e: Extension, random: Uint128, random64: U64)
    requires c.Valid() && c.bits < 64 && (e.Session? || e.Ttl?)
    ensures Assign(c, range, e, random, random64).Val() % Pow2(HostBits(c))
         == Folded(e.value, HostBits(c), 0) + Carry(e.value, HostBits(c))
  {
    hide AssignSession, Mod, Contains, Carry, Capacity, Folded, Pow2;
    SessionInBlock(c, e.value);
    LoopResult(e.value, Capacity(c), HostBits(c));
  }

  /** For every prefix length: two session or ttl values are given the same address exactly
      when they meet, whatever the range and the random words. */
  lemma SameAddressIff(c: Cidr6, range: Option<nat>, e: Extension, f: Extension,
                       random: Uint128, random64: U64, random': Uint128, random64': U64)
    requires c.Valid() && (e.Session? || e.Ttl?) && (f.Session? || f.Ttl?)
    ensures Assign(c, range, e, random, random64) == Assign(c, range, f, random', random64')
       <==> Meet(c, e.value, f.value)
  {
    hide AssignSession, Meet;
    SameSessionIff(c, e.value, f.value);
  }
}
