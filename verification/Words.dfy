/** Powers of two and bitwise operations on unbounded naturals. Machine words are
    naturals below a power of two, so every shift, mask and wrap-around of the
    source is written out as arithmetic. */
module Words {

  function Pow2(n: nat): (p: nat)
    ensures p >= 1
  {
    if n == 0 then 1 else 2 * Pow2(n - 1)
  }

  const TWO64: nat := 0x1_0000_0000_0000_0000
  const TWO128: nat := 0x1_0000_0000_0000_0000_0000_0000_0000_0000
  const TWO32: nat := 0x1_0000_0000

  type Byte = x: nat | x < 256

  type Bytes = seq<Byte>

  lemma {:induction false} Pow2Add(m: nat, n: nat)
    ensures Pow2(m + n) == Pow2(m) * Pow2(n)
  {
    if m == 0 {
    } else {
      Pow2Add(m - 1, n);
      calc {
        Pow2(m + n);
        2 * Pow2(m - 1 + n);
        2 * (Pow2(m - 1) * Pow2(n));
        (2 * Pow2(m - 1)) * Pow2(n);
        Pow2(m) * Pow2(n);
      }
    }
  }

  lemma {:induction false} Pow2Mono(m: nat, n: nat)
    requires m < n
    ensures Pow2(m) < Pow2(n)
    decreases n
  {
    if m + 1 < n {
      Pow2Mono(m, n - 1);
    }
  }

  lemma Pow2Words()
    ensures Pow2(32) == TWO32 && Pow2(64) == TWO64 && Pow2(128) == TWO128
  {
    var n := 8;
    assert Pow2(n) == 256 by { assert Pow2(8) == 256; }
    Pow2Square(n, 256);
    Pow2Square(2 * n, 0x1_0000);
    Pow2Square(4 * n, TWO32);
    Pow2Square(8 * n, TWO64);
  }

  lemma Pow2Square(n: nat, v: nat)
    requires Pow2(n) == v
    ensures Pow2(2 * n) == v * v
  {
    Pow2Add(n, n);
  }

  lemma Pow2Half(n: nat)
    requires n > 0
    ensures Pow2(n) == 2 * Pow2(n - 1)
  {
  }

  /** A field of value m at bit n. */
  function Scaled(m: nat, n: nat): nat {
    m * Pow2(n)
  }

  // ---- division by powers of two ----

  lemma DivModUnique(x: int, d: int, q: int, r: int)
    requires d > 0 && 0 <= r < d && x == q * d + r
    ensures x / d == q && x % d == r
  {
    var k := x / d - q;
    assert x == (x / d) * d + x % d;
    assert k * d == r - x % d;
    MulBetween(k, d);
  }

  lemma MulBetween(k: int, d: int)
    requires -d < k * d < d
    ensures k == 0
  {
  }

  lemma DivPowStep(x: nat, n: nat)
    requires n > 0
    ensures x / Pow2(n) == (x / 2) / Pow2(n - 1)
    ensures x % Pow2(n) == 2 * ((x / 2) % Pow2(n - 1)) + x % 2
  {
    var p := Pow2(n - 1);
    var y := x / 2;
    assert y == (y / p) * p + y % p;
    assert x == 2 * y + x % 2;
    assert x == (y / p) * (2 * p) + (2 * (y % p) + x % 2) by {
      assert 2 * ((y / p) * p) == (y / p) * (2 * p);
    }
    DivModUnique(x, Pow2(n), y / p, 2 * (y % p) + x % 2);
  }

  // ---- bitwise operations ----

  function And(a: nat, b: nat): nat {
    if a == 0 || b == 0 then 0 else 2 * And(a / 2, b / 2) + (if a % 2 == 1 && b % 2 == 1 then 1 else 0)
  }

  function Or(a: nat, b: nat): nat
    decreases a + b
  {
    if a == 0 then b else if b == 0 then a
    else 2 * Or(a / 2, b / 2) + (if a % 2 == 1 || b % 2 == 1 then 1 else 0)
  }

  /** Masking with n low ones keeps the remainder modulo 2^n. */
  lemma {:induction false} AndMask(x: nat, n: nat)
    ensures And(x, Pow2(n) - 1) == x % Pow2(n)
  {
    if n == 0 {
      assert Pow2(0) - 1 == 0;
    } else {
      var p := Pow2(n - 1);
      assert Pow2(n) == 2 * p;
      hide And, Pow2;
      AndMask(x / 2, n - 1);
      DivPowStep(x, n);
      OddHalf(p);
      AndUnfold(x, 2 * p - 1);
    }
  }

  lemma OddHalf(p: nat)
    requires p > 0
    ensures (2 * p - 1) / 2 == p - 1 && (2 * p - 1) % 2 == 1
  {
  }

  /** Masking a w-bit value with the complement of n low ones clears those n bits. */
  lemma AndHighMask(x: nat, m: nat, n: nat, w: nat)
    requires n <= w && x < Pow2(w) && m + Pow2(n) == Pow2(w)
    ensures And(x, m) == x - x % Pow2(n)
  {
    DivMod(x, Pow2(n));
    DivBelow(x, n, w);
    AndHighSplit(x, m, x / Pow2(n), x % Pow2(n), n, w);
  }

  lemma AndHighSplit(x: nat, m: nat, q: nat, r: nat, n: nat, w: nat)
    requires n <= w && m + Pow2(n) == Pow2(w)
    requires x == q * Pow2(n) + r && r < Pow2(n) && q < Pow2(w - n)
    ensures And(x, m) == x - r
  {
    Pow2Add(w - n, n);
    MulSubOne(Pow2(w - n), Pow2(n));
    AndMask(q, w - n);
    SmallMod(q, Pow2(w - n));
    AndSplit(x, m, q, r, Pow2(w - n) - 1, 0, n);
  }

  lemma DivMod(x: nat, p: nat)
    requires p > 0
    ensures x / p >= 0 && 0 <= x % p < p && x == (x / p) * p + x % p
  {
  }

  lemma SmallMod(x: nat, p: nat)
    requires x < p
    ensures x % p == x && x / p == 0
  {
  }

  lemma DivBelow(x: nat, n: nat, w: nat)
    requires n <= w && x < Pow2(w)
    ensures x / Pow2(n) < Pow2(w - n)
  {
    Pow2Add(w - n, n);
    var p, q := Pow2(n), x / Pow2(n);
    assert q * p <= x;
    if q >= Pow2(w - n) {
      MulMono(Pow2(w - n), q, p);
      assert false;
    }
  }

  lemma MulSubOne(a: nat, p: nat)
    ensures (a - 1) * p == a * p - p
  {
  }

  lemma MulMono(a: nat, b: nat, p: nat)
    requires a <= b
    ensures a * p <= b * p
  {
  }

  lemma AndUnfold(a: nat, b: nat)
    ensures And(a, b) == 2 * And(a / 2, b / 2) + (if a % 2 == 1 && b % 2 == 1 then 1 else 0)
  {
  }

  /** A disjunction of disjoint fields is their sum. */
  lemma {:induction false} OrDisjoint(x: nat, y: nat, n: nat)
    requires x % Pow2(n) == 0 && y < Pow2(n)
    ensures Or(x, y) == x + y
  {
    if x == 0 || y == 0 {
    } else {
      assert n > 0;
      DivPowStep(x, n);
      OrDisjoint(x / 2, y / 2, n - 1);
    }
  }

  predicate Bit(x: nat, i: nat) {
    (x / Pow2(i)) % 2 == 1
  }

  /** Setting one bit adds it exactly when it was clear. */
  lemma {:induction false} OrBit(x: nat, i: nat)
    ensures Or(x, Pow2(i)) == if Bit(x, i) then x else x + Pow2(i)
  {
    if i == 0 {
      OrUnfold(x, 1);
      assert Or(x / 2, 0) == x / 2;
    } else {
      var p := Pow2(i - 1);
      assert Pow2(i) == 2 * p;
      DivPowStep(x, i);
      OrUnfold(x, 2 * p);
      OrBit(x / 2, i - 1);
      hide Or, Pow2;
      DoubleHalf(x, p);
    }
  }

  lemma DoubleHalf(x: nat, p: nat)
    ensures (2 * p) / 2 == p && (2 * p) % 2 == 0 && 2 * (x / 2) + x % 2 == x
  {
  }

  lemma {:induction false} AndBound(a: nat, b: nat)
    ensures And(a, b) <= a && And(a, b) <= b
  {
    if a != 0 && b != 0 {
      AndBound(a / 2, b / 2);
    }
  }

  lemma {:induction false} OrBound(a: nat, b: nat, n: nat)
    requires a < Pow2(n) && b < Pow2(n)
    ensures Or(a, b) < Pow2(n)
  {
    if a != 0 && b != 0 {
      OrBound(a / 2, b / 2, n - 1);
    }
  }

  /** Conjunction works limb by limb. */
  lemma {:induction false} AndSplit(x: nat, y: nat, a: nat, b: nat, c: nat, d: nat, k: nat)
    requires b < Pow2(k) && d < Pow2(k)
    requires x == a * Pow2(k) + b && y == c * Pow2(k) + d
    ensures And(x, y) == And(a, c) * Pow2(k) + And(b, d)
  {
    if k == 0 {
      assert Pow2(0) == 1 && a * 1 == a && c * 1 == c && And(a, c) * 1 == And(a, c);
      assert And(0, 0) == 0;
    } else {
      assert Pow2(k) == 2 * Pow2(k - 1);
      hide And, Pow2;
      SplitHalf(x, a, b, k);
      SplitHalf(y, c, d, k);
      AndSplit(x / 2, y / 2, a, b / 2, c, d / 2, k - 1);
      AndSplitStep(x, y, b, d, And(a, c), Pow2(k - 1));
    }
  }

  /** Disjunction works limb by limb. */
  lemma OrSplit(x: nat, y: nat, a: nat, b: nat, c: nat, d: nat, k: nat)
    requires b < Pow2(k) && d < Pow2(k)
    requires x == a * Pow2(k) + b && y == c * Pow2(k) + d
    ensures Or(x, y) == Or(a, c) * Pow2(k) + Or(b, d)
  {
    AndSplit(x, y, a, b, c, d, k);
    OrByAnd(x, y);
    OrByAnd(a, c);
    OrByAnd(b, d);
    OrLimbs(x, y, a, b, c, d, And(x, y), And(a, c), And(b, d), Or(x, y), Or(a, c), Or(b, d), Pow2(k));
  }

  lemma OrLimbs(x: int, y: int, a: int, b: int, c: int, d: int, e: int, eh: int, el: int, o: int, oh: int, ol: int, p: int)
    requires x == a * p + b && y == c * p + d && e == eh * p + el
    requires o == x + y - e && oh == a + c - eh && ol == b + d - el
    ensures o == oh * p + ol
  {
    assert oh * p == a * p + c * p - eh * p;
  }

  lemma {:induction false} OrByAnd(a: nat, b: nat)
    ensures Or(a, b) == a + b - And(a, b)
    decreases a + b
  {
    if a != 0 && b != 0 {
      OrByAnd(a / 2, b / 2);
      AndUnfold(a, b);
      OrUnfold(a, b);
    }
  }

  lemma AndSplitStep(x: nat, y: nat, b: nat, d: nat, high: nat, p: nat)
    requires x % 2 == b % 2 && y % 2 == d % 2
    requires And(x / 2, y / 2) == high * p + And(b / 2, d / 2)
    ensures And(x, y) == high * (2 * p) + And(b, d)
  {
    AndUnfold(x, y);
    AndUnfold(b, d);
    var bit := if b % 2 == 1 && d % 2 == 1 then 1 else 0;
    LimbStep(And(x, y), And(b, d), And(b / 2, d / 2), high, p, bit);
  }

  lemma LimbStep(v: nat, low: nat, low2: nat, high: nat, p: nat, bit: nat)
    requires v == 2 * (high * p + low2) + bit && low == 2 * low2 + bit
    ensures v == high * (2 * p) + low
  {
  }

  lemma OrUnfold(a: nat, b: nat)
    ensures Or(a, b) == 2 * Or(a / 2, b / 2) + (if a % 2 == 1 || b % 2 == 1 then 1 else 0)
  {
  }

  lemma MulDouble(a: nat, p: nat)
    ensures a * (2 * p) == 2 * (a * p)
  {
  }

  lemma SplitHalf(x: nat, a: nat, b: nat, k: nat)
    requires k > 0 && x == a * Pow2(k) + b
    ensures x / 2 == a * Pow2(k - 1) + b / 2 && x % 2 == b % 2
  {
    var p := Pow2(k - 1);
    assert Pow2(k) == 2 * p;
    hide Pow2;
    MulDouble(a, p);
  }

  // ---- population count ----

  function PopCount(x: nat): nat {
    if x == 0 then 0 else x % 2 + PopCount(x / 2)
  }

  lemma {:induction false} PopCountOnes(n: nat)
    ensures PopCount(Pow2(n) - 1) == n
  {
    if n > 0 {
      PopCountOnes(n - 1);
      assert (Pow2(n) - 1) / 2 == Pow2(n - 1) - 1;
    }
  }

  lemma {:induction false} PopCountInc(x: nat)
    ensures PopCount(x + 1) <= PopCount(x) + 1
  {
    if x == 0 {
      assert PopCount(1) == 1 + PopCount(0);
    } else if x % 2 == 1 {
      PopCountInc(x / 2);
      assert (x + 1) / 2 == x / 2 + 1;
    } else {
      assert (x + 1) / 2 == x / 2;
    }
  }

  lemma {:induction false} PopCountOrBit(x: nat, i: nat)
    ensures PopCount(Or(x, Pow2(i))) <= PopCount(x) + 1
  {
    if i == 0 {
      OrBit(x, 0);
      PopCountInc(x);
    } else {
      var p := Pow2(i - 1);
      assert Pow2(i) == 2 * p;
      PopCountOrBit(x / 2, i - 1);
      OrUnfold(x, 2 * p);
      DoubleHalf(x, p);
      hide Or, Pow2;
      var y := Or(x, 2 * p);
      assert y == 2 * Or(x / 2, p) + x % 2;
      assert y / 2 == Or(x / 2, p) && y % 2 == x % 2;
    }
  }

  /** A leading one above an n-bit value counts once. */
  lemma {:induction false} PopCountTop(x: nat, n: nat)
    requires x < Pow2(n)
    ensures PopCount(Pow2(n) + x) == 1 + PopCount(x)
  {
    if n == 0 {
      assert PopCount(1) == 1 + PopCount(0);
    } else {
      PopCountTop(x / 2, n - 1);
      assert (Pow2(n) + x) / 2 == Pow2(n - 1) + x / 2;
    }
  }

  /** Bit p of x. */
  predicate Has(x: nat, p: nat) {
    if p == 0 then x % 2 == 1 else Has(x / 2, p - 1)
  }
}
