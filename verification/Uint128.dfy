/** The two-limb 128-bit integers used to choose IPv6 source addresses. Every helper
    is proved to be the operation of the same name on the value it stands for. */
module Uint128 {
  import opened Words

  type U64 = x: nat | x < TWO64

  datatype Uint128 = Uint128(hi: U64, lo: U64) {
    function Val(): (v: nat)
      ensures v < TWO128
      ensures v == 0 <==> this == ZERO
    {
      hi * TWO64 + lo
    }
  }

  const ZERO := Uint128(0, 0)
  const ONE := Uint128(0, 1)

  lemma ValInjective(a: Uint128, b: Uint128)
    requires a.Val() == b.Val()
    ensures a == b
  {
  }

  // ---- 64-bit words with wrap-around ----

  function Sub64(a: U64, b: U64): (r: U64)
    ensures r == if a >= b then a - b else a - b + TWO64
  {
    (a - b) % TWO64
  }

  function Shl64(a: U64, n: nat): U64 {
    (a * Pow2(n)) % TWO64
  }

  function Shr64(a: U64, n: nat): (r: U64)
    ensures r <= a
  {
    DivShrinks(a, Pow2(n));
    a / Pow2(n)
  }

  lemma DivShrinks(a: nat, p: nat)
    requires p >= 1
    ensures 0 <= a / p <= a
  {
    DivMod(a, p);
    MulMono(1, p, a / p);
  }

  function Not64(a: U64): U64 {
    TWO64 - 1 - a
  }

  function And64(a: U64, b: U64): U64 {
    AndBound(a, b);
    And(a, b)
  }

  function Or64(a: U64, b: U64): U64 {
    Pow2Words();
    OrBound(a, b, 64);
    Or(a, b)
  }

  // ---- two-limb helpers ----

  function ShiftedOne(n: nat): Uint128 {
    if n >= 128 then ZERO
    else if n < 64 then Uint128(0, Shl64(1, n))
    else Uint128(Shl64(1, n - 64), 0)
  }

  function LowMask(n: nat): Uint128 {
    if n >= 128 then Uint128(TWO64 - 1, TWO64 - 1)
    else if n < 64 then Uint128(0, Sub64(Shl64(1, n), 1))
    else Uint128(Sub64(Shl64(1, n - 64), 1), TWO64 - 1)
  }

  function NotU(a: Uint128): (r: Uint128)
    ensures r.Val() == TWO128 - 1 - a.Val()
  {
    Uint128(Not64(a.hi), Not64(a.lo))
  }

  function AndU(a: Uint128, b: Uint128): Uint128 {
    Uint128(And64(a.hi, b.hi), And64(a.lo, b.lo))
  }

  function OrU(a: Uint128, b: Uint128): Uint128 {
    Uint128(Or64(a.hi, b.hi), Or64(a.lo, b.lo))
  }

  function ShlU(a: Uint128, n: nat): Uint128 {
    if n == 0 then a
    else if n >= 128 then ZERO
    else if n < 64 then
      Uint128(Or64(Shl64(a.hi, n), Shr64(a.lo, 64 - n)), Shl64(a.lo, n))
    else Uint128(Shl64(a.lo, n - 64), 0)
  }

  function SubU(a: Uint128, b: Uint128): Uint128 {
    var lo := Sub64(a.lo, b.lo);
    var carry: U64 := if a.lo < b.lo then 1 else 0;
    Uint128(Sub64(Sub64(a.hi, b.hi), carry), lo)
  }

  function Cmp(a: Uint128, b: Uint128): (c: int)
    ensures c > 0 <==> a.Val() > b.Val()
    ensures c < 0 <==> a.Val() < b.Val()
    ensures -1 <= c <= 1
  {
    if a.hi != b.hi then
      if a.hi > b.hi then 1 else -1
    else if a.lo > b.lo then 1
    else if a.lo < b.lo then -1
    else 0
  }

  // ---- the helpers are arithmetic modulo 2^128 ----

  lemma SubValue(a: Uint128, b: Uint128)
    ensures SubU(a, b).Val() == (a.Val() - b.Val()) % TWO128
  {
    var borrow := if a.Val() < b.Val() then -1 else 0;
    assert SubU(a, b).Val() == a.Val() - b.Val() - borrow * TWO128;
    DivModUnique(a.Val() - b.Val(), TWO128, borrow, SubU(a, b).Val());
  }

  lemma Shl64One(n: nat)
    requires n < 64
    ensures Shl64(1, n) == Pow2(n)
  {
    Pow2Words();
    Pow2Mono(n, 64);
    SmallMod(Pow2(n), TWO64);
  }

  lemma Pow2High(n: nat)
    requires n >= 64
    ensures Pow2(n) == Pow2(n - 64) * TWO64
  {
    Pow2Add(n - 64, 64);
    Pow2Words();
  }

  lemma ShiftedOneValue(n: nat)
    ensures ShiftedOne(n).Val() == if n < 128 then Pow2(n) else 0
  {
    hide Shl64, Pow2;
    if n < 64 {
      Shl64One(n);
    } else if n < 128 {
      Shl64One(n - 64);
      Pow2High(n);
    }
  }

  lemma LowMaskValue(n: nat)
    ensures LowMask(n).Val() == Pow2(if n < 128 then n else 128) - 1
  {
    hide Shl64, Pow2;
    Pow2Words();
    if n < 64 {
      Shl64One(n);
    } else if n < 128 {
      Shl64One(n - 64);
      Pow2High(n);
    }
  }

  lemma AndValue(a: Uint128, b: Uint128)
    ensures AndU(a, b).Val() == And(a.Val(), b.Val())
  {
    Pow2Words();
    AndSplit(a.Val(), b.Val(), a.hi, a.lo, b.hi, b.lo, 64);
  }

  lemma OrValue(a: Uint128, b: Uint128)
    ensures OrU(a, b).Val() == Or(a.Val(), b.Val())
  {
    Pow2Words();
    OrSplit(a.Val(), b.Val(), a.hi, a.lo, b.hi, b.lo, 64);
  }

  /** Shifting multiplies and drops what leaves the 128 bits. */
  lemma ShlValue(a: Uint128, n: nat)
    ensures ShlU(a, n).Val() == (a.Val() * Pow2(n)) % TWO128
  {
    if n == 0 {
      ShlNone(a);
    } else if n < 64 {
      ShlNear(a, n);
    } else if n < 128 {
      ShlFar(a, n);
    } else {
      ShlAll(a, n);
    }
    hide ShlU, Pow2;
  }

  lemma ShlNone(a: Uint128)
    ensures ShlU(a, 0).Val() == (a.Val() * Pow2(0)) % TWO128
  {
    assert Pow2(0) == 1 && a.Val() * 1 == a.Val();
    hide Pow2;
    SmallMod(a.Val(), TWO128);
  }

  lemma ShlAll(a: Uint128, n: nat)
    requires n >= 128
    ensures ShlU(a, n).Val() == (a.Val() * Pow2(n)) % TWO128
  {
    assert ShlU(a, n).Val() == 0;
    Pow2Words();
    hide Pow2, ShlU;
    Pow2Add(n - 128, 128);
    ShlOut(a.Val(), Pow2(n - 128), Pow2(n));
  }

  lemma ShlOut(v: nat, q: nat, p: nat)
    requires p == q * TWO128
    ensures (v * p) % TWO128 == 0
  {
    MulAssoc(v, q, TWO128);
    MultipleMod(v * q, TWO128);
  }

  lemma MulAssoc(a: int, b: int, c: int)
    ensures a * (b * c) == (a * b) * c
  {
  }

  lemma MultipleMod(a: nat, p: nat)
    requires p > 0
    ensures (a * p) % p == 0
  {
    DivModUnique(a * p, p, a, 0);
  }

  lemma ShlFar(a: Uint128, n: nat)
    requires 64 <= n < 128
    ensures ShlU(a, n).Val() == (a.Val() * Pow2(n)) % TWO128
  {
    hide Shl64, Pow2;
    Pow2Words();
    Pow2Add(n - 64, 64);
    var low := Shl64(a.lo, n - 64);
    assert ShlU(a, n) == Uint128(low, 0);
    hide ShlU;
    var t := HighLimb(a.lo, n - 64);
    ShlFarArith(a.hi, a.lo, Pow2(n - 64), t, low);
  }

  lemma ShlFarArith(hi: nat, lo: nat, p: nat, q: int, r: int)
    requires lo * p == q * TWO64 + r && 0 <= r < TWO64
    ensures ((hi * TWO64 + lo) * (p * TWO64)) % TWO128 == r * TWO64
  {
    var x := (hi * TWO64 + lo) * (p * TWO64);
    assert x == hi * p * TWO128 + (lo * p) * TWO64;
    assert x == (hi * p + q) * TWO128 + r * TWO64;
    DivModUnique(x, TWO128, hi * p + q, r * TWO64);
  }

  lemma ShlNear(a: Uint128, n: nat)
    requires 0 < n < 64
    ensures ShlU(a, n).Val() == (a.Val() * Pow2(n)) % TWO128
  {
    var k, low, u := Shr64(a.lo, 64 - n), Shl64(a.lo, n), Shl64(a.hi, n);
    assert ShlU(a, n) == Uint128(Or64(u, k), low);
    ShlHigh(a, n);
    LowLimb(a.lo, n);
    hide ShlU, Shl64, Shr64, Or64, Pow2;
    var t := HighLimb(a.hi, n);
    ShlNearArith(a.hi, a.lo, Pow2(n), k, low, t, u);
  }

  lemma LowLimb(lo: U64, n: nat)
    requires 0 < n < 64
    ensures lo * Pow2(n) == Shr64(lo, 64 - n) * TWO64 + Shl64(lo, n)
  {
    Pow2Words();
    Pow2Add(64 - n, n);
    LowPart(lo, Pow2(n), Pow2(64 - n));
  }

  lemma HighLimb(hi: U64, n: nat) returns (t: int)
    ensures hi * Pow2(n) == t * TWO64 + Shl64(hi, n)
  {
    t := (hi * Pow2(n)) / TWO64;
  }

  /** What the low limb loses lands in the cleared bits of the high limb. */
  lemma ShlHigh(a: Uint128, n: nat)
    requires 0 < n < 64
    ensures Or64(Shl64(a.hi, n), Shr64(a.lo, 64 - n)) == Shl64(a.hi, n) + Shr64(a.lo, 64 - n)
  {
    Pow2Words();
    DivBelow(a.lo, 64 - n, 64);
    HighPart(a.hi, n);
    OrDisjoint(Shl64(a.hi, n), Shr64(a.lo, 64 - n), n);
  }

  lemma LowPart(lo: nat, p: nat, q: nat)
    requires p > 0 && q > 0 && q * p == TWO64
    ensures lo * p == (lo / q) * TWO64 + (lo * p) % TWO64
  {
    DivMod(lo, q);
    var k, s := lo / q, lo % q;
    LowPartArith(lo, p, q, k, s);
    DivModUnique(lo * p, TWO64, k, s * p);
  }

  lemma LowPartArith(lo: nat, p: nat, q: nat, k: nat, s: nat)
    requires lo == k * q + s && s < q && q * p == TWO64 && p > 0
    ensures lo * p == k * TWO64 + s * p && 0 <= s * p < TWO64
  {
    assert lo * p == (k * q) * p + s * p;
    MulAssoc(k, q, p);
    MulMono(s + 1, q, p);
    assert (s + 1) * p == s * p + p;
  }

  lemma HighPart(hi: nat, n: nat)
    requires n <= 64
    ensures ((hi * Pow2(n)) % TWO64) % Pow2(n) == 0
  {
    Pow2Words();
    Pow2Add(64 - n, n);
    HighPartArith(hi, Pow2(n), Pow2(64 - n), (hi * Pow2(n)) / TWO64, (hi * Pow2(n)) % TWO64);
  }

  lemma HighPartArith(hi: nat, p: nat, q: nat, t: int, u: int)
    requires p > 0 && q * p == TWO64
    requires hi * p == t * TWO64 + u
    ensures u % p == 0
  {
    MulAssoc(t, q, p);
    assert u == (hi - t * q) * p;
    DivModUnique(u, p, hi - t * q, 0);
  }

  lemma ShlNearArith(hi: nat, lo: nat, p: nat, k: nat, low: nat, t: int, u: nat)
    requires lo * p == k * TWO64 + low && low < TWO64
    requires hi * p == t * TWO64 + u && u + k < TWO64
    ensures (u + k) * TWO64 + low == ((hi * TWO64 + lo) * p) % TWO128
  {
    assert (hi * TWO64 + lo) * p == (hi * p) * TWO64 + lo * p;
    DivModUnique((hi * TWO64 + lo) * p, TWO128, t, (u + k) * TWO64 + low);
  }
}
