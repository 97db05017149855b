/** The FxHash64 walk that turns a username extension into a 64-bit value, and the
    time-windowed value of the ttl extension. */
module FxHash {
  import opened Words
  import opened Wrappers
  import opened Uint128

  function Xor(a: nat, b: nat): nat
    decreases a + b
  {
    if a == 0 then b else if b == 0 then a
    else 2 * Xor(a / 2, b / 2) + (if a % 2 != b % 2 then 1 else 0)
  }

  function Xor64(a: U64, b: U64): U64 {
    Pow2Words();
    XorBound(a, b, 64);
    Xor(a, b)
  }

  function Rotl5(x: U64): U64 {
    Or64(Shl64(x, 5), Shr64(x, 59))
  }

  function Times(x: U64): U64 {
    (x * 0x517cc1b727220a95) % TWO64
  }

  function Mix(hash: U64, n: U64): U64 {
    Times(Xor64(Rotl5(hash), n))
  }

  function ByteAt(b: Bytes, i: nat): Byte {
    if i < |b| then b[i] else 0
  }

  /** The bytes from position i on as little-endian digits of an eight-byte word. */
  function DigitsFrom(b: Bytes, i: nat): (w: nat)
    requires i <= 8
    decreases 8 - i
  {
    if i == 8 then 0 else ByteAt(b, i) + 256 * DigitsFrom(b, i + 1)
  }

  lemma {:induction false} DigitsBound(b: Bytes, i: nat)
    requires i <= 8
    ensures DigitsFrom(b, i) < Pow2(64 - 8 * i)
    decreases 8 - i
  {
    if i < 8 {
      DigitsBound(b, i + 1);
      Pow2Add(56 - 8 * i, 8);
      ByteIs256();
      hide Pow2;
      DigitBelow(ByteAt(b, i), DigitsFrom(b, i + 1), Pow2(56 - 8 * i));
    }
  }

  lemma DigitBelow(digit: nat, rest: nat, p: nat)
    requires digit < 256 && rest < p
    ensures digit + 256 * rest < p * 256
  {
  }

  /** The little-endian word of at most eight bytes. */
  function Word(b: Bytes): U64 {
    DigitsBound(b, 0);
    Pow2Words();
    DigitsFrom(b, 0)
  }

  /** The chunk sizes of the walk: eights, then at most one 4, one 2 and one 1. */
  function ChunkLen(n: nat): (k: nat)
    requires n > 0
    ensures 1 <= k <= 8 && k <= n
  {
    if n >= 8 then 8 else if n >= 4 then 4 else if n >= 2 then 2 else 1
  }

  function HashFrom(hash: U64, data: Bytes): U64
    decreases |data|
  {
    if data == [] then hash
    else
      var k := ChunkLen(|data|);
      HashFrom(Mix(hash, Word(data[..k])), data[k..])
  }

  method FxHash64(data: Bytes) returns (hash: U64)
    ensures hash == HashFrom(0, data)
  {
    hide Mix, Word;
    hash := 0;
    var i := 0;
    while i + 8 <= |data|
      invariant 0 <= i <= |data|
      invariant HashFrom(hash, data[i..]) == HashFrom(0, data)
    {
      hash := Mix(hash, Word(data[i..i + 8]));
      assert data[i..][..8] == data[i..i + 8] && data[i..][8..] == data[i + 8..];
      i := i + 8;
    }
    var rem := data[i..];
    if |rem| >= 4 {
      hash := Mix(hash, Word(rem[..4]));
      rem := rem[4..];
    }
    assert HashFrom(hash, rem) == HashFrom(0, data);
    if |rem| >= 2 {
      hash := Mix(hash, Word(rem[..2]));
      rem := rem[2..];
    }
    assert HashFrom(hash, rem) == HashFrom(0, data);
    if |rem| >= 1 {
      hash := Mix(hash, Word(rem[..1]));
      rem := rem[1..];
    }
    assert rem == [] && HashFrom(hash, rem) == HashFrom(0, data);
  }

  // ---- what a step computes ----

  lemma {:induction false} XorBits(a: nat, b: nat, p: nat)
    ensures Has(Xor(a, b), p) <==> Has(a, p) != Has(b, p)
    decreases p
  {
    XorUnfold(a, b);
    var x := Xor(a, b);
    assert x / 2 == Xor(a / 2, b / 2) && (x % 2 == 1 <==> a % 2 != b % 2);
    if p > 0 {
      XorBits(a / 2, b / 2, p - 1);
    }
  }

  /** A step in numbers: the state turned left by five bits, combined with the word bit by bit,
      times the constant modulo 2^64. */
  lemma MixValue(hash: U64, n: U64) returns (turned: nat, x: nat)
    ensures turned == (hash % 0x800_0000_0000_0000) * 32 + hash / 0x800_0000_0000_0000
    ensures forall p: nat :: Has(x, p) <==> Has(turned, p) != Has(n, p)
    ensures Mix(hash, n) == (x * 0x517cc1b727220a95) % 0x1_0000_0000_0000_0000
  {
    hide Has, Xor, Rotl5;
    RotlValue(hash);
    turned, x := Rotl5(hash), Xor(Rotl5(hash), n);
    forall p: nat
      ensures Has(x, p) <==> Has(turned, p) != Has(n, p)
    {
      XorBits(turned, n, p);
    }
  }

  /** The words of the four chunk sizes, least significant byte first. */
  lemma WordValue(b: Bytes)
    ensures |b| == 1 ==> Word(b) == b[0]
    ensures |b| == 2 ==> Word(b) == b[0] as int + 0x100 * (b[1] as int)
    ensures |b| == 4 ==>
              Word(b) == b[0] as int + 0x100 * (b[1] as int)
                         + 0x1_0000 * (b[2] as int) + 0x100_0000 * (b[3] as int)
    ensures |b| == 8 ==>
              Word(b) == b[0] as int + 0x100 * (b[1] as int)
                         + 0x1_0000 * (b[2] as int) + 0x100_0000 * (b[3] as int)
                         + 0x1_0000_0000 * (b[4] as int) + 0x100_0000_0000 * (b[5] as int)
                         + 0x1_0000_0000_0000 * (b[6] as int) + 0x100_0000_0000_0000 * (b[7] as int)
  {
    var d := seq(9, i requires 0 <= i <= 8 => DigitsFrom(b, i));
    assert d[8] == 0;
    assert d[7] == ByteAt(b, 7) + 256 * d[8] && d[6] == ByteAt(b, 6) + 256 * d[7];
    assert d[5] == ByteAt(b, 5) + 256 * d[6] && d[4] == ByteAt(b, 4) + 256 * d[5];
    assert d[3] == ByteAt(b, 3) + 256 * d[4] && d[2] == ByteAt(b, 2) + 256 * d[3];
    assert d[1] == ByteAt(b, 1) + 256 * d[2] && d[0] == ByteAt(b, 0) + 256 * d[1];
    assert Word(b) == d[0];
  }

  // ---- every step is a bijection ----

  lemma {:induction false} XorBound(a: nat, b: nat, n: nat)
    requires a < Pow2(n) && b < Pow2(n)
    ensures Xor(a, b) < Pow2(n)
  {
    if a != 0 && b != 0 {
      XorBound(a / 2, b / 2, n - 1);
    }
  }

  lemma XorUnfold(a: nat, b: nat)
    ensures Xor(a, b) == 2 * Xor(a / 2, b / 2) + (if a % 2 != b % 2 then 1 else 0)
  {
  }

  lemma {:induction false} XorCancel(a: nat, b: nat, n: nat)
    requires Xor(a, n) == Xor(b, n)
    ensures a == b
    decreases a + b + n
  {
    if a == 0 && b == 0 {
    } else {
      XorUnfold(a, n);
      XorUnfold(b, n);
      XorCancel(a / 2, b / 2, n / 2);
    }
  }

  lemma {:induction false} XorSymmetric(a: nat, b: nat)
    ensures Xor(a, b) == Xor(b, a)
    decreases a + b
  {
    if a != 0 && b != 0 {
      XorSymmetric(a / 2, b / 2);
    }
  }

  /** The odd multiplier has an inverse modulo 2^64. */
  lemma TimesInvertible(x: U64)
    ensures (Times(x) * 0x2040003d780970bd) % TWO64 == x
  {
    var product := x * 0x517cc1b727220a95;
    var c := (0x517cc1b727220a95 * 0x2040003d780970bd - 1) / TWO64;
    DivModUnique(Times(x) * 0x2040003d780970bd, TWO64, x * c - product / TWO64 * 0x2040003d780970bd, x);
  }

  lemma TimesInjective(x: U64, y: U64)
    requires Times(x) == Times(y)
    ensures x == y
  {
    hide Times;
    TimesInvertible(x);
    TimesInvertible(y);
  }

  /** The five top bits move to the bottom. */
  lemma RotlValue(x: U64)
    ensures Rotl5(x) == (x % 0x800_0000_0000_0000) * 32 + x / 0x800_0000_0000_0000
  {
    hide Or, Or64;
    var top := 0x800_0000_0000_0000;
    RotlPowers();
    DivModUnique(x * 32, TWO64, x / top, (x % top) * 32);
    RotlFields(Shl64(x, 5), Shr64(x, 59));
  }

  lemma RotlPowers()
    ensures Pow2(5) == 32 && Pow2(59) == 0x800_0000_0000_0000
  {
    Pow2Words();
    Pow2Add(5, 59);
  }

  lemma RotlFields(a: U64, b: U64)
    requires a % 32 == 0 && b < 32
    ensures Or64(a, b) == a + b
  {
    RotlPowers();
    OrDisjoint(a, b, 5);
  }

  lemma RotlInjective(x: U64, y: U64)
    requires Rotl5(x) == Rotl5(y)
    ensures x == y
  {
    hide Rotl5;
    RotlValue(x);
    RotlValue(y);
  }

  /** With the word fixed a step is injective in the state. */
  lemma MixInjectiveInState(g: U64, h: U64, n: U64)
    requires Mix(g, n) == Mix(h, n)
    ensures g == h
  {
    hide Times, Rotl5, Xor;
    TimesInjective(Xor64(Rotl5(g), n), Xor64(Rotl5(h), n));
    XorCancel(Rotl5(g), Rotl5(h), n);
    RotlInjective(g, h);
  }

  /** With the state fixed a step is injective in the word. */
  lemma MixInjectiveInWord(h: U64, m: U64, n: U64)
    requires Mix(h, m) == Mix(h, n)
    ensures m == n
  {
    hide Times, Rotl5, Xor;
    TimesInjective(Xor64(Rotl5(h), m), Xor64(Rotl5(h), n));
    XorSymmetric(Rotl5(h), m);
    XorSymmetric(Rotl5(h), n);
    XorCancel(m, n, Rotl5(h));
  }

  lemma {:induction false} DigitsInjective(x: Bytes, y: Bytes, i: nat, j: nat)
    requires i <= j < 8 && DigitsFrom(x, i) == DigitsFrom(y, i)
    ensures ByteAt(x, j) == ByteAt(y, j)
    decreases 8 - i
  {
    SameDigits(ByteAt(x, i), DigitsFrom(x, i + 1), ByteAt(y, i), DigitsFrom(y, i + 1));
    if i < j {
      hide DigitsFrom;
      DigitsInjective(x, y, i + 1, j);
    }
  }

  lemma SameDigits(a: nat, m: nat, b: nat, n: nat)
    requires a < 256 && b < 256 && a + 256 * m == b + 256 * n
    ensures a == b && m == n
  {
  }

  lemma WordInjective(x: Bytes, y: Bytes)
    requires |x| == |y| <= 8 && Word(x) == Word(y)
    ensures x == y
  {
    forall j | 0 <= j < |x|
      ensures x[j] == y[j]
    {
      DigitsInjective(x, y, 0, j);
    }
  }

  /** States that differ stay different over any remaining bytes. */
  lemma {:induction false} DifferentStatesStayDifferent(g: U64, h: U64, data: Bytes)
    requires g != h
    ensures HashFrom(g, data) != HashFrom(h, data)
    decreases |data|
  {
    hide Mix, Word;
    if data != [] {
      var k := ChunkLen(|data|);
      var n := Word(data[..k]);
      if Mix(g, n) == Mix(h, n) {
        MixInjectiveInState(g, h, n);
      }
      DifferentStatesStayDifferent(Mix(g, n), Mix(h, n), data[k..]);
    }
  }

  /** Equal lengths, and all differences lie inside one chunk of the walk. */
  predicate DifferInOneChunk(x: Bytes, y: Bytes)
    decreases |x|
  {
    && |x| == |y|
    && x != []
    && var k := ChunkLen(|x|);
       if x[..k] == y[..k] then DifferInOneChunk(x[k..], y[k..]) else x[k..] == y[k..]
  }

  /** Strings that differ inside a single chunk never collide. */
  lemma {:induction false} OneChunkNeverCollides(hash: U64, x: Bytes, y: Bytes)
    requires DifferInOneChunk(x, y)
    ensures HashFrom(hash, x) != HashFrom(hash, y)
    decreases |x|
  {
    hide Mix, Word;
    var k := ChunkLen(|x|);
    var m, n := Word(x[..k]), Word(y[..k]);
    if x[..k] == y[..k] {
      OneChunkNeverCollides(Mix(hash, m), x[k..], y[k..]);
    } else {
      if Mix(hash, m) == Mix(hash, n) {
        MixInjectiveInWord(hash, m, n);
        WordInjective(x[..k], y[..k]);
      }
      DifferentStatesStayDifferent(Mix(hash, m), Mix(hash, n), x[k..]);
    }
  }

  // ---- the ttl extension ----

  /** The last n bytes of a word, most significant first. */
  function BigEndian(w: nat, n: nat): (b: Bytes)
    ensures |b| == n
  {
    if n == 0 then [] else BigEndian(w / 256, n - 1) + [w % 256]
  }

  function WindowStart(now: U64, ttl: U64): (w: U64)
    requires ttl > 0
  {
    DivMod(now, ttl);
    MulMono(0, now / ttl, ttl);
    now - now % ttl
  }

  function TtlValue(ttl: U64, now: U64): U64
    requires ttl > 0
  {
    HashFrom(0, BigEndian(WindowStart(now, ttl), 8))
  }

  /** parseTTL, after the digits were parsed: no extension for a malformed or zero ttl. */
  method ParseTtl(parsed: Option<U64>, now: U64) returns (value: Option<U64>)
    ensures value == if parsed.Some? && parsed.value > 0 then Some(TtlValue(parsed.value, now)) else None
  {
    if parsed.None? || parsed.value == 0 {
      return None;
    }
    hide HashFrom, Shr64, Pow2;
    var window: U64 := WindowStart(now, parsed.value);
    var buf: Bytes := [];
    for i := 0 to 8
      invariant |buf| == i
      invariant buf == BigEndian(Shr64(window, 8 * (8 - i)), i)
    {
      ShiftByte(window, i);
      buf := buf + [Shr64(window, 8 * (7 - i)) % 256];
    }
    ShiftNone(window);
    var hash := FxHash64(buf);
    value := Some(hash);
  }

  lemma ShiftNone(w: U64)
    ensures Shr64(w, 0) == w
  {
  }

  lemma ShiftByte(w: U64, i: nat)
    requires i < 8
    ensures Shr64(w, 8 * (7 - i)) / 256 == Shr64(w, 8 * (8 - i))
  {
    Pow2Add(8 * (7 - i), 8);
    ByteIs256();
    DivDiv(w, Pow2(8 * (7 - i)), 256);
  }

  lemma ByteIs256()
    ensures Pow2(8) == 256
  {
  }

  lemma DivDiv(x: nat, p: nat, q: nat)
    requires p > 0 && q > 0
    ensures p * q > 0 && (x / p) / q == x / (p * q)
  {
    DivMod(x, p);
    DivMod(x / p, q);
    var a, b, c := x / p, (x / p) / q, (x / p) % q;
    DivDivArith(x, p, q, b, c, x % p);
  }

  lemma DivDivArith(x: nat, p: nat, q: nat, b: nat, c: nat, r: nat)
    requires p > 0 && q > 0 && x == (b * q + c) * p + r && c < q && r < p
    ensures p * q > 0 && x / (p * q) == b
  {
    assert (b * q + c) * p == b * (p * q) + c * p;
    MulMono(c + 1, q, p);
    assert (c + 1) * p == c * p + p;
    DivModUnique(x, p * q, b, c * p + r);
  }

  lemma {:induction false} BigEndianInjective(v: nat, w: nat, n: nat)
    requires v < Pow2(8 * n) && w < Pow2(8 * n) && BigEndian(v, n) == BigEndian(w, n)
    ensures v == w
  {
    if n > 0 {
      var a, b := BigEndian(v / 256, n - 1), BigEndian(w / 256, n - 1);
      assert (a + [v % 256])[n - 1] == v % 256 && (b + [w % 256])[n - 1] == w % 256;
      assert (a + [v % 256])[..n - 1] == a && (b + [w % 256])[..n - 1] == b;
      Pow2Add(8 * (n - 1), 8);
      ByteIs256();
      hide Pow2, BigEndian;
      HighDigits(v, Pow2(8 * (n - 1)));
      HighDigits(w, Pow2(8 * (n - 1)));
      BigEndianInjective(v / 256, w / 256, n - 1);
    }
  }

  lemma HighDigits(v: nat, p: nat)
    requires v < p * 256
    ensures v / 256 < p && v == 256 * (v / 256) + v % 256
  {
  }

  /** Two times give the same ttl value exactly when they lie in the same window. */
  lemma TtlValueIffSameWindow(ttl: U64, s: U64, t: U64)
    requires ttl > 0
    ensures TtlValue(ttl, s) == TtlValue(ttl, t) <==> s / ttl == t / ttl
  {
    hide BigEndian, HashFrom, Pow2;
    var v, w := WindowStart(s, ttl), WindowStart(t, ttl);
    WindowIffQuotient(s, t, ttl);
    var x, y := BigEndian(v, 8), BigEndian(w, 8);
    if v != w {
      Pow2Words();
      if x == y {
        BigEndianInjective(v, w, 8);
      }
      assert x[..8] == x && y[..8] == y && x[8..] == [] == y[8..];
      OneChunkNeverCollides(0, x, y);
    }
  }

  lemma WindowIffQuotient(s: nat, t: nat, ttl: nat)
    requires ttl > 0
    ensures s - s % ttl == t - t % ttl <==> s / ttl == t / ttl
  {
    DivMod(s, ttl);
    DivMod(t, ttl);
    if s - s % ttl == t - t % ttl {
      assert (s / ttl - t / ttl) * ttl == 0;
      MulBetween(s / ttl - t / ttl, ttl);
    }
  }
}
