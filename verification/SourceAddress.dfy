/** Choosing an outbound source address inside a configured CIDR block. Addresses are
    32- or 128-bit values; random words are parameters. */
module SourceAddress {
  import opened Wrappers
  import opened Words
  import opened Uint128
  import opened Modulo

  type U32 = x: nat | x < TWO32

  datatype Extension = NoExtension | Ttl(value: U64) | Range(value: U64) | Session(value: U64)

  datatype Cidr6 = Cidr6(addr: Uint128, bits: nat) {
    predicate Valid() { bits <= 128 }
  }

  datatype Cidr4 = Cidr4(addr: U32, bits: nat) {
    predicate Valid() { bits <= 32 }
  }

  /** The host bits of the block. */
  function HostBits(c: Cidr6): nat
    requires c.Valid()
  {
    128 - c.bits
  }

  predicate Contains(c: Cidr6, a: Uint128)
    requires c.Valid()
  {
    a.Val() / Pow2(HostBits(c)) == c.addr.Val() / Pow2(HostBits(c))
  }

  predicate Contains4(c: Cidr4, a: U32)
    requires c.Valid()
  {
    a / Pow2(32 - c.bits) == c.addr / Pow2(32 - c.bits)
  }

  /** The block's address with its host bits cleared. */
  function Masked(c: Cidr6): Uint128
    requires c.Valid()
  {
    AndU(c.addr, NotU(LowMask(HostBits(c))))
  }

  // ---- IPv6 ----

  function AssignRandom(c: Cidr6, random: Uint128): Uint128
    requires c.Valid()
  {
    var hostBits := HostBits(c);
    var netPart := AndU(Masked(c), NotU(LowMask(hostBits)));
    var hostPart := AndU(random, LowMask(hostBits));
    OrU(netPart, hostPart)
  }

  /** The modulus of a session address: 2^h - 1 for h host bits. */
  function Capacity(c: Cidr6): Uint128
    requires c.Valid()
  {
    SubU(ShiftedOne(HostBits(c)), ONE)
  }

  function AssignSession(c: Cidr6, value: U64): Uint128
    requires c.Valid()
  {
    if c.bits >= 128 then Masked(c)
    else
      var hostBits := HostBits(c);
      var subnetMask := NotU(LowMask(hostBits));
      if Capacity(c) == ZERO then Masked(c)
      else OrU(AndU(Masked(c), subnetMask), Mod(Uint128(0, value), Capacity(c)))
  }

  /** 128 - range in the source's unsigned arithmetic. */
  function RangeShift(range: nat): nat {
    (128 - range) % TWO64
  }

  /** The network bits of a range address. */
  function RangeNet(c: Cidr6): Uint128
    requires c.Valid()
  {
    AndU(Masked(c), NotU(SubU(ShiftedOne(HostBits(c)), ONE)))
  }

  /** The extension value, masked and moved between prefix and range. */
  function RangeMid(value: U64, width: nat, shift: nat): Uint128 {
    ShlU(AndU(Uint128(0, value), if width < 128 then SubU(ShiftedOne(width), ONE) else ZERO), shift)
  }

  /** The random bits below the range. */
  function RangeLow(random64: U64, shift: nat): Uint128 {
    AndU(Uint128(0, random64), SubU(ShiftedOne(shift), ONE))
  }

  function AssignRange(c: Cidr6, range: nat, value: U64, random: Uint128, random64: U64): Uint128
    requires c.Valid()
  {
    if range < c.bits then AssignRandom(c, random)
    else
      var fixed := OrU(RangeNet(c), RangeMid(value, range - c.bits, RangeShift(range)));
      OrU(fixed, RangeLow(random64, RangeShift(range)))
  }

  function Assign(c: Cidr6, range: Option<nat>, e: Extension, random: Uint128, random64: U64): Uint128
    requires c.Valid()
  {
    match e
    case Ttl(v) => AssignSession(c, v)
    case Session(v) => AssignSession(c, v)
    case Range(v) =>
      if range.Some? then AssignRange(c, range.value, v, random, random64) else AssignRandom(c, random)
    case NoExtension => AssignRandom(c, random)
  }

  // ---- fields of a value ----

  /** Joining a network part and a host part keeps both. */
  lemma JoinFields(net: nat, host: nat, n: nat)
    requires net % Pow2(n) == 0 && host < Pow2(n)
    ensures Or(net, host) == net + host
    ensures (net + host) / Pow2(n) == net / Pow2(n) && (net + host) % Pow2(n) == host
  {
    OrDisjoint(net, host, n);
    DivMod(net, Pow2(n));
    DivModUnique(net + host, Pow2(n), net / Pow2(n), host);
  }

  lemma ClearLow(x: nat, p: nat)
    requires p > 0
    ensures x - x % p >= 0
    ensures (x - x % p) / p == x / p && (x - x % p) % p == 0
  {
    DivMod(x, p);
    DivModUnique(x - x % p, p, x / p, 0);
  }

  /** Keeping the bits above n clears the n low bits. */
  lemma KeepHigh(x: Uint128, m: Uint128, n: nat)
    requires n <= 128 && m.Val() == Pow2(n) - 1
    ensures AndU(x, NotU(m)).Val() == x.Val() - x.Val() % Pow2(n)
  {
    hide AndU, And;
    Pow2Words();
    AndValue(x, NotU(m));
    AndHighMask(x.Val(), NotU(m).Val(), n, 128);
  }

  lemma KeepLow(x: Uint128, m: Uint128, n: nat)
    requires n <= 128 && m.Val() == Pow2(n) - 1
    ensures AndU(x, m).Val() == x.Val() % Pow2(n)
  {
    hide AndU, And;
    AndValue(x, m);
    AndMask(x.Val(), n);
  }

  /** 2^n - 1 computed by subtraction, including the wrap at n = 128. */
  lemma OnesValue(n: nat)
    requires n <= 128
    ensures SubU(ShiftedOne(n), ONE).Val() == Pow2(n) - 1
  {
    hide SubU, ShiftedOne, Pow2;
    ShiftedOneValue(n);
    SubValue(ShiftedOne(n), ONE);
    if n < 128 {
      Pow2AtMost(n);
      SmallMod(Pow2(n) - 1, TWO128);
    } else {
      Pow2Words();
    }
  }

  lemma Pow2AtMost(n: nat)
    requires n < 128
    ensures Pow2(n) < TWO128
  {
    Pow2Words();
    Pow2Mono(n, 128);
  }

  lemma MaskValue(n: nat)
    requires n <= 128
    ensures LowMask(n).Val() == Pow2(n) - 1
  {
    LowMaskValue(n);
  }

  /** The network part of the block, however its host bits were masked. */
  lemma NetworkPart(c: Cidr6, m: Uint128)
    requires c.Valid() && m.Val() == Pow2(HostBits(c)) - 1
    ensures AndU(Masked(c), NotU(m)).Val() == c.addr.Val() - c.addr.Val() % Pow2(HostBits(c))
    ensures Masked(c).Val() == c.addr.Val() - c.addr.Val() % Pow2(HostBits(c))
  {
    hide AndU, NotU, LowMask;
    MaskValue(HostBits(c));
    KeepHigh(c.addr, LowMask(HostBits(c)), HostBits(c));
    ClearLow(c.addr.Val(), Pow2(HostBits(c)));
    KeepHigh(Masked(c), m, HostBits(c));
  }

  /** A network part joined with any host part stays inside the block. */
  lemma JoinInBlock(c: Cidr6, net: Uint128, host: Uint128)
    requires c.Valid() && host.Val() < Pow2(HostBits(c))
    requires net.Val() == c.addr.Val() - c.addr.Val() % Pow2(HostBits(c))
    ensures Contains(c, OrU(net, host))
    ensures OrU(net, host).Val() % Pow2(HostBits(c)) == host.Val()
  {
    hide OrU, Or;
    OrValue(net, host);
    ClearLow(c.addr.Val(), Pow2(HostBits(c)));
    JoinFields(net.Val(), host.Val(), HostBits(c));
  }

  // ---- what every choice guarantees ----

  lemma RandomInBlock(c: Cidr6, random: Uint128)
    requires c.Valid()
    ensures Contains(c, AssignRandom(c, random))
    ensures AssignRandom(c, random).Val() % Pow2(HostBits(c)) == random.Val() % Pow2(HostBits(c))
  {
    hide AndU, OrU, NotU, LowMask, Contains, Masked;
    var m := LowMask(HostBits(c));
    MaskValue(HostBits(c));
    NetworkPart(c, m);
    KeepLow(random, m, HostBits(c));
    ModBelow(random.Val(), Pow2(HostBits(c)));
    JoinInBlock(c, AndU(Masked(c), NotU(m)), AndU(random, m));
  }

  lemma ModBelow(x: nat, p: nat)
    requires p > 0
    ensures 0 <= x % p < p
  {
  }

  /** A session or TTL address keeps the block's top bits for every prefix length and
      every 64-bit value, and with a host bit to spare its host part is never all ones. */
  lemma SessionInBlock(c: Cidr6, value: U64)
    requires c.Valid()
    ensures Contains(c, AssignSession(c, value))
    ensures c.bits < 128 ==> AssignSession(c, value).Val() % Pow2(HostBits(c)) < Pow2(HostBits(c)) - 1
    ensures 64 <= c.bits < 128 ==>
              && Pow2(HostBits(c)) - 1 > 0
              && AssignSession(c, value).Val() % Pow2(HostBits(c)) == value % (Pow2(HostBits(c)) - 1)
    ensures c.bits < 128 ==>
              AssignSession(c, value).Val() % Pow2(HostBits(c)) == Mod(Uint128(0, value), Capacity(c)).Val()
    ensures c.bits < 128 ==> Capacity(c).Val() == Pow2(HostBits(c)) - 1
    ensures c.bits == 128 ==> AssignSession(c, value) == Masked(c)
  {
    hide AndU, OrU, NotU, LowMask, Masked, SubU, ShiftedOne, Mod, Contains;
    var h := HostBits(c);
    MaskValue(h);
    NetworkPart(c, LowMask(h));
    if c.bits >= 128 {
      MaskedInBlock(c);
    } else {
      OnesValue(h);
      Pow2Mono(0, h);
      var capacity := SubU(ShiftedOne(h), ONE);
      ModInRange(Uint128(0, value), capacity, h);
      CapacityLimbs(capacity, h);
      if h <= 64 {
        FastPathIsRemainder(Uint128(0, value), capacity);
      }
      JoinInBlock(c, AndU(Masked(c), NotU(LowMask(h))), Mod(Uint128(0, value), capacity));
    }
  }

  lemma MaskedInBlock(c: Cidr6)
    requires c.Valid()
    ensures Contains(c, Masked(c))
  {
    MaskValue(HostBits(c));
    NetworkPart(c, LowMask(HostBits(c)));
    ClearLow(c.addr.Val(), Pow2(HostBits(c)));
  }

  // ---- range addresses ----

  /** A value assembled from three adjacent fields gives each field back. */
  lemma ThreeFields(x: nat, net: nat, mid: nat, low: nat, d: nat, s: nat)
    requires mid < d && low < s && x == net * (d * s) + mid * s + low
    ensures x / s == net * d + mid && x % s == low
    ensures (net * d + mid) % d == mid
    ensures d * s > 0 && x / (d * s) == net
  {
    UpperFields(x, net, mid, low, d, s);
    DivModUnique(net * d + mid, d, net, mid);
    MulMono(mid + 1, d, s);
    LowerFields(mid, low, s);
    DivModUnique(x, d * s, net, mid * s + low);
  }

  lemma LowerFields(mid: nat, low: nat, s: nat)
    requires low < s
    ensures 0 <= mid * s + low < (mid + 1) * s
  {
  }

  lemma UpperFields(x: nat, net: nat, mid: nat, low: nat, d: nat, s: nat)
    requires low < s && x == net * (d * s) + mid * s + low
    ensures x / s == net * d + mid && x % s == low
  {
    MulAssoc(net, d, s);
    assert (net * d + mid) * s == (net * d) * s + mid * s;
    DivModUnique(x, s, net * d + mid, low);
  }

  /** A value that fits is moved up without loss. */
  lemma ShlFits(a: Uint128, m: nat, shift: nat)
    requires a.Val() == m && Scaled(m, shift) < TWO128
    ensures ShlU(a, shift).Val() == Scaled(m, shift)
  {
    ShlValue(a, shift);
    hide ShlU, Pow2;
    SmallMod(Scaled(m, shift), TWO128);
  }

  /** The extension value, cut to the bits between prefix and range, in place. */
  lemma MiddlePart(value: U64, m: Uint128, width: nat, shift: nat)
    requires width + shift <= 128 && m.Val() == Pow2(width) - 1
    ensures ShlU(AndU(Uint128(0, value), m), shift).Val() == Scaled(value % Pow2(width), shift)
    ensures Scaled(value % Pow2(width), shift) < Pow2(width + shift)
  {
    hide AndU, ShlU, And, Pow2;
    KeepLow(Uint128(0, value), m, width);
    ModBelow(value, Pow2(width));
    FitsField(value % Pow2(width), width, shift);
    ShlFits(AndU(Uint128(0, value), m), value % Pow2(width), shift);
  }

  lemma FitsField(mid: nat, width: nat, shift: nat)
    requires mid < Pow2(width) && width + shift <= 128
    ensures Scaled(mid, shift) < Pow2(width + shift) <= TWO128
  {
    Pow2Add(width, shift);
    MulMono(mid + 1, Pow2(width), Pow2(shift));
    assert (mid + 1) * Pow2(shift) == mid * Pow2(shift) + Pow2(shift);
    PowersUpTo128(width + shift);
  }

  /** Adjacent fields, read back with the powers as plain numbers. */
  lemma FieldsOf(a: nat, addr: nat, m: nat, low: nat, h: nat, d: nat, s: nat)
    requires h == d * s && h > 0 && m < d && low < s
    requires a == (addr / h) * h + m * s + low
    ensures a / h == addr / h && a % s == low && (a / s) % d == m
  {
    DivMod(addr, h);
    ThreeFields(a, addr / h, m, low, d, s);
  }

  lemma JoinThreeValue(net: nat, n: nat, low: nat, m: nat, h: nat, shift: nat, d: nat)
    requires Pow2(h) == d * Pow2(shift) && net == n * Pow2(h) && m < d && m * Pow2(shift) < Pow2(h)
    requires low < Pow2(shift)
    ensures Or(Or(net, m * Pow2(shift)), low) == net + m * Pow2(shift) + low
  {
    hide Or, Pow2;
    MultipleMod(n, Pow2(h));
    JoinFields(net, m * Pow2(shift), h);
    JoinThreeArith(net + m * Pow2(shift), n, m, d, Pow2(shift));
    JoinFields(net + m * Pow2(shift), low, shift);
  }

  /** Network, value and random fields joined in the order the source joins them. */
  lemma JoinThree(addr: nat, net: nat, mid: nat, low: nat, m: nat, width: nat, shift: nat)
    requires net == addr - addr % Pow2(width + shift)
    requires m < Pow2(width) && mid == Scaled(m, shift) && mid < Pow2(width + shift) && low < Pow2(shift)
    ensures var a := Or(Or(net, mid), low);
            && a / Pow2(width + shift) == addr / Pow2(width + shift)
            && a % Pow2(shift) == low
            && (a / Pow2(shift)) % Pow2(width) == m
  {
    hide Or, Pow2;
    var h := width + shift;
    DivMod(addr, Pow2(h));
    Pow2Add(width, shift);
    JoinThreeValue(net, addr / Pow2(h), low, m, h, shift, Pow2(width));
    FieldsOf(Or(Or(net, mid), low), addr, m, low, Pow2(h), Pow2(width), Pow2(shift));
  }

  lemma JoinThreeArith(x: nat, n: nat, m: nat, d: nat, s: nat)
    requires s > 0 && x == n * (d * s) + m * s
    ensures x % s == 0
  {
    assert x == (n * d + m) * s;
    DivModUnique(x, s, n * d + m, 0);
  }

  /** The value's field before it is shifted; a width of 128 masks everything away. */
  function RangeField(value: U64, width: nat): nat {
    if width < 128 then value % Pow2(width) else 0
  }

  lemma RangeMiddle(value: U64, width: nat, shift: nat)
    requires width + shift <= 128
    ensures var maskBits := if width < 128 then SubU(ShiftedOne(width), ONE) else ZERO;
            ShlU(AndU(Uint128(0, value), maskBits), shift).Val() == Scaled(RangeField(value, width), shift)
    ensures RangeField(value, width) < Pow2(width)
    ensures Scaled(RangeField(value, width), shift) < Pow2(width + shift)
  {
    hide AndU, ShlU, SubU, ShiftedOne, Pow2;
    if width < 128 {
      OnesValue(width);
      MiddlePart(value, SubU(ShiftedOne(width), ONE), width, shift);
      ModBelow(value, Pow2(width));
    } else {
      LostMiddle(value, shift);
      Pow2Mono(0, width);
      FitsField(0, width, shift);
    }
  }

  lemma OrThree(x: Uint128, y: Uint128, z: Uint128)
    ensures OrU(OrU(x, y), z).Val() == Or(Or(x.Val(), y.Val()), z.Val())
  {
    hide OrU, Or;
    OrValue(x, y);
    OrValue(OrU(x, y), z);
  }

  lemma HostPart(random64: U64, shift: nat)
    requires shift <= 128
    ensures AndU(Uint128(0, random64), SubU(ShiftedOne(shift), ONE)).Val() == random64 % Pow2(shift)
  {
    hide AndU, SubU, ShiftedOne, Pow2;
    OnesValue(shift);
    KeepLow(Uint128(0, random64), SubU(ShiftedOne(shift), ONE), shift);
  }

  lemma RangeShape(c: Cidr6, range: nat, value: U64, random: Uint128, random64: U64)
    requires c.Valid() && c.bits <= range <= 128
    ensures AssignRange(c, range, value, random, random64)
         == OrU(OrU(RangeNet(c), RangeMid(value, range - c.bits, 128 - range)), RangeLow(random64, 128 - range))
  {
    hide RangeNet, RangeMid, RangeLow, OrU;
    SmallMod(128 - range, TWO64);
  }

  /** A range address is the join of its three fields. */
  lemma RangeParts(c: Cidr6, range: nat, value: U64, random: Uint128, random64: U64)
    requires c.Valid() && c.bits <= range <= 128
    ensures AssignRange(c, range, value, random, random64).Val()
         == Or(Or(Masked(c).Val(), Scaled(RangeField(value, range - c.bits), 128 - range)), random64 % Pow2(128 - range))
  {
    hide AssignRange, OrU, Or, Pow2, RangeField, Masked, Scaled;
    var width, shift := range - c.bits, 128 - range;
    var net, mid, low := RangeNet(c), RangeMid(value, width, shift), RangeLow(random64, shift);
    RangeShape(c, range, value, random, random64);
    OrThree(net, mid, low);
    assert net.Val() == Masked(c).Val() by {
      hide AndU, NotU, SubU, ShiftedOne;
      OnesValue(HostBits(c));
      NetworkPart(c, SubU(ShiftedOne(HostBits(c)), ONE));
    }
    assert mid.Val() == Scaled(RangeField(value, width), shift) by {
      hide AndU, ShlU, SubU, ShiftedOne;
      RangeMiddle(value, width, shift);
    }
    assert low.Val() == random64 % Pow2(shift) by {
      hide AndU, SubU, ShiftedOne;
      HostPart(random64, shift);
    }
    hide RangeNet, RangeMid, RangeLow;
  }

  /** A range address lies in the block; below the range it is random, and the bits
      between prefix and range are the low bits of the value, except that a prefix of 0
      with a range of 128 loses the value. */
  lemma RangeFields(c: Cidr6, range: nat, value: U64, random: Uint128, random64: U64)
    requires c.Valid() && c.bits <= range <= 128
    ensures var a := AssignRange(c, range, value, random, random64).Val();
            && Contains(c, AssignRange(c, range, value, random, random64))
            && a % Pow2(128 - range) == random64 % Pow2(128 - range)
            && (a / Pow2(128 - range)) % Pow2(range - c.bits)
               == if range - c.bits < 128 then value % Pow2(range - c.bits) else 0
  {
    hide AssignRange, Or, Pow2, Masked;
    var width, shift := range - c.bits, 128 - range;
    RangeParts(c, range, value, random, random64);
    RangeMiddle(value, width, shift);
    ModBelow(random64, Pow2(shift));
    OnesValue(HostBits(c));
    NetworkPart(c, SubU(ShiftedOne(HostBits(c)), ONE));
    JoinThree(c.addr.Val(), Masked(c).Val(), Scaled(RangeField(value, width), shift),
              random64 % Pow2(shift), RangeField(value, width), width, shift);
  }

  lemma LostMiddle(value: U64, shift: nat)
    ensures ShlU(AndU(Uint128(0, value), ZERO), shift).Val() == 0
  {
    hide And, ShlU, Pow2;
    AndBound(0, 0);
    AndBound(value, 0);
    ShlValue(ZERO, shift);
  }

  /** The value's bits survive exactly outside the one configuration that drops them. */
  lemma RangeKeepsValueIff(c: Cidr6, range: nat, value: U64, random: Uint128, random64: U64)
    requires c.Valid() && c.bits <= range <= 128
    ensures (AssignRange(c, range, value, random, random64).Val() / Pow2(128 - range)) % Pow2(range - c.bits)
            == value % Pow2(range - c.bits)
       <==> !(c.bits == 0 && range == 128 && value != 0)
  {
    hide AssignRange, Pow2;
    RangeFields(c, range, value, random, random64);
    if range - c.bits == 128 {
      Pow2Words();
    }
  }

  /** A session or ttl value alone decides the address: neither the range nor the random words
      nor which of the two it is make a difference. */
  lemma SessionPolicy(c: Cidr6, range: Option<nat>, v: U64, random: Uint128, random64: U64,
                      range': Option<nat>, random': Uint128, random64': U64)
    requires c.Valid()
    ensures Assign(c, range, Session(v), random, random64) == Assign(c, range', Ttl(v), random', random64')
    ensures Assign(c, range, Session(v), random, random64) == Assign(c, range', Session(v), random', random64')
    ensures Contains(c, Assign(c, range, Session(v), random, random64))
    ensures c.bits == 128 ==> Assign(c, range, Session(v), random, random64) == c.addr
    ensures 64 <= c.bits < 128 ==>
              && Pow2(HostBits(c)) - 1 > 0
              && Assign(c, range, Session(v), random, random64).Val() % Pow2(HostBits(c)) == v % (Pow2(HostBits(c)) - 1)
  {
    SessionInBlock(c, v);
    if c.bits == 128 {
      WholeAddress(c, AssignSession(c, v));
    }
    hide AssignSession;
  }

  /** With no host bits the block is one address. */
  lemma WholeAddress(c: Cidr6, a: Uint128)
    requires c.Valid() && c.bits == 128 && Contains(c, a)
    ensures a == c.addr
  {
    ValInjective(a, c.addr);
  }

  /** A range value lands between prefix and range, in front of random bits; the one
      configuration that leaves no room for a mask loses it. */
  lemma RangePolicy(c: Cidr6, range: nat, v: U64, random: Uint128, random64: U64)
    requires c.Valid() && c.bits <= range <= 128
    ensures var a := Assign(c, Some(range), Range(v), random, random64);
            && Contains(c, a)
            && a.Val() % Pow2(128 - range) == random64 % Pow2(128 - range)
            && ((a.Val() / Pow2(128 - range)) % Pow2(range - c.bits) == v % Pow2(range - c.bits)
                <==> !(c.bits == 0 && range == 128 && v != 0))
  {
    hide AssignRange, Contains, Pow2;
    RangeFields(c, range, v, random, random64);
    RangeKeepsValueIff(c, range, v, random, random64);
  }

  /** Without an extension, without a range for a range value, or with a range shorter than the
      prefix, the host part is random. */
  lemma RandomPolicy(c: Cidr6, range: Option<nat>, e: Extension, random: Uint128, random64: U64)
    requires c.Valid()
    requires e.NoExtension? || (e.Range? && (range.None? || range.value < c.bits))
    ensures var a := Assign(c, range, e, random, random64);
            Contains(c, a) && a.Val() % Pow2(HostBits(c)) == random.Val() % Pow2(HostBits(c))
  {
    hide AssignRandom, Contains, Pow2;
    RandomInBlock(c, random);
  }

  /** Every policy picks an address inside the block. */
  lemma AssignInBlock(c: Cidr6, range: Option<nat>, e: Extension, random: Uint128, random64: U64)
    requires c.Valid()
    requires range.Some? ==> range.value <= 128
    ensures Contains(c, Assign(c, range, e, random, random64))
  {
    hide AssignSession, AssignRandom, Contains, RangeNet, RangeMid, RangeLow;
    RandomInBlock(c, random);
    match e {
      case Ttl(v) => SessionInBlock(c, v);
      case Session(v) => SessionInBlock(c, v);
      case Range(v) =>
        if range.Some? && c.bits <= range.value {
          RangeFields(c, range.value, v, random, random64);
        }
      case NoExtension =>
    }
  }

  // ---- IPv4 ----

  function Shl32(a: U32, n: nat): U32 {
    (a * Pow2(n)) % TWO32
  }

  function Shr32(a: U32, n: nat): U32 {
    DivShrinks(a, Pow2(n));
    a / Pow2(n)
  }

  function Sub32(a: U32, b: U32): U32 {
    (a - b) % TWO32
  }

  function And32(a: U32, b: U32): U32 {
    AndBound(a, b);
    And(a, b)
  }

  function Or32(a: U32, b: U32): U32 {
    Pow2Words();
    OrBound(a, b, 32);
    Or(a, b)
  }

  /** The block's address with its host bits cleared. */
  function Masked4(c: Cidr4): U32
    requires c.Valid()
  {
    And32(c.addr, Shl32(TWO32 - 1, 32 - c.bits))
  }

  function AssignSession4(c: Cidr4, value: U64): U32
    requires c.Valid()
  {
    if c.bits >= 32 then Masked4(c)
    else
      var subnetMask := Shl32(TWO32 - 1, 32 - c.bits);
      var base := And32(Masked4(c), subnetMask);
      var capacity := Sub32(Shl32(1, 32 - c.bits), 1);
      if capacity == 0 then Masked4(c) else Or32(base, (value % TWO32) % capacity)
  }

  function AssignRandom4(c: Cidr4, random: U32): U32
    requires c.Valid()
  {
    var netPart := Shl32(Shr32(Masked4(c), 32 - c.bits), 32 - c.bits);
    var hostPart := Shr32(Shl32(random, c.bits), c.bits);
    Or32(netPart, hostPart)
  }

  function AssignRange4(c: Cidr4, range: nat, value: U32, random: U32): U32
    requires c.Valid() && range <= 32
  {
    if range < c.bits then AssignRandom4(c, random)
    else
      var shifted := Shl32(And32(value, Sub32(Shl32(1, range - c.bits), 1)), 32 - range);
      var subnetMask := Shl32(TWO32 - 1, 32 - c.bits);
      var fixed := Or32(And32(Masked4(c), subnetMask), shifted);
      var hostMask := Sub32(Shl32(1, 32 - range), 1);
      Or32(fixed, And32(random, hostMask))
  }

  function Assign4(c: Cidr4, range: Option<nat>, e: Extension, random: U32): U32
    requires c.Valid()
    requires range.Some? ==> range.value <= 32
  {
    match e
    case Ttl(v) => AssignSession4(c, v)
    case Session(v) => AssignSession4(c, v)
    case Range(v) =>
      if range.Some? then AssignRange4(c, range.value, v % TWO32, random) else AssignRandom4(c, random)
    case NoExtension => AssignRandom4(c, random)
  }

  lemma Pow2Below32(n: nat)
    requires n <= 32
    ensures Pow2(n) <= TWO32 && (n < 32 ==> Pow2(n) < TWO32)
  {
    Pow2Words();
    if n < 32 {
      Pow2Mono(n, 32);
    }
  }

  /** 2^n - 1 in 32 bits, including the wrap at n = 32. */
  lemma Ones4(n: nat)
    requires n <= 32
    ensures Sub32(Shl32(1, n), 1) == Pow2(n) - 1
  {
    hide Pow2;
    Pow2Below32(n);
    Pow2Words();
    if n < 32 {
      SmallMod(Pow2(n), TWO32);
    }
  }

  /** All ones shifted left by n is the mask of the bits above n. */
  lemma SubnetMask4(n: nat)
    requires n <= 32
    ensures Shl32(TWO32 - 1, n) + Pow2(n) == TWO32
  {
    hide Pow2;
    Pow2Below32(n);
    MulSubOne(TWO32, Pow2(n));
    DivModUnique((TWO32 - 1) * Pow2(n), TWO32, Pow2(n) - 1, TWO32 - Pow2(n));
  }

  lemma KeepHigh4(x: U32, n: nat)
    requires n <= 32
    ensures And32(x, Shl32(TWO32 - 1, n)) == x - x % Pow2(n)
  {
    hide And, Shl32, Pow2;
    SubnetMask4(n);
    Pow2Words();
    AndHighMask(x, Shl32(TWO32 - 1, n), n, 32);
  }

  lemma NetworkPart4(c: Cidr4)
    requires c.Valid()
    ensures Masked4(c) == c.addr - c.addr % Pow2(32 - c.bits)
    ensures And32(Masked4(c), Shl32(TWO32 - 1, 32 - c.bits)) == Masked4(c)
    ensures Contains4(c, Masked4(c))
    ensures Masked4(c) % Pow2(32 - c.bits) == 0
  {
    hide And32, Shl32, Pow2;
    var h := 32 - c.bits;
    KeepHigh4(c.addr, h);
    ClearLow(c.addr, Pow2(h));
    KeepHigh4(Masked4(c), h);
  }

  lemma JoinInBlock4(c: Cidr4, host: U32)
    requires c.Valid() && host < Pow2(32 - c.bits)
    ensures Contains4(c, Or32(Masked4(c), host))
    ensures Or32(Masked4(c), host) % Pow2(32 - c.bits) == host
  {
    hide Or, Masked4, Pow2;
    NetworkPart4(c);
    JoinFields(Masked4(c), host, 32 - c.bits);
  }

  /** IPv4 session and TTL addresses: inside the block, host part the value's low word
      modulo 2^h - 1 and so never all ones. */
  lemma SessionInBlock4(c: Cidr4, value: U64)
    requires c.Valid()
    ensures Contains4(c, AssignSession4(c, value))
    ensures c.bits < 32 ==>
              && Pow2(32 - c.bits) - 1 > 0
              && AssignSession4(c, value) % Pow2(32 - c.bits) == (value % TWO32) % (Pow2(32 - c.bits) - 1)
  {
    hide And32, Or32, Masked4, Shl32, Sub32, Contains4, Pow2;
    NetworkPart4(c);
    if c.bits < 32 {
      var h := 32 - c.bits;
      Ones4(h);
      Pow2Mono(0, h);
      SmallPowers();
      ModBelow(value % TWO32, Pow2(h) - 1);
      JoinInBlock4(c, (value % TWO32) % (Pow2(h) - 1));
    }
  }

  /** Shifting down and up again clears the low bits. */
  lemma ShiftDownUp(x: U32, n: nat)
    requires n <= 32
    ensures Shl32(Shr32(x, n), n) == x - x % Pow2(n)
  {
    hide Pow2;
    DivMod(x, Pow2(n));
    SmallMod((x / Pow2(n)) * Pow2(n), TWO32);
  }

  /** Shifting up and down again clears the high bits. */
  lemma ShiftUpDown(x: U32, n: nat)
    requires n <= 32
    ensures Shr32(Shl32(x, n), n) == x % Pow2(32 - n)
  {
    hide Pow2;
    Pow2Words();
    Pow2Add(32 - n, n);
    DivMod(x, Pow2(32 - n));
    ShiftUpDownArith(x, Pow2(n), Pow2(32 - n), x / Pow2(32 - n), x % Pow2(32 - n));
  }

  lemma ShiftUpDownArith(x: nat, p: nat, q: nat, k: nat, s: nat)
    requires q * p == TWO32 && p > 0 && x == k * q + s && s < q
    ensures ((x * p) % TWO32) / p == s
  {
    assert x * p == (k * q) * p + s * p;
    MulAssoc(k, q, p);
    MulMono(s + 1, q, p);
    LowerFields(s, 0, p);
    DivModUnique(x * p, TWO32, k, s * p);
    DivModUnique(s * p, p, s, 0);
  }

  lemma RandomInBlock4(c: Cidr4, random: U32)
    requires c.Valid()
    ensures Contains4(c, AssignRandom4(c, random))
    ensures AssignRandom4(c, random) % Pow2(32 - c.bits) == random % Pow2(32 - c.bits)
  {
    hide Or32, Masked4, Shl32, Shr32, Contains4, Pow2;
    NetworkPart4(c);
    ShiftDownUp(Masked4(c), 32 - c.bits);
    ShiftUpDown(random, c.bits);
    ModBelow(random, Pow2(32 - c.bits));
    JoinInBlock4(c, Shr32(Shl32(random, c.bits), c.bits));
  }

  lemma MiddlePart4(value: U32, width: nat, shift: nat)
    requires width + shift <= 32
    ensures Shl32(And32(value, Sub32(Shl32(1, width), 1)), shift) == Scaled(value % Pow2(width), shift)
    ensures 0 <= value % Pow2(width) < Pow2(width)
    ensures Scaled(value % Pow2(width), shift) < Pow2(width + shift)
  {
    hide And, Pow2, Sub32;
    Ones4(width);
    AndMask(value, width);
    ModBelow(value, Pow2(width));
    FitsField(value % Pow2(width), width, shift);
    Pow2Below32(width + shift);
    SmallMod((value % Pow2(width)) * Pow2(shift), TWO32);
  }

  lemma RangeShape4(c: Cidr4, range: nat, value: U32, random: U32)
    requires c.Valid() && c.bits <= range <= 32
    ensures AssignRange4(c, range, value, random)
         == Or(Or(And32(Masked4(c), Shl32(TWO32 - 1, 32 - c.bits)),
                  Shl32(And32(value, Sub32(Shl32(1, range - c.bits), 1)), 32 - range)),
               And32(random, Sub32(Shl32(1, 32 - range), 1)))
  {
    hide Masked4, Shl32, Sub32, And32, Or;
  }

  lemma LowPart4(random: U32, shift: nat)
    requires shift <= 32
    ensures And32(random, Sub32(Shl32(1, shift), 1)) == random % Pow2(shift)
  {
    hide And, Shl32, Sub32, Pow2;
    Ones4(shift);
    AndMask(random, shift);
  }

  lemma RangeParts4(c: Cidr4, range: nat, value: U32, random: U32)
    requires c.Valid() && c.bits <= range <= 32
    ensures AssignRange4(c, range, value, random)
         == Or(Or(Masked4(c), Scaled(value % Pow2(range - c.bits), 32 - range)), random % Pow2(32 - range))
    ensures Scaled(value % Pow2(range - c.bits), 32 - range) < Pow2(32 - c.bits)
  {
    var width, shift := range - c.bits, 32 - range;
    var net := And32(Masked4(c), Shl32(TWO32 - 1, 32 - c.bits));
    var mid := Shl32(And32(value, Sub32(Shl32(1, width), 1)), shift);
    var low := And32(random, Sub32(Shl32(1, shift), 1));
    hide AssignRange4, Or, Masked4, Pow2, And32, Shl32, Sub32;
    RangeShape4(c, range, value, random);
    NetworkPart4(c);
    MiddlePart4(value, width, shift);
    LowPart4(random, shift);
  }

  /** IPv4 range addresses: block prefix, then the value's low bits, then random bits. */
  lemma RangeFields4(c: Cidr4, range: nat, value: U32, random: U32)
    requires c.Valid() && c.bits <= range <= 32
    ensures var a := AssignRange4(c, range, value, random);
            && Contains4(c, a)
            && a % Pow2(32 - range) == random % Pow2(32 - range)
            && (a / Pow2(32 - range)) % Pow2(range - c.bits) == value % Pow2(range - c.bits)
  {
    hide AssignRange4, Or, Masked4, Pow2, Scaled;
    var width, shift := range - c.bits, 32 - range;
    RangeParts4(c, range, value, random);
    NetworkPart4(c);
    ModBelow(value, Pow2(width));
    ModBelow(random, Pow2(shift));
    JoinThree(c.addr, Masked4(c), Scaled(value % Pow2(width), shift), random % Pow2(shift),
              value % Pow2(width), width, shift);
  }

  lemma AssignInBlock4(c: Cidr4, range: Option<nat>, e: Extension, random: U32)
    requires c.Valid()
    requires range.Some? ==> range.value <= 32
    ensures Contains4(c, Assign4(c, range, e, random))
  {
    hide AssignSession4, AssignRandom4, Contains4, Or32, And32, Shl32, Sub32, Masked4;
    RandomInBlock4(c, random);
    match e {
      case Ttl(v) => SessionInBlock4(c, v);
      case Session(v) => SessionInBlock4(c, v);
      case Range(v) =>
        if range.Some? && c.bits <= range.value {
          RangeFields4(c, range.value, v % TWO32, random);
        }
      case NoExtension =>
    }
  }

  /** IPv4, as in SessionPolicy; only the low word of the value counts. */
  lemma SessionPolicy4(c: Cidr4, range: Option<nat>, v: U64, random: U32, range': Option<nat>, random': U32)
    requires c.Valid()
    requires (range.Some? ==> range.value <= 32) && (range'.Some? ==> range'.value <= 32)
    ensures Assign4(c, range, Session(v), random) == Assign4(c, range', Ttl(v), random')
    ensures Assign4(c, range, Session(v), random) == Assign4(c, range', Session(v), random')
    ensures Contains4(c, Assign4(c, range, Session(v), random))
    ensures c.bits == 32 ==> Assign4(c, range, Session(v), random) == c.addr
    ensures c.bits < 32 ==>
              && Pow2(32 - c.bits) - 1 > 0
              && Assign4(c, range, Session(v), random) % Pow2(32 - c.bits) == (v % TWO32) % (Pow2(32 - c.bits) - 1)
  {
    SessionInBlock4(c, v);
    hide AssignSession4;
  }

  lemma RangePolicy4(c: Cidr4, range: nat, v: U64, random: U32)
    requires c.Valid() && c.bits <= range <= 32
    ensures var a := Assign4(c, Some(range), Range(v), random);
            && Contains4(c, a)
            && a % Pow2(32 - range) == random % Pow2(32 - range)
            && (a / Pow2(32 - range)) % Pow2(range - c.bits) == (v % TWO32) % Pow2(range - c.bits)
  {
    hide AssignRange4, Contains4, Pow2;
    RangeFields4(c, range, v % TWO32, random);
  }

  lemma RandomPolicy4(c: Cidr4, range: Option<nat>, e: Extension, random: U32)
    requires c.Valid() && (range.Some? ==> range.value <= 32)
    requires e.NoExtension? || (e.Range? && (range.None? || range.value < c.bits))
    ensures var a := Assign4(c, range, e, random);
            Contains4(c, a) && a % Pow2(32 - c.bits) == random % Pow2(32 - c.bits)
  {
    hide AssignRandom4, Contains4, Pow2;
    RandomInBlock4(c, random);
  }
}
