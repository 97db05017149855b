/** The extension a client asks for in the tail of its user name. */
module Extensions {
  import opened Wrappers
  import opened Words
  import opened Uint128
  import opened FxHash
  import opened SourceAddress
  import Collisions

  const TTL_MARK: Bytes := [45, 116, 116, 108, 45] // -ttl-
  const SESSION_MARK: Bytes := [45, 115, 101, 115, 115, 105, 111, 110, 45] // -session-
  const RANGE_MARK: Bytes := [45, 114, 97, 110, 103, 101, 45] // -range-

  predicate Contains(s: Bytes, mark: Bytes) {
    exists i | 0 <= i <= |s| :: mark <= s[i..]
  }

  function TrimPrefix(s: Bytes, mark: Bytes): Bytes {
    if mark <= s then s[|mark|..] else s
  }

  // ---- decimal numbers ----

  predicate IsDigit(b: Byte) {
    48 <= b <= 57
  }

  predicate AllDigits(s: Bytes) {
    forall i | 0 <= i < |s| :: IsDigit(s[i])
  }

  function Decimal(s: Bytes): nat
    requires AllDigits(s)
  {
    if s == [] then 0 else 10 * Decimal(s[..|s| - 1]) + (s[|s| - 1] - 48)
  }

  /** strconv.ParseUint in base 10 and 64 bits: digits only, at least one, in range. The loop
      stops as soon as the number is too large. */
  method ParseUint(s: Bytes) returns (r: Option<U64>)
    ensures r == if s != [] && AllDigits(s) && Decimal(s) < TWO64 then Some(Decimal(s)) else None
  {
    if s == [] {
      return None;
    }
    var n := 0;
    for i := 0 to |s|
      invariant AllDigits(s[..i]) && n == Decimal(s[..i]) < TWO64
    {
      if !IsDigit(s[i]) {
        return None;
      }
      assert s[..i + 1][..i] == s[..i];
      n := 10 * n + (s[i] - 48);
      if n >= TWO64 {
        if AllDigits(s) {
          DecimalGrows(s, i + 1);
        }
        return None;
      }
    }
    assert s[..|s|] == s;
    r := Some(n);
  }

  lemma {:induction false} DecimalGrows(s: Bytes, k: nat)
    requires AllDigits(s) && k <= |s|
    ensures Decimal(s[..k]) <= Decimal(s)
    decreases |s|
  {
    if k == |s| {
      assert s[..k] == s;
    } else {
      var t := s[..|s| - 1];
      DecimalGrows(t, k);
      assert t[..k] == s[..k];
    }
  }

  // ---- numerals ----

  /** A number as it is written, without leading zeros. */
  function Numeral(n: nat): (s: Bytes)
    ensures s != []
  {
    if n < 10 then [48 + n] else Numeral(n / 10) + [48 + n % 10]
  }

  /** Every number is read back from its numeral. */
  lemma {:induction false} NumeralIsRead(n: nat)
    ensures AllDigits(Numeral(n)) && Decimal(Numeral(n)) == n
  {
    var s := Numeral(n);
    if n >= 10 {
      NumeralIsRead(n / 10);
      assert s[..|s| - 1] == Numeral(n / 10) && s[|s| - 1] == 48 + n % 10;
    } else {
      assert s[..0] == [];
    }
  }

  /** And digits without a leading zero are the numeral of what they are read as. */
  lemma {:induction false} ReadIsNumeral(s: Bytes)
    requires s != [] && AllDigits(s) && (|s| > 1 ==> s[0] != 48)
    ensures Numeral(Decimal(s)) == s && (s[0] != 48 ==> Decimal(s) > 0)
  {
    var front := s[..|s| - 1];
    if |s| > 1 {
      ReadIsNumeral(front);
      assert s == front + [s[|s| - 1]];
    } else {
      assert front == [] && s == [s[0]];
    }
  }

  /** What a ttl in seconds means, if it is one. */
  function TtlOf(s: Bytes): (r: Option<U64>)
    ensures r.Some? ==> r.value > 0
  {
    if s != [] && AllDigits(s) && 0 < Decimal(s) < TWO64 then Some(Decimal(s)) else None
  }

  // ---- choosing the extension ----

  function TryFrom(prefix: Bytes, full: Bytes, now: U64): Extension {
    if !(prefix <= full) then NoExtension
    else
      var extracted := full[|prefix|..];
      if Contains(full, SESSION_MARK) then Session(HashFrom(0, full))
      else if Contains(extracted, TTL_MARK) then
        var ttl := TtlOf(TrimPrefix(extracted, TTL_MARK));
        if ttl.Some? then Ttl(TtlValue(ttl.value, now)) else NoExtension
      else if Contains(extracted, RANGE_MARK) then Range(HashFrom(0, TrimPrefix(extracted, RANGE_MARK)))
      else NoExtension
  }

  /** parseTTL and the branches around it, as the code runs them. */
  method ParseExtension(prefix: Bytes, full: Bytes, now: U64) returns (e: Extension)
    ensures e == TryFrom(prefix, full, now)
  {
    hide HashFrom, TtlValue;
    if !(prefix <= full) {
      return NoExtension;
    }
    var extracted := full[|prefix|..];
    if Contains(full, SESSION_MARK) {
      var hash := FxHash64(full);
      return Session(hash);
    }
    if Contains(extracted, TTL_MARK) {
      var parsed := ParseUint(TrimPrefix(extracted, TTL_MARK));
      var value := ParseTtl(parsed, now);
      return if value.Some? then Ttl(value.value) else NoExtension;
    }
    if Contains(extracted, RANGE_MARK) {
      var hash := FxHash64(TrimPrefix(extracted, RANGE_MARK));
      return Range(hash);
    }
    return NoExtension;
  }

  /** A dash is no digit. */
  lemma MarkedIsNoNumber(s: Bytes)
    requires Contains(s, TTL_MARK)
    ensures !AllDigits(s)
  {
    var i :| 0 <= i <= |s| && TTL_MARK <= s[i..];
    assert s[i] == s[i..][0] == TTL_MARK[0] == 45;
  }

  /** The user name asks for this ttl: the mark right after the prefix, then only digits. */
  predicate AsksTtl(prefix: Bytes, full: Bytes, digits: Bytes) {
    full == prefix + TTL_MARK + digits && TtlOf(digits).Some?
  }

  /** A ttl extension comes from exactly the names of the form prefix, mark, positive number,
      without a session mark; text between prefix and mark gives none. */
  lemma TtlIff(prefix: Bytes, full: Bytes, now: U64)
    ensures TryFrom(prefix, full, now).Ttl?
       <==> !Contains(full, SESSION_MARK) && exists digits :: AsksTtl(prefix, full, digits)
  {
    hide HashFrom, TtlValue, Decimal;
    if TryFrom(prefix, full, now).Ttl? {
      var extracted := full[|prefix|..];
      var digits := TrimPrefix(extracted, TTL_MARK);
      if !(TTL_MARK <= extracted) {
        MarkedIsNoNumber(extracted);
      }
      assert full == prefix + TTL_MARK + digits;
      assert AsksTtl(prefix, full, digits);
    }
    if digits :| AsksTtl(prefix, full, digits) && !Contains(full, SESSION_MARK) {
      TtlNamed(prefix, full, digits, now);
    }
  }

  lemma TtlNamed(prefix: Bytes, full: Bytes, digits: Bytes, now: U64)
    requires AsksTtl(prefix, full, digits) && !Contains(full, SESSION_MARK)
    ensures TryFrom(prefix, full, now) == Ttl(TtlValue(TtlOf(digits).value, now))
  {
    hide HashFrom, TtlValue, Decimal;
    var extracted := full[|prefix|..];
    assert extracted == TTL_MARK + digits;
    assert extracted[0..] == extracted;
    assert Contains(extracted, TTL_MARK);
    assert TrimPrefix(extracted, TTL_MARK) == digits;
  }

  /** A positive ttl written after the prefix and its mark is the ttl asked for. */
  lemma TtlWritten(prefix: Bytes, ttl: U64, now: U64)
    requires ttl > 0
    requires var full := prefix + TTL_MARK + Numeral(ttl); !Contains(full, SESSION_MARK)
    ensures TryFrom(prefix, prefix + TTL_MARK + Numeral(ttl), now) == Ttl(TtlValue(ttl, now))
  {
    hide TryFrom, Contains, Numeral;
    NumeralIsRead(ttl);
    TtlNamed(prefix, prefix + TTL_MARK + Numeral(ttl), Numeral(ttl), now);
  }

  /** A session extension comes from exactly the names that continue the prefix and hold the
      mark anywhere, the prefix included; its value is the hash of the whole name. */
  lemma SessionIff(prefix: Bytes, full: Bytes, now: U64)
    ensures TryFrom(prefix, full, now).Session? <==> prefix <= full && exists a, b :: full == a + SESSION_MARK + b
    ensures TryFrom(prefix, full, now).Session? ==> TryFrom(prefix, full, now).value == HashFrom(0, full)
  {
    hide HashFrom, TtlValue, TtlOf;
    ContainsIff(full, SESSION_MARK);
  }

  lemma ContainsIff(s: Bytes, mark: Bytes)
    ensures Contains(s, mark) <==> exists a, b :: s == a + mark + b
  {
    if Contains(s, mark) {
      var i :| 0 <= i <= |s| && mark <= s[i..];
      assert s == s[..i] + mark + s[i + |mark|..];
    }
    if a, b :| s == a + mark + b {
      assert s[|a|..] == mark + b;
    }
  }

  /** A range extension comes from exactly the names with a range mark after the prefix and
      neither of the other marks; the mark is dropped before hashing only where it comes first. */
  lemma RangeIff(prefix: Bytes, full: Bytes, now: U64)
    ensures TryFrom(prefix, full, now).Range?
       <==> && prefix <= full && !Contains(full, SESSION_MARK)
            && !Contains(full[|prefix|..], TTL_MARK)
            && exists a, b :: full == prefix + a + RANGE_MARK + b
    ensures forall tail :: full == prefix + RANGE_MARK + tail && TryFrom(prefix, full, now).Range? ==>
              TryFrom(prefix, full, now).value == HashFrom(0, tail)
    ensures forall tail :: full == prefix + tail && !(RANGE_MARK <= tail) && TryFrom(prefix, full, now).Range? ==>
              TryFrom(prefix, full, now).value == HashFrom(0, tail)
  {
    hide HashFrom, TtlValue, TtlOf, Contains;
    if prefix <= full {
      var extracted := full[|prefix|..];
      TailHolds(prefix, full, RANGE_MARK);
      forall tail
        ensures full == prefix + RANGE_MARK + tail ==> extracted == RANGE_MARK + tail && extracted[|RANGE_MARK|..] == tail
      {
        PrefixedIff(prefix, full, RANGE_MARK + tail);
        assert prefix + (RANGE_MARK + tail) == prefix + RANGE_MARK + tail;
      }
      forall tail
        ensures full == prefix + tail ==> extracted == tail
      {
        PrefixedIff(prefix, full, tail);
      }
    }
  }

  lemma TailHolds(prefix: Bytes, full: Bytes, mark: Bytes)
    requires prefix <= full
    ensures Contains(full[|prefix|..], mark) <==> exists a, b :: full == prefix + a + mark + b
  {
    var extracted := full[|prefix|..];
    ContainsIff(extracted, mark);
    if a, b :| extracted == a + mark + b {
      assert full == prefix + a + mark + b;
    }
    if a, b :| full == prefix + a + mark + b {
      assert extracted == a + mark + b;
    }
  }

  lemma PrefixedIff(prefix: Bytes, full: Bytes, tail: Bytes)
    requires prefix <= full
    ensures full == prefix + tail <==> full[|prefix|..] == tail
  {
    assert full == prefix + full[|prefix|..];
    assert (prefix + tail)[|prefix|..] == tail;
  }

  /** Session names of one length that differ inside a single hash chunk have different
      values, and with an odd number of host bits above 64, or all 128, different addresses. */
  lemma SessionNamesApart(c: Cidr6, range: Option<nat>, prefix: Bytes, x: Bytes, y: Bytes, now: U64,
                          random: Uint128, random64: U64, random': Uint128, random64': U64)
    requires c.Valid() && c.bits < 64 && (c.bits % 2 == 1 || c.bits == 0)
    requires prefix <= x && prefix <= y && Contains(x, SESSION_MARK) && Contains(y, SESSION_MARK)
    requires DifferInOneChunk(x, y)
    ensures var e, f := TryFrom(prefix, x, now), TryFrom(prefix, y, now);
            && e.Session? && f.Session? && e.value != f.value
            && Assign(c, range, e, random, random64) != Assign(c, range, f, random', random64')
  {
    hide Assign, HashFrom, Contains, Collisions.SameTouched;
    var e, f := TryFrom(prefix, x, now), TryFrom(prefix, y, now);
    OneChunkNeverCollides(0, x, y);
    Collisions.SameAddressIff(c, range, e, f, random, random64, random', random64');
    if Collisions.SameTouched(e.value, f.value, HostBits(c)) {
      Collisions.OddApart(e.value, f.value, HostBits(c));
    }
  }
}
