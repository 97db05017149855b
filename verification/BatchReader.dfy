/** The batched UDP read as the reader's own code: it takes pooled buffers and batch slots,
    reads, and gives back what it did not use. Other goroutines are in the Relay module. */
module BatchReader {
  import opened Wrappers

  type BufId = nat

  /** The buffer pool and the batch slots of the shared runtime. */
  class Runtime {
    const budget: nat
    var free: set<BufId>
    var created: nat
    var slotsUsed: nat
    /** Buffers taken and not yet returned. */
    ghost var held: set<BufId>

    constructor (budget: nat)
      ensures Valid() && held == {} && slotsUsed == 0 && this.budget == budget
    {
      this.budget := budget;
      free, created, slotsUsed, held := {}, 0, 0, {};
    }

    /** Every buffer made is pooled or held, never both. */
    ghost predicate Valid()
      reads this
    {
      && free !! held && (forall b: BufId :: b in free || b in held <==> b < created)
      && slotsUsed <= budget
    }

    method GetBuffer() returns (b: BufId)
      requires Valid()
      modifies this
      ensures Valid() && b !in old(held) && held == old(held) + {b} && slotsUsed == old(slotsUsed)
    {
      if free != {} {
        b :| b in free;
        free := free - {b};
      } else {
        b := created;
        created := created + 1;
      }
      held := held + {b};
    }

    method PutBuffer(b: BufId)
      requires Valid() && b in held
      modifies this
      ensures Valid() && held == old(held) - {b} && slotsUsed == old(slotsUsed)
    {
      free := free + {b};
      held := held - {b};
    }

    /** A budget of zero is a runtime without batch slots. */
    method TryAcquireBatchBuffer() returns (ok: bool)
      requires Valid()
      modifies this
      ensures Valid() && held == old(held)
      ensures ok == (old(slotsUsed) < budget) && slotsUsed == old(slotsUsed) + if ok then 1 else 0
    {
      ok := slotsUsed < budget;
      if ok {
        slotsUsed := slotsUsed + 1;
      }
    }

    method ReleaseBuffer(b: BufId, batchSlot: bool)
      requires Valid() && b in held && (batchSlot ==> slotsUsed > 0)
      modifies this
      ensures Valid() && held == old(held) - {b}
      ensures slotsUsed == old(slotsUsed) - if batchSlot then 1 else 0
    {
      if batchSlot {
        slotsUsed := slotsUsed - 1;
      }
      PutBuffer(b);
    }
  }

  datatype Received = Received(n: nat, truncated: bool)
  datatype Packet = Packet(buffer: BufId, n: nat, truncated: bool, batchSlot: bool)

  /** What the non-blocking drain of the socket returns. */
  datatype Drain = WouldBlock | Unsupported | Drained(messages: seq<Received>)

  function PacketOf(limit: nat, buffer: BufId, r: Received, batchSlot: bool): Packet {
    Packet(buffer, r.n, r.truncated || r.n > limit, batchSlot)
  }

  predicate Distinct(s: seq<BufId>) {
    forall i, j | 0 <= i < j < |s| :: s[i] != s[j]
  }

  function SetOf(s: seq<BufId>): set<BufId> {
    set b | b in s
  }

  lemma SetOfSnoc(s: seq<BufId>, b: BufId)
    ensures SetOf(s + [b]) == SetOf(s) + {b}
    ensures Distinct(s) && b !in s ==> Distinct(s + [b])
  {
  }

  function Least(a: nat, b: nat): nat {
    if a < b then a else b
  }

  class Reader {
    const runtime: Runtime
    const limit: nat
    const batchSize: nat
    const bufs: array<BufId>
    const packets: array<Packet>
    var batchDisabled: bool

    constructor (runtime: Runtime, limit: nat, batchSize: nat)
      requires runtime.Valid() && batchSize >= 1
      ensures Valid() && this.runtime == runtime && this.limit == limit && this.batchSize == batchSize
      ensures fresh(bufs) && fresh(packets) && !batchDisabled
    {
      this.runtime, this.limit, this.batchSize := runtime, limit, batchSize;
      bufs, packets := new BufId[batchSize], new Packet[batchSize];
      batchDisabled := false;
    }

    ghost predicate Valid()
      reads this, runtime
    {
      && batchSize >= 1 && bufs.Length == batchSize && packets.Length == batchSize
      && runtime.Valid()
    }

    /** Takes a slot and a buffer for each further datagram, while there are slots. */
    method TakeExtras() returns (extra: nat)
      requires Valid() && bufs[0] in runtime.held
      modifies runtime, bufs
      ensures Valid() && bufs[0] == old(bufs[0])
      ensures extra == Least(batchSize - 1, runtime.budget - old(runtime.slotsUsed))
      ensures runtime.slotsUsed == old(runtime.slotsUsed) + extra
      ensures Distinct(bufs[1..1 + extra]) && SetOf(bufs[1..1 + extra]) !! old(runtime.held)
      ensures runtime.held == old(runtime.held) + SetOf(bufs[1..1 + extra])
    {
      extra := 0;
      assert bufs[1..1] == [];
      while 1 + extra < batchSize
        invariant Valid() && 1 + extra <= batchSize && bufs[0] == old(bufs[0])
        invariant runtime.slotsUsed == old(runtime.slotsUsed) + extra
        invariant Distinct(bufs[1..1 + extra]) && SetOf(bufs[1..1 + extra]) !! old(runtime.held)
        invariant runtime.held == old(runtime.held) + SetOf(bufs[1..1 + extra])
        decreases batchSize - extra
      {
        var ok := runtime.TryAcquireBatchBuffer();
        if !ok {
          break;
        }
        var buf := runtime.GetBuffer();
        ghost var before := bufs[1..1 + extra];
        bufs[1 + extra] := buf;
        assert bufs[1..2 + extra] == before + [buf];
        SetOfSnoc(before, buf);
        extra := extra + 1;
      }
    }

    /** Gives back the buffers and slots of positions from to to - 1. */
    method ReleaseExtras(from: nat, to: nat)
      requires Valid() && from <= to <= bufs.Length
      requires Distinct(bufs[from..to]) && SetOf(bufs[from..to]) <= runtime.held && runtime.slotsUsed >= to - from
      modifies runtime
      ensures Valid() && runtime.held == old(runtime.held) - SetOf(bufs[from..to])
      ensures runtime.slotsUsed == old(runtime.slotsUsed) - (to - from)
    {
      ghost var start := runtime.held;
      for i := from to to
        invariant Valid() && runtime.slotsUsed == old(runtime.slotsUsed) - (i - from)
        invariant runtime.held == start - SetOf(bufs[from..i])
      {
        assert bufs[from..to][i - from] == bufs[i];
        assert forall k | from <= k < i :: bufs[from..to][k - from] == bufs[k] != bufs[i];
        assert bufs[i] in SetOf(bufs[from..to]);
        runtime.ReleaseBuffer(bufs[i], true);
        assert bufs[from..i + 1] == bufs[from..i] + [bufs[i]];
        SetOfSnoc(bufs[from..i], bufs[i]);
      }
    }

    /** Hands the drained datagrams out in the extra buffers. */
    method FillPackets(messages: seq<Received>, drained: nat)
      requires Valid() && drained <= |messages| && 1 + drained <= batchSize
      modifies packets
      ensures Valid() && packets[0] == old(packets[0])
      ensures forall i | 0 < i <= drained :: packets[i] == PacketOf(limit, bufs[i], messages[i - 1], true)
    {
      for i := 0 to drained
        invariant packets[0] == old(packets[0])
        invariant forall k | 0 < k <= i :: packets[k] == PacketOf(limit, bufs[k], messages[k - 1], true)
      {
        packets[i + 1] := PacketOf(limit, bufs[i + 1], messages[i], true);
      }
    }

    /** The non-blocking drain into the extra buffers, and the release of the unused ones. */
    method DrainExtras(extra: nat, drain: Drain) returns (drained: nat)
      requires Valid() && 1 + extra <= batchSize && runtime.slotsUsed >= extra
      requires Distinct(bufs[1..1 + extra]) && SetOf(bufs[1..1 + extra]) <= runtime.held
      modifies this`batchDisabled, runtime, packets
      ensures Valid() && packets[0] == old(packets[0])
      ensures drained == if drain.Drained? then Least(|drain.messages|, extra) else 0
      ensures runtime.held == old(runtime.held) - SetOf(bufs[1 + drained..1 + extra])
      ensures runtime.slotsUsed == old(runtime.slotsUsed) - (extra - drained)
      ensures forall i | 0 < i <= drained :: packets[i] == PacketOf(limit, bufs[i], drain.messages[i - 1], true)
      ensures batchDisabled == (old(batchDisabled) || drain.Unsupported?)
    {
      if !drain.Drained? {
        ReleaseExtras(1, 1 + extra);
        if drain.Unsupported? {
          batchDisabled := true;
        }
        return 0;
      }
      drained := Least(|drain.messages|, extra);
      FillPackets(drain.messages, drained);
      SplitSets(bufs[1..1 + extra], drained);
      assert bufs[1..1 + extra][drained..] == bufs[1 + drained..1 + extra];
      ReleaseExtras(1 + drained, 1 + extra);
    }

    /** How many datagrams one read returns after a successful first one. */
    function Count(slotsUsed: nat, disabled: bool, drain: Drain): nat
      requires batchSize >= 1 && slotsUsed <= runtime.budget
    {
      if disabled || !drain.Drained? then 1
      else 1 + Least(|drain.messages|, Least(batchSize - 1, runtime.budget - slotsUsed))
    }

    /** readBatch. A failed first read takes nothing. Otherwise the reader hands out count
        packets in that many distinct buffers nobody held, with one slot for each packet but
        the first, and every other buffer and slot it took is back. */
    method ReadBatch(first: Option<Received>, drain: Drain) returns (count: nat)
      requires Valid()
      modifies this`batchDisabled, runtime, bufs, packets
      ensures Valid()
      ensures first.None? ==> count == 0
      ensures first.Some? ==> count == Count(old(runtime.slotsUsed), old(batchDisabled), drain)
      ensures count <= batchSize && Distinct(bufs[..count]) && SetOf(bufs[..count]) !! old(runtime.held)
      ensures runtime.held == old(runtime.held) + SetOf(bufs[..count])
      ensures runtime.slotsUsed == old(runtime.slotsUsed) + if count > 0 then count - 1 else 0
      ensures first.Some? ==>
                var r := first.value;
                packets[0] == Packet(bufs[0], r.n, r.truncated || r.n > limit, false)
      ensures forall i | 0 < i < count ::
                var r := drain.messages[i - 1];
                packets[i] == Packet(bufs[i], r.n, r.truncated || r.n > limit, true)
      ensures batchDisabled == (old(batchDisabled)
                                || (first.Some? && drain.Unsupported? && batchSize > 1
                                    && old(runtime.slotsUsed) < runtime.budget))
    {
      var buf := runtime.GetBuffer();
      if first.None? {
        runtime.PutBuffer(buf);
        assert bufs[..0] == [];
        return 0;
      }
      bufs[0] := buf;
      packets[0] := PacketOf(limit, buf, first.value, false);
      assert bufs[..1] == [buf];
      if batchSize == 1 || batchDisabled {
        return 1;
      }
      var extra := TakeExtras();
      assert bufs[..1] == [buf];
      assert bufs[1..1] == [];
      if extra == 0 {
        return 1;
      }
      var drained := DrainExtras(extra, drain);
      count := 1 + drained;
      TakenSets(bufs[..1 + extra], old(runtime.held), drained);
      assert bufs[..1 + extra][1..] == bufs[1..1 + extra];
      assert bufs[..1 + extra][1 + drained..] == bufs[1 + drained..1 + extra];
      assert bufs[..1 + extra][..1 + drained] == bufs[..count];
    }
  }

  /** Of the buffers taken, those before position k + 1 stay held when the rest are returned. */
  lemma TakenSets(taken: seq<BufId>, held: set<BufId>, k: nat)
    requires 1 + k <= |taken| && taken[0] !in held && Distinct(taken[1..])
    requires SetOf(taken[1..]) !! held + {taken[0]}
    ensures Distinct(taken[..1 + k]) && SetOf(taken[..1 + k]) !! held
    ensures held + {taken[0]} + SetOf(taken[1..]) - SetOf(taken[1 + k..]) == held + SetOf(taken[..1 + k])
  {
    assert taken == [taken[0]] + taken[1..];
    assert taken[0] !in SetOf(taken[1..]);
    assert Distinct(taken) by {
      forall i, j | 0 <= i < j < |taken|
        ensures taken[i] != taken[j]
      {
        assert taken[j] == taken[1..][j - 1];
        assert i > 0 ==> taken[i] == taken[1..][i - 1];
      }
    }
    SplitSets(taken, 1 + k);
    assert SetOf(taken) == {taken[0]} + SetOf(taken[1..]);
  }

  lemma SplitSets(s: seq<BufId>, k: nat)
    requires k <= |s| && Distinct(s)
    ensures Distinct(s[..k]) && Distinct(s[k..]) && SetOf(s[..k]) !! SetOf(s[k..])
    ensures SetOf(s) == SetOf(s[..k]) + SetOf(s[k..])
  {
    assert s == s[..k] + s[k..];
  }
}
