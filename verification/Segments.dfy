/** UDP segmentation offload: batches packed for UDP_SEGMENT sends and coalesced UDP_GRO
    reads split again. The kernel is the function Chop, which cuts a send into pieces of
    the segment size. */
module Segments {
  import opened Words

  const MAX_SEGMENTS: nat := 64
  const SCRATCH_BYTES: nat := 64 * 1024

  datatype Datagram = Datagram(addr: nat, data: Bytes)

  /** Pieces of the given size; the last may be shorter, and an empty send is one datagram. */
  function Chop(b: Bytes, size: nat): (r: seq<Bytes>)
    requires size > 0
    ensures |r| > 0
    decreases |b|
  {
    if |b| <= size then [b] else [b[..size]] + Chop(b[size..], size)
  }

  function Join(group: seq<Bytes>): Bytes {
    if group == [] then [] else group[0] + Join(group[1..])
  }

  function Flatten(groups: seq<seq<Bytes>>): seq<Bytes> {
    if groups == [] then [] else groups[0] + Flatten(groups[1..])
  }

  /** What a list of sends puts on the wire. */
  function Wire(sends: seq<Bytes>, size: nat): seq<Bytes>
    requires size > 0
  {
    if sends == [] then [] else Chop(sends[0], size) + Wire(sends[1..], size)
  }

  /** Every datagram but the last has the segment size, the last is no larger. */
  predicate Uniform(batch: seq<Bytes>, size: nat) {
    && (forall i | 0 <= i < |batch| - 1 :: |batch[i]| == size)
    && (batch != [] ==> |batch[|batch| - 1]| <= size)
  }

  function Data(batch: seq<Datagram>): (r: seq<Bytes>)
    ensures |r| == |batch| && forall i | 0 <= i < |batch| :: r[i] == batch[i].data
  {
    seq(|batch|, i requires 0 <= i < |batch| => batch[i].data)
  }

  // ---- eligibility ----

  method GsoEligible(enabled: bool, batch: seq<Datagram>) returns (size: nat, ok: bool)
    ensures ok <==>
            && enabled && |batch| >= 2 && |batch[0].data| > 0
            && (forall i | 0 <= i < |batch| :: batch[i].addr == batch[0].addr)
            && Uniform(Data(batch), |batch[0].data|)
    ensures size == if ok then |batch[0].data| else 0
  {
    if !enabled || |batch| < 2 {
      return 0, false;
    }
    var dst := batch[0].addr;
    size := |batch[0].data|;
    if size == 0 {
      return 0, false;
    }
    var last := |batch| - 1;
    for i := 1 to |batch|
      invariant forall k | 0 <= k < i :: batch[k].addr == dst
      invariant forall k | 0 <= k < i && k < last :: |Data(batch)[k]| == size
      invariant i > last ==> |Data(batch)[last]| <= size
    {
      if batch[i].addr != dst {
        return 0, false;
      }
      var length := |batch[i].data|;
      if i < last && length != size {
        assert |Data(batch)[i]| != size;
        return 0, false;
      }
      if i == last && length > size {
        return 0, false;
      }
    }
    return size, true;
  }

  // ---- packing ----

  /** How many leading datagrams still fit a send that holds total bytes in segs segments. */
  function Fill(batch: seq<Bytes>, total: nat, segs: nat): (k: nat)
    ensures k <= |batch|
  {
    if batch == [] || segs >= MAX_SEGMENTS || total + |batch[0]| > SCRATCH_BYTES then 0
    else 1 + Fill(batch[1..], total + |batch[0]|, segs + 1)
  }

  /** The sends of a batch, as groups of datagrams. */
  function Groups(batch: seq<Bytes>): seq<seq<Bytes>>
    decreases |batch|
  {
    var k := Fill(batch, 0, 0);
    if k == 0 then [] else [batch[..k]] + Groups(batch[k..])
  }

  function Joined(groups: seq<seq<Bytes>>): (r: seq<Bytes>)
    ensures |r| == |groups|
  {
    if groups == [] then [] else [Join(groups[0])] + Joined(groups[1..])
  }

  datatype SendError = NoError | MsgSize | SendFailed

  /** The socket as sendUDPGSO uses it: a send is accepted or fails. */
  class GsoSocket {
    var sends: seq<Bytes>

    method Send(b: Bytes, fail: bool) returns (ok: bool)
      modifies this
      ensures ok == !fail && sends == if ok then old(sends) + [b] else old(sends)
    {
      ok := !fail;
      if ok {
        sends := sends + [b];
      }
    }
  }

  lemma {:induction false} JoinSnoc(group: seq<Bytes>, d: Bytes)
    ensures Join(group + [d]) == Join(group) + d
  {
    if group == [] {
      assert group + [d] == [d];
      assert Join([d]) == d + Join([]);
    } else {
      assert (group + [d])[1..] == group[1..] + [d];
      JoinSnoc(group[1..], d);
    }
  }

  /** The inner packing loop copies the chosen group into the scratch buffer. */
  method PackScratch(scratch: array<Byte>, batch: seq<Bytes>) returns (total: nat, segments: nat)
    requires scratch.Length == SCRATCH_BYTES
    modifies scratch
    ensures segments == Fill(batch, 0, 0)
    ensures total <= scratch.Length && scratch[..total] == Join(batch[..segments])
  {
    total, segments := 0, 0;
    while segments < |batch| && segments < MAX_SEGMENTS
      invariant segments <= |batch| && segments <= MAX_SEGMENTS && total <= SCRATCH_BYTES
      invariant Fill(batch, 0, 0) == segments + Fill(batch[segments..], total, segments)
      invariant scratch[..total] == Join(batch[..segments])
    {
      var payload := batch[segments];
      if total + |payload| > scratch.Length {
        break;
      }
      ghost var before := scratch[..total];
      forall i | 0 <= i < |payload| {
        scratch[total + i] := payload[i];
      }
      assert scratch[..total + |payload|] == before + payload;
      assert batch[..segments + 1] == batch[..segments] + [payload];
      JoinSnoc(batch[..segments], payload);
      assert batch[segments..][1..] == batch[segments + 1..];
      total := total + |payload|;
      segments := segments + 1;
    }
  }

  lemma {:induction false} FlattenSnoc(groups: seq<seq<Bytes>>, g: seq<Bytes>)
    ensures Flatten(groups + [g]) == Flatten(groups) + g
    ensures Joined(groups + [g]) == Joined(groups) + [Join(g)]
  {
    if groups == [] {
      assert groups + [g] == [g];
      assert Flatten([g]) == g + Flatten([]) && Joined([g]) == [Join(g)] + Joined([]);
    } else {
      assert (groups + [g])[1..] == groups[1..] + [g];
      FlattenSnoc(groups[1..], g);
    }
  }

  /** The first made groups are exactly the first sent datagrams. */
  ghost predicate Progress(batch: seq<Bytes>, sent: nat, made: nat) {
    && sent <= |batch| && made <= |Groups(batch)|
    && batch[..sent] == Flatten(Groups(batch)[..made])
    && Groups(batch)[made..] == Groups(batch[sent..])
  }

  /** The bytes of the first made sends. */
  ghost function FirstSends(batch: seq<Bytes>, made: nat): seq<Bytes> {
    if made <= |Groups(batch)| then Joined(Groups(batch)[..made]) else []
  }

  lemma NextGroup(batch: seq<Bytes>, sent: nat, made: nat)
    requires Progress(batch, sent, made) && Fill(batch[sent..], 0, 0) > 0
    ensures var k := Fill(batch[sent..], 0, 0);
            && Progress(batch, sent + k, made + 1)
            && FirstSends(batch, made + 1) == FirstSends(batch, made) + [Join(batch[sent..][..k])]
  {
    var all, rest := Groups(batch), batch[sent..];
    var k := Fill(rest, 0, 0);
    assert rest[k..] == batch[sent + k..];
    assert all[made..] == [rest[..k]] + Groups(rest[k..]);
    hide Groups, Fill;
    assert all[made] == all[made..][0] == rest[..k];
    assert all[made + 1..] == all[made..][1..];
    assert all[..made + 1] == all[..made] + [rest[..k]];
    FlattenSnoc(all[..made], rest[..k]);
    assert batch[..sent + k] == batch[..sent] + rest[..k];
  }

  /** Packing stops only at the end of the batch or before a datagram too large to send. */
  lemma NoMoreGroups(batch: seq<Bytes>, sent: nat, made: nat)
    requires Progress(batch, sent, made) && Fill(batch[sent..], 0, 0) == 0
    ensures made == |Groups(batch)|
    ensures sent < |batch| ==> |batch[sent]| > SCRATCH_BYTES
  {
    assert |Groups(batch)[made..]| == 0;
  }

  lemma NothingFits()
    ensures Fill([], 0, 0) == 0
  {
  }

  lemma StartOfBatch(batch: seq<Bytes>)
    ensures Progress(batch, 0, 0) && FirstSends(batch, 0) == []
  {
    assert batch[0..] == batch && Groups(batch)[0..] == Groups(batch);
  }

  /** sendUDPGSO: the fails list decides which sends the kernel refuses. The sends made are
      those of a prefix of the groups, and the count returned is exactly the number of
      datagrams in that prefix. */
  method SendGso(socket: GsoSocket, scratch: array<Byte>, batch: seq<Bytes>, fails: seq<bool>)
    returns (sent: nat, error: SendError, ghost made: nat)
    requires scratch.Length == SCRATCH_BYTES
    modifies socket, scratch
    ensures Progress(batch, sent, made)
    ensures socket.sends == old(socket.sends) + FirstSends(batch, made)
    ensures error == NoError ==> sent == |batch| && made == |Groups(batch)|
    ensures error == MsgSize ==> sent < |batch| && made == |Groups(batch)| && |batch[sent]| > 65536
    ensures error == SendFailed ==> made < |fails| && fails[made]
    ensures forall i | 0 <= i < made && i < |fails| :: !fails[i]
  {
    StartOfBatch(batch);
    hide Progress, FirstSends, Groups, Flatten, Joined, Join, Fill;
    assert Fill(batch[|batch|..], 0, 0) == 0 by {
      NothingFits();
    }
    sent, made := 0, 0;
    var attempt := 0;
    while sent < |batch|
      invariant sent <= |batch| && attempt == made && Progress(batch, sent, made)
      invariant socket.sends == old(socket.sends) + FirstSends(batch, made)
      invariant forall i | 0 <= i < made && i < |fails| :: !fails[i]
      decreases |batch| - sent
    {
      var total, segments := PackScratch(scratch, batch[sent..]);
      if segments == 0 {
        NoMoreGroups(batch, sent, made);
        return sent, MsgSize, made;
      }
      var fail := attempt < |fails| && fails[attempt];
      var ok := socket.Send(scratch[..total], fail);
      if !ok {
        return sent, SendFailed, made;
      }
      NextGroup(batch, sent, made);
      sent := sent + segments;
      made, attempt := made + 1, attempt + 1;
    }
    NoMoreGroups(batch, sent, made);
    return sent, NoError, made;
  }

  // ---- what reaches the wire ----

  predicate Nonempty(groups: seq<seq<Bytes>>) {
    forall i | 0 <= i < |groups| :: groups[i] != []
  }

  lemma {:induction false} FillBounds(batch: seq<Bytes>, total: nat, segs: nat)
    requires total <= SCRATCH_BYTES && segs <= MAX_SEGMENTS
    ensures var k := Fill(batch, total, segs);
            segs + k <= MAX_SEGMENTS && total + |Join(batch[..k])| <= SCRATCH_BYTES
    decreases |batch|
  {
    var k := Fill(batch, total, segs);
    if k == 0 {
      assert batch[..0] == [];
    } else {
      FillBounds(batch[1..], total + |batch[0]|, segs + 1);
      assert batch[..k][1..] == batch[1..][..k - 1];
    }
  }

  /** Every send of every batch has 1 to 64 segments and at most 64 KiB. */
  lemma {:induction false} SendsAreBounded(batch: seq<Bytes>, i: nat)
    requires i < |Groups(batch)|
    ensures 1 <= |Groups(batch)[i]| <= 64 && |Join(Groups(batch)[i])| <= 65536
    decreases |batch|
  {
    var k := Fill(batch, 0, 0);
    FillBounds(batch, 0, 0);
    if i > 0 {
      SendsAreBounded(batch[k..], i - 1);
    }
  }

  /** The segments of one send are its datagrams, unless an empty one ends a longer group. */
  lemma {:induction false} ChopOfJoin(group: seq<Bytes>, size: nat)
    requires size > 0 && group != [] && Uniform(group, size)
    ensures Chop(Join(group), size)
         == if |group| >= 2 && group[|group| - 1] == [] then group[..|group| - 1] else group
    decreases |group|
  {
    var d, rest := group[0], group[1..];
    assert Join(group) == d + Join(rest);
    if rest == [] {
      assert Join(group) == d;
    } else {
      assert Uniform(rest, size);
      ChopOfJoin(rest, size);
      if Join(rest) == [] {
        JoinEmpty(rest, size);
        assert d + [] == d;
      } else {
        assert (d + Join(rest))[..size] == d && (d + Join(rest))[size..] == Join(rest);
        assert [d] + rest == group;
        assert rest == [[]] ==> Join(rest) == [];
      }
    }
  }

  lemma JoinEmpty(group: seq<Bytes>, size: nat)
    requires size > 0 && group != [] && Uniform(group, size) && Join(group) == []
    ensures group == [[]]
  {
    assert group[0] == [];
    assert |group[0]| != size;
  }

  function EndsInLostDatagram(groups: seq<seq<Bytes>>): bool {
    && groups != []
    && var g := groups[|groups| - 1]; |g| >= 2 && g[|g| - 1] == []
  }

  lemma {:induction false} WireSnoc(sends: seq<Bytes>, b: Bytes, size: nat)
    requires size > 0
    ensures Wire(sends + [b], size) == Wire(sends, size) + Chop(b, size)
  {
    if sends == [] {
      assert sends + [b] == [b];
      assert Wire([b], size) == Chop(b, size) + Wire([], size);
    } else {
      assert (sends + [b])[1..] == sends[1..] + [b];
      WireSnoc(sends[1..], b, size);
    }
  }

  /** The last datagram of the groups decides whether one is lost. */
  lemma NotLost(groups: seq<seq<Bytes>>)
    requires Nonempty(groups)
    requires Flatten(groups) != [] ==> Flatten(groups)[|Flatten(groups)| - 1] != []
    ensures !EndsInLostDatagram(groups)
  {
    if groups != [] {
      LastOfFlatten(groups);
      hide Flatten, Nonempty;
    }
  }

  lemma LostOfSnoc(before: seq<seq<Bytes>>, g: seq<Bytes>)
    ensures EndsInLostDatagram(before + [g]) <==> |g| >= 2 && g[|g| - 1] == []
  {
  }

  /** The wire shows the datagrams of all groups, short of an empty one ending a longer group. */
  lemma {:induction false} WireOfGroups(groups: seq<seq<Bytes>>, size: nat)
    requires size > 0 && Nonempty(groups) && Uniform(Flatten(groups), size)
    ensures EndsInLostDatagram(groups) ==> Flatten(groups) != []
    ensures Wire(Joined(groups), size)
         == if EndsInLostDatagram(groups) then Flatten(groups)[..|Flatten(groups)| - 1] else Flatten(groups)
    decreases |groups|
  {
    if groups == [] {
      assert Flatten(groups) == [] && Joined(groups) == [];
    } else {
      hide Wire, Chop, Join, Joined, Flatten, Uniform, EndsInLostDatagram;
      var before, g := groups[..|groups| - 1], groups[|groups| - 1];
      assert groups == before + [g] && g != [] && Nonempty(before);
      hide Nonempty;
      FlattenSnoc(before, g);
      UniformParts(Flatten(before), g, size);
      NotLost(before);
      LostOfSnoc(before, g);
      WireOfGroups(before, size);
      ChopOfJoin(g, size);
      WireSnoc(Joined(before), Join(g), size);
      var a := Flatten(before);
      assert Flatten(groups) == a + g && Wire(Joined(groups), size) == a + Chop(Join(g), size);
      LastCut(a, g);
    }
  }

  lemma LastCut(a: seq<Bytes>, g: seq<Bytes>)
    requires g != []
    ensures (a + g)[..|a + g| - 1] == a + g[..|g| - 1]
  {
    assert (a + g)[..|a + g| - 1] == a + g[..|g| - 1];
  }

  lemma UniformParts(a: seq<Bytes>, b: seq<Bytes>, size: nat)
    requires Uniform(a + b, size)
    ensures Uniform(a, size) && Uniform(b, size)
    ensures b != [] ==> forall i | 0 <= i < |a| :: |a[i]| == size
  {
    var all := a + b;
    forall i | 0 <= i < |a| - 1
      ensures |a[i]| == size
    {
      assert a[i] == all[i];
    }
    if a != [] {
      assert a[|a| - 1] == all[|a| - 1];
    }
    if b != [] {
      assert b[|b| - 1] == all[|all| - 1];
    }
    forall i | 0 <= i < |b| - 1
      ensures |b[i]| == size
    {
      assert b[i] == all[|a| + i];
    }
  }

  lemma {:induction false} GroupsNonempty(batch: seq<Bytes>)
    ensures Nonempty(Groups(batch))
  {
    forall i | 0 <= i < |Groups(batch)|
      ensures Groups(batch)[i] != []
    {
      SendsAreBounded(batch, i);
    }
  }

  /** After any prefix of the sends, a completed call or a failed one, the wire holds exactly
      the datagrams counted as sent, if the last of the batch is not empty. */
  lemma WireHoldsSent(batch: seq<Bytes>, size: nat, sent: nat, made: nat)
    requires size > 0 && Uniform(batch, size) && Progress(batch, sent, made)
    requires batch != [] && batch[|batch| - 1] != []
    ensures Wire(FirstSends(batch, made), size) == batch[..sent]
  {
    var groups := Groups(batch)[..made];
    GroupsNonempty(batch);
    assert Nonempty(groups);
    assert FirstSends(batch, made) == Joined(groups) && batch[..sent] == Flatten(groups) && sent <= |batch|;
    hide Progress, FirstSends, Groups, Flatten, Wire, Joined, Nonempty, EndsInLostDatagram;
    UniformPrefix(batch, size, sent);
    NotLost(groups);
    WireOfGroups(groups, size);
  }

  lemma UniformPrefix(batch: seq<Bytes>, size: nat, sent: nat)
    requires size > 0 && Uniform(batch, size) && sent <= |batch| && batch != [] && batch[|batch| - 1] != []
    ensures Uniform(batch[..sent], size) && (sent > 0 ==> batch[..sent][sent - 1] != [])
  {
    assert sent < |batch| && sent > 0 ==> |batch[sent - 1]| == size;
  }

  lemma {:induction false} LastOfFlatten(groups: seq<seq<Bytes>>)
    requires groups != [] && groups[|groups| - 1] != []
    ensures var g, all := groups[|groups| - 1], Flatten(groups);
            |all| >= |g| && all[|all| - 1] == g[|g| - 1]
  {
    var before, g := groups[..|groups| - 1], groups[|groups| - 1];
    assert groups == before + [g];
    FlattenSnoc(before, g);
  }

  // ---- a batch whose last datagram is empty ----

  const SMALL_SEGMENT: nat := 1024 // MAX_SEGMENTS segments of this size fill one send

  predicate Fits(batch: seq<Bytes>) {
    forall i | 0 <= i < |batch| :: |batch[i]| <= SMALL_SEGMENT
  }

  /** Segments of at most 1024 bytes are limited by the segment count only. */
  lemma {:induction false} FillSmall(batch: seq<Bytes>, total: nat, segs: nat)
    requires Fits(batch) && total <= SMALL_SEGMENT * segs && segs <= MAX_SEGMENTS
    ensures Fill(batch, total, segs)
         == if |batch| <= MAX_SEGMENTS - segs then |batch| else MAX_SEGMENTS - segs
    decreases |batch|
  {
    if batch != [] && segs < MAX_SEGMENTS {
      assert |batch[0]| <= SMALL_SEGMENT;
      FillSmall(batch[1..], total + |batch[0]|, segs + 1);
    }
  }

  predicate FullThenEmpty(batch: seq<Bytes>, size: nat) {
    && batch != []
    && (forall i | 0 <= i < |batch| - 1 :: |batch[i]| == size)
    && batch[|batch| - 1] == []
  }

  /** Larger segments are limited by bytes first, so an empty one always fits the group before it. */
  lemma {:induction false} FillLarge(batch: seq<Bytes>, size: nat, total: nat, segs: nat)
    requires FullThenEmpty(batch, size) && size > SMALL_SEGMENT
    requires (SMALL_SEGMENT + 1) * segs <= total <= SCRATCH_BYTES
    ensures Fill(batch, total, segs) != |batch| - 1
    decreases |batch|
  {
    if |batch| > 1 {
      assert |batch[0]| == size && FullThenEmpty(batch[1..], size);
      if segs < MAX_SEGMENTS && total + size <= SCRATCH_BYTES {
        FillLarge(batch[1..], size, total + size, segs + 1);
      }
    }
  }

  lemma LostOfCons(g: seq<Bytes>, groups: seq<seq<Bytes>>)
    requires groups != []
    ensures EndsInLostDatagram([g] + groups) <==> EndsInLostDatagram(groups)
  {
    assert ([g] + groups)[|[g] + groups| - 1] == groups[|groups| - 1];
  }

  lemma GroupsStep(batch: seq<Bytes>)
    requires Fill(batch, 0, 0) > 0
    ensures var rest := batch[Fill(batch, 0, 0)..];
            && (rest == [] ==> Groups(batch) == [batch])
            && (Groups(rest) != [] ==> (EndsInLostDatagram(Groups(batch)) <==> EndsInLostDatagram(Groups(rest))))
  {
    var k := Fill(batch, 0, 0);
    var rest := batch[k..];
    assert Groups(batch) == [batch[..k]] + Groups(rest);
    assert rest == [] ==> batch[..k] == batch && Groups(rest) == [];
    hide Groups, Fill, EndsInLostDatagram;
    if Groups(rest) != [] {
      LostOfCons(batch[..k], Groups(rest));
    }
  }

  /** The empty datagram is sent alone exactly when the sends before it are full of 64 segments. */
  lemma {:induction false} EmptySentAlone(batch: seq<Bytes>, size: nat)
    requires 0 < size <= SCRATCH_BYTES && FullThenEmpty(batch, size)
    ensures Groups(batch) != []
    ensures !EndsInLostDatagram(Groups(batch))
       <==> |batch| == 1 || (size <= SMALL_SEGMENT && (|batch| - 1) % MAX_SEGMENTS == 0)
    decreases |batch|
  {
    var k := Fill(batch, 0, 0);
    var rest := batch[k..];
    assert k > 0;
    GroupsStep(batch);
    if size <= SMALL_SEGMENT {
      assert Fits(batch);
      FillSmall(batch, 0, 0);
    } else {
      FillLarge(batch, size, 0, 0);
    }
    assert Groups(batch) != [];
    hide Groups, Fill;
    if k < |batch| {
      assert FullThenEmpty(rest, size);
      EmptySentAlone(rest, size);
      if size <= SMALL_SEGMENT {
        ModStep(|batch| - 1);
      }
    }
  }

  lemma ModStep(n: nat)
    requires n >= MAX_SEGMENTS
    ensures (n - MAX_SEGMENTS) % MAX_SEGMENTS == n % MAX_SEGMENTS
  {
  }

  lemma {:induction false} EverySegmentFits(batch: seq<Bytes>, size: nat)
    requires size <= SCRATCH_BYTES && Uniform(batch, size)
    ensures Flatten(Groups(batch)) == batch
    decreases |batch|
  {
    if batch != [] {
      var k := Fill(batch, 0, 0);
      assert k > 0;
      assert batch[..k] + batch[k..] == batch;
      UniformParts(batch[..k], batch[k..], size);
      EverySegmentFits(batch[k..], size);
      assert Groups(batch)[1..] == Groups(batch[k..]);
    }
  }

  /** Packing an eligible batch and letting the kernel cut it gives the batch back exactly when
      its last datagram is not empty, or is empty but starts a send of its own. */
  lemma GsoRoundTripIff(batch: seq<Bytes>, size: nat)
    requires |batch| >= 2 && 0 < size < 65536 && Uniform(batch, size)
    ensures Flatten(Groups(batch)) == batch
    ensures Wire(Joined(Groups(batch)), size) == batch
       <==> batch[|batch| - 1] != [] || (size <= 1024 && (|batch| - 1) % 64 == 0)
  {
    var groups := Groups(batch);
    EverySegmentFits(batch, size);
    GroupsNonempty(batch);
    WireOfGroups(groups, size);
    hide Groups, Joined, Wire, Flatten, Nonempty, EndsInLostDatagram;
    if batch[|batch| - 1] == [] {
      EmptySentAlone(batch, size);
    } else {
      NotLost(groups);
    }
  }

  // ---- splitting coalesced reads ----

  datatype ReadPacket = ReadPacket(buffer: array<Byte>, n: nat, truncated: bool)

  function Take<T>(s: seq<T>, k: nat): seq<T> {
    if |s| <= k then s else s[..k]
  }

  /** The payloads readGRO yields for the bytes of one read. A segment size of zero means
      the read was not coalesced. */
  function Split(data: Bytes, segment: nat, limit: nat, truncated: bool): seq<Bytes> {
    if truncated || segment == 0 || segment > limit then [data] else Take(Chop(data, segment), MAX_SEGMENTS)
  }

  lemma LessOne(i: nat, size: nat)
    requires i > 0
    ensures (i - 1) * size == i * size - size
  {
  }

  lemma SegmentLength(n: nat, size: nat, full: nat, remainder: nat, i: nat)
    requires n == full * size + remainder && i <= full
    ensures i < full ==> i * size + size <= n
    ensures i == full ==> n - i * size == remainder
  {
    if i < full {
      MulMono(i + 1, full, size);
    }
  }

  /** The number of pieces is the ceiling of a division. */
  lemma {:induction false} ChopCount(b: Bytes, size: nat, full: nat, remainder: nat)
    requires size > 0 && b != [] && |b| == full * size + remainder && remainder < size
    ensures |Chop(b, size)| == full + if remainder > 0 then 1 else 0
    decreases |b|
  {
    if |b| <= size {
      assert full <= 1 by {
        if full > 1 {
          MulMono(2, full, size);
        }
      }
    } else {
      assert full > 0;
      LessOne(full, size);
      ChopCount(b[size..], size, full - 1, remainder);
    }
  }

  /** Each piece starts at a multiple of the size. */
  lemma {:induction false} ChopAt(b: Bytes, size: nat, i: nat, at: nat)
    requires size > 0 && i < |Chop(b, size)| && at == i * size
    ensures at <= |b|
    ensures Chop(b, size)[i] == b[at..if at + size < |b| then at + size else |b|]
    decreases |b|
  {
    if i > 0 {
      var rest, from := b[size..], at - size;
      assert Chop(b, size)[i] == Chop(rest, size)[i - 1] && i - 1 < |Chop(rest, size)|;
      hide Chop;
      LessOne(i, size);
      ChopAt(rest, size, i - 1, from);
      var to := if at + size < |b| then at + size else |b|;
      DropFirst(b, size, at, to);
    }
  }

  lemma DropFirst(b: Bytes, size: nat, at: nat, to: nat)
    requires size <= at <= to <= |b|
    ensures b[size..][at - size..to - size] == b[at..to]
  {
    assert b[size..][at - size..to - size] == b[at..to];
  }

  function CeilDiv(n: nat, size: nat): nat
    requires size > 0
  {
    n / size + if n % size > 0 then 1 else 0
  }

  /** A coalesced read yields one packet per segment, up to 64. */
  lemma SplitCount(data: Bytes, segment: nat, limit: nat)
    requires 0 < segment <= limit && data != []
    ensures |Chop(data, segment)| == CeilDiv(|data|, segment)
    ensures |Split(data, segment, limit, false)|
         == if CeilDiv(|data|, segment) > MAX_SEGMENTS then MAX_SEGMENTS else CeilDiv(|data|, segment)
  {
    DivMod(|data|, segment);
    ChopCount(data, segment, |data| / segment, |data| % segment);
  }

  function PieceLength(n: nat, segment: nat, i: nat): nat
    requires segment > 0
  {
    if i == n / segment then n % segment else segment
  }

  /** Packet i is the segment at i times the segment size. */
  lemma SplitAt(data: Bytes, segment: nat, limit: nat, i: nat, at: nat)
    requires 0 < segment <= limit && data != [] && i < |Split(data, segment, limit, false)| && at == i * segment
    ensures at + PieceLength(|data|, segment, i) <= |data|
    ensures Split(data, segment, limit, false)[i] == data[at..at + PieceLength(|data|, segment, i)]
  {
    SplitCount(data, segment, limit);
    ChopAt(data, segment, i, at);
    assert Split(data, segment, limit, false)[i] == Chop(data, segment)[i];
    DivMod(|data|, segment);
    SegmentLength(|data|, segment, |data| / segment, |data| % segment, i);
  }

  /** Packet i of a read holds the payload at the reader's offset of its own buffer. */
  ghost predicate Holds(packet: ReadPacket, offset: nat, payload: Bytes)
    reads packet.buffer
  {
    && packet.n == |payload| && offset + packet.n <= packet.buffer.Length
    && packet.buffer[offset..offset + packet.n] == payload
  }

  /** Copies segment i of a coalesced read into a buffer of its own. */
  method SegmentPacket(buffer: array<Byte>, offset: nat, n: nat, segment: nat, limit: nat, i: nat, ghost data: Bytes)
    returns (packet: ReadPacket)
    requires 0 < segment <= limit && 0 < n && offset + n <= buffer.Length && data == buffer[offset..offset + n]
    requires i < |Split(data, segment, limit, false)|
    ensures fresh(packet.buffer) && !packet.truncated
    ensures Holds(packet, offset, Split(data, segment, limit, false)[i])
  {
    var segmentLen := segment;
    if i == n / segment {
      segmentLen := n % segment;
    }
    var at := i * segment;
    SplitAt(data, segment, limit, i, at);
    hide Split;
    var piece := buffer[offset..offset + n][at..at + segmentLen];
    packet := OwnBuffer(buffer.Length, offset, piece);
  }

  /** The piece at the offset of a buffer of its own. */
  method OwnBuffer(size: nat, offset: nat, piece: Bytes) returns (packet: ReadPacket)
    requires offset + |piece| <= size
    ensures fresh(packet.buffer) && !packet.truncated && Holds(packet, offset, piece)
  {
    var copied := new Byte[size];
    forall k | 0 <= k < |piece| {
      copied[offset + k] := piece[k];
    }
    packet := ReadPacket(copied, |piece|, false);
    assert copied[offset..offset + |piece|] == piece;
  }

  ghost predicate AllHold(packets: seq<ReadPacket>, offset: nat, pieces: seq<Bytes>)
    reads set i | 0 <= i < |packets| :: packets[i].buffer
  {
    && |packets| == |pieces|
    && forall i | 0 <= i < |packets| :: Holds(packets[i], offset, pieces[i])
  }

  /** The splitting loop of readGRO for a coalesced read. */
  method SplitRead(buffer: array<Byte>, offset: nat, n: nat, segment: nat, limit: nat) returns (packets: seq<ReadPacket>)
    requires 0 < segment <= limit && segment < n && offset + n <= buffer.Length
    ensures AllHold(packets, offset, Split(buffer[offset..offset + n], segment, limit, false))
    ensures packets != [] && packets[0].buffer == buffer
    ensures forall i | 0 < i < |packets| :: fresh(packets[i].buffer)
    ensures forall i, j | 0 <= i < j < |packets| :: packets[i].buffer != packets[j].buffer
    ensures forall i | 0 <= i < |packets| :: !packets[i].truncated
  {
    ghost var data := buffer[offset..offset + n];
    ghost var pieces := Split(data, segment, limit, false);
    var segments := n / segment;
    if n % segment > 0 {
      segments := segments + 1;
    }
    if segments > MAX_SEGMENTS {
      segments := MAX_SEGMENTS;
    }
    SplitCount(data, segment, limit);
    packets := [ReadPacket(buffer, segment, false)];
    FirstSegment(data, segment, limit);
    assert Holds(packets[0], offset, pieces[0]);
    hide Holds, Split, Chop;
    for i := 1 to segments
      invariant |packets| == i && packets[0].buffer == buffer
      invariant forall k | 0 <= k < i :: !packets[k].truncated
      invariant forall k | 0 < k < i :: fresh(packets[k].buffer)
      invariant forall k, m | 0 <= k < m < i :: packets[k].buffer != packets[m].buffer
      invariant forall k | 0 <= k < i :: Holds(packets[k], offset, pieces[k])
    {
      var packet := SegmentPacket(buffer, offset, n, segment, limit, i, data);
      packets := packets + [packet];
    }
  }

  lemma FirstSegment(data: Bytes, segment: nat, limit: nat)
    requires 0 < segment <= limit && segment < |data|
    ensures Split(data, segment, limit, false)[0] == data[..segment]
  {
  }

  /** readGRO after the read: n bytes at the offset, with the kernel's segment size and
      truncation flag. The first packet keeps the read buffer, every other gets its own. */
  method ReadGro(buffer: array<Byte>, offset: nat, n: nat, segment: nat, limit: nat, truncated: bool)
    returns (packets: seq<ReadPacket>)
    requires offset + n <= buffer.Length
    ensures AllHold(packets, offset, Split(buffer[offset..offset + n], segment, limit, truncated))
    ensures packets != [] && packets[0].buffer == buffer
    ensures forall i | 0 < i < |packets| :: fresh(packets[i].buffer)
    ensures forall i, j | 0 <= i < j < |packets| :: packets[i].buffer != packets[j].buffer
    ensures forall i | 0 <= i < |packets| ::
              packets[i].truncated == (truncated || ((segment == 0 || segment > limit) && n > limit))
  {
    if truncated {
      return [ReadPacket(buffer, n, true)];
    }
    if segment == 0 || segment > limit || n <= segment {
      return [ReadPacket(buffer, n, n > limit)];
    }
    packets := SplitRead(buffer, offset, n, segment, limit);
  }

  // ---- what the receiver gets ----

  lemma {:induction false} JoinOfChop(b: Bytes, size: nat, k: nat)
    requires size > 0 && k <= |Chop(b, size)|
    ensures 0 <= k * size
    ensures Join(Chop(b, size)[..k]) == if k < |Chop(b, size)| && k * size <= |b| then b[..k * size] else b
    ensures k < |Chop(b, size)| ==> k * size <= |b|
    decreases |b|
  {
    if k > 0 {
      LessOne(k, size);
      if |b| <= size {
        assert Chop(b, size)[..k] == [b];
        assert Join([b]) == b + Join([]);
      } else {
        JoinOfChop(b[size..], size, k - 1);
        assert Chop(b, size)[..k] == [b[..size]] + Chop(b[size..], size)[..k - 1];
        assert b == b[..size] + b[size..];
      }
    }
  }

  /** No byte is lost or moved: the packets concatenate to the read, or to its first 64
      segments when there are more, and every untruncated packet fits the limit. */
  lemma SplitKeepsBytes(data: Bytes, segment: nat, limit: nat, truncated: bool)
    ensures var pieces := Split(data, segment, limit, truncated);
            var capped := !truncated && 0 < segment <= limit && |data| > 64 * segment;
            && 1 <= |pieces| <= 64
            && Join(pieces) == (if capped then data[..64 * segment] else data)
            && (!truncated && (0 < segment <= limit || |data| <= limit) ==>
                  forall i | 0 <= i < |pieces| :: |pieces[i]| <= limit)
  {
    var pieces := Split(data, segment, limit, truncated);
    assert Join([data]) == data + Join([]);
    if !truncated && 0 < segment <= limit {
      var chopped := Chop(data, segment);
      assert chopped[..|chopped|] == chopped;
      JoinOfChop(data, segment, |pieces|);
      forall i | 0 <= i < |pieces|
        ensures |pieces[i]| <= limit
      {
        ChopAt(data, segment, i, i * segment);
      }
      if data == [] {
        assert chopped == [data];
      } else {
        CapIsByBytes(data, segment);
      }
    }
  }

  lemma CapIsByBytes(data: Bytes, segment: nat)
    requires segment > 0 && data != []
    ensures |Chop(data, segment)| > MAX_SEGMENTS <==> |data| > MAX_SEGMENTS * segment
  {
    DivMod(|data|, segment);
    ChopCount(data, segment, |data| / segment, |data| % segment);
    CapArithmetic(|data|, segment, |data| / segment, |data| % segment);
  }

  lemma CapArithmetic(n: nat, segment: nat, full: nat, remainder: nat)
    requires n == full * segment + remainder && remainder < segment
    ensures full + (if remainder > 0 then 1 else 0) > MAX_SEGMENTS <==> n > MAX_SEGMENTS * segment
  {
    if full > MAX_SEGMENTS {
      MulMono(MAX_SEGMENTS + 1, full, segment);
    } else if full < MAX_SEGMENTS {
      MulMono(full + 1, MAX_SEGMENTS, segment);
    }
  }

  function SplitAll(sends: seq<Bytes>, segment: nat, limit: nat): seq<Bytes> {
    if sends == [] then [] else Split(sends[0], segment, limit, false) + SplitAll(sends[1..], segment, limit)
  }

  /** A receiver that gets each send coalesced splits out what the wire would have carried. */
  lemma {:induction false} SplitAllIsWire(groups: seq<seq<Bytes>>, size: nat, limit: nat)
    requires 0 < size <= limit
    requires forall i | 0 <= i < |groups| :: 0 < |groups[i]| <= MAX_SEGMENTS && Uniform(groups[i], size)
    ensures SplitAll(Joined(groups), size, limit) == Wire(Joined(groups), size)
  {
    if groups != [] {
      var sends := Joined(groups);
      assert sends[0] == Join(groups[0]) && sends[1..] == Joined(groups[1..]);
      OneSendSplits(groups[0], size, limit);
      SplitAllIsWire(groups[1..], size, limit);
      hide Chop, Join, Joined, Split, Uniform;
    }
  }

  lemma OneSendSplits(group: seq<Bytes>, size: nat, limit: nat)
    requires 0 < size <= limit && 0 < |group| <= MAX_SEGMENTS && Uniform(group, size)
    ensures Split(Join(group), size, limit, false) == Chop(Join(group), size)
  {
    ChopOfJoin(group, size);
    hide Chop, Join, Uniform;
  }

  lemma {:induction false} GroupsUniform(groups: seq<seq<Bytes>>, size: nat)
    requires Uniform(Flatten(groups), size)
    ensures forall i | 0 <= i < |groups| :: Uniform(groups[i], size)
  {
    if groups != [] {
      UniformParts(groups[0], Flatten(groups[1..]), size);
      GroupsUniform(groups[1..], size);
      forall i | 0 <= i < |groups|
        ensures Uniform(groups[i], size)
      {
        assert i > 0 ==> groups[i] == groups[1..][i - 1];
      }
    }
  }

  /** A batch packed for sending, received coalesced and split again is the same batch. */
  lemma GsoThenGro(batch: seq<Bytes>, size: nat, limit: nat)
    requires 0 < size <= limit && size < 65536 && Uniform(batch, size)
    requires |batch| >= 2 && batch[|batch| - 1] != []
    ensures SplitAll(Joined(Groups(batch)), size, limit) == batch
  {
    var groups := Groups(batch);
    GsoRoundTripIff(batch, size);
    GroupsUniform(groups, size);
    forall i | 0 <= i < |groups|
      ensures 0 < |groups[i]| <= MAX_SEGMENTS
    {
      SendsAreBounded(batch, i);
    }
    SplitAllIsWire(groups, size, limit);
  }

  // ---- the batch writer ----

  /** `errors` is history: how many calls reported an error. */
  class MessageSocket {
    var sent: seq<Datagram>
    var errors: nat

    constructor ()
      ensures sent == [] && errors == 0
    {
      sent, errors := [], 0;
    }

    /** One sendmmsg: takes any number of leading messages, and may report an error. */
    method WriteBatch(messages: seq<Datagram>) returns (n: nat, failed: bool)
      modifies this
      ensures n <= |messages| && sent == old(sent) + messages[..n]
      ensures errors == old(errors) + if failed then 1 else 0
    {
      assert 0 <= |messages|;
      n :| 0 <= n <= |messages|;
      failed := *;
      sent := sent + messages[..n];
      if failed {
        errors := errors + 1;
      }
    }
  }

  /** writeIPv4Messages: retried from where the kernel stopped, so every message goes out at
      most once and in order, and all do unless the kernel fails or takes none. */
  method WriteMessages(socket: MessageSocket, messages: seq<Datagram>) returns (total: nat, failed: bool, stalled: bool)
    modifies socket
    ensures total <= |messages| && socket.sent == old(socket.sent) + messages[..total]
    ensures !failed && !stalled ==> total == |messages|
    ensures stalled ==> total < |messages|
    ensures socket.errors == old(socket.errors) + if failed then 1 else 0
    ensures messages == [] ==> !failed && !stalled
  {
    total := 0;
    while total < |messages|
      invariant total <= |messages| && socket.sent == old(socket.sent) + messages[..total]
      invariant socket.errors == old(socket.errors)
      decreases |messages| - total
    {
      var n;
      n, failed := socket.WriteBatch(messages[total..]);
      assert messages[..total] + messages[total..][..n] == messages[..total + n];
      total := total + n;
      if failed {
        return total, true, false;
      }
      if n == 0 {
        return total, false, true;
      }
    }
    return total, false, false;
  }

  /** The writer's message slots, one per batch entry, reused by every write. */
  class Writer {
    const socket: MessageSocket
    const slots: array<Datagram>

    constructor (socket: MessageSocket, batchSize: nat)
      ensures this.socket == socket && slots.Length == batchSize && fresh(slots)
    {
      this.socket := socket;
      slots := new Datagram[batchSize];
    }

    /** Write fills the leading slots in place. More packets than slots would be out of bounds. */
    method Write(packets: seq<Datagram>) returns (total: nat, failed: bool, stalled: bool)
      requires |packets| <= slots.Length
      modifies socket, slots
      ensures total <= |packets| && socket.sent == old(socket.sent) + packets[..total]
      ensures !failed && !stalled ==> total == |packets|
      ensures stalled ==> total < |packets|
      ensures socket.errors == old(socket.errors) + if failed then 1 else 0
    {
      if packets == [] {
        return 0, false, false;
      }
      for i := 0 to |packets|
        invariant slots[..i] == packets[..i]
        invariant socket.sent == old(socket.sent) && socket.errors == old(socket.errors)
      {
        slots[i] := packets[i];
      }
      assert slots[..|packets|] == packets;
      total, failed, stalled := WriteMessages(socket, slots[..|packets|]);
    }
  }

  /** The writer has one message slot per batch entry. Every coalesced read fits them exactly
      when the batch size is at least the 64 packets a read may be split into. */
  lemma ReadFitsWriterIff(batchSize: nat, capacity: nat, limit: nat)
    requires capacity >= 64 && limit > 0
    ensures (forall data: Bytes, segment: nat | |data| <= capacity :: |Split(data, segment, limit, false)| <= batchSize)
       <==> batchSize >= 64
  {
    if batchSize < MAX_SEGMENTS {
      var data: Bytes := seq(MAX_SEGMENTS, _ => 0);
      SplitCount(data, 1, limit);
      assert |Split(data, 1, limit, false)| == MAX_SEGMENTS;
    } else {
      forall data: Bytes, segment: nat
        ensures |Split(data, segment, limit, false)| <= batchSize
      {
        SplitKeepsBytes(data, segment, limit, false);
      }
    }
  }
}
