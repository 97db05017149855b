/** udpResponder.pumpOnce: one read of target responses forwarded to the client, from the
    reader's buffers through the in-place headers to the writer's slots and back to the pool. */
module Responder {
  import opened Wrappers
  import opened Words
  import Proto
  import B = BatchReader
  import S = Segments

  // ---- batched reads: buffers, slots and message slots ----

  function BufsOf(packets: seq<B.Packet>): (r: seq<B.BufId>)
    ensures |r| == |packets| && forall i | 0 <= i < |packets| :: r[i] == packets[i].buffer
  {
    seq(|packets|, i requires 0 <= i < |packets| => packets[i].buffer)
  }

  function SlotsOf(packets: seq<B.Packet>): nat {
    if packets == [] then 0 else (if packets[0].batchSlot then 1 else 0) + SlotsOf(packets[1..])
  }

  lemma {:induction false} SlotsOfConcat(a: seq<B.Packet>, b: seq<B.Packet>)
    ensures SlotsOf(a + b) == SlotsOf(a) + SlotsOf(b)
  {
    if a == [] {
      assert a + b == b;
    } else {
      assert (a + b)[0] == a[0] && (a + b)[1..] == a[1..] + b;
      SlotsOfConcat(a[1..], b);
    }
  }

  /** The runtime holds what it held before, and exactly these packets' buffers and slots. */
  ghost predicate Holding(runtime: B.Runtime, held: set<B.BufId>, slots: nat, packets: seq<B.Packet>)
    reads runtime
  {
    && runtime.Valid() && B.Distinct(BufsOf(packets)) && B.SetOf(BufsOf(packets)) !! held
    && runtime.held == held + B.SetOf(BufsOf(packets))
    && runtime.slotsUsed == slots + SlotsOf(packets)
  }

  /** releaseReadPacket of one packet among those held. */
  method Release(runtime: B.Runtime, ghost held: set<B.BufId>, ghost slots: nat, packets: seq<B.Packet>, i: nat)
    requires i < |packets| && Holding(runtime, held, slots, packets)
    modifies runtime
    ensures Holding(runtime, held, slots, packets[..i] + packets[i + 1..])
  {
    var p := packets[i];
    ghost var before, after := packets[..i], packets[i + 1..];
    assert packets == before + [p] + after;
    SlotsOfConcat(before + [p], after);
    SlotsOfConcat(before, [p]);
    SlotsOfConcat(before, after);
    assert SlotsOf([p]) == (if p.batchSlot then 1 else 0) + SlotsOf([]);
    assert BufsOf(packets)[i] == p.buffer;
    RemoveOne(BufsOf(packets), i);
    assert BufsOf(before + after) == BufsOf(packets)[..i] + BufsOf(packets)[i + 1..];
    runtime.ReleaseBuffer(p.buffer, p.batchSlot);
  }

  lemma RemoveOne(s: seq<B.BufId>, i: nat)
    requires i < |s| && B.Distinct(s)
    ensures B.Distinct(s[..i] + s[i + 1..]) && s[i] in B.SetOf(s)
    ensures B.SetOf(s[..i] + s[i + 1..]) == B.SetOf(s) - {s[i]}
  {
    var t := s[..i] + s[i + 1..];
    forall b
      ensures b in B.SetOf(t) <==> b in B.SetOf(s) && b != s[i]
    {
      if b in B.SetOf(s) && b != s[i] {
        var k :| 0 <= k < |s| && s[k] == b;
        assert k < i ==> t[k] == b;
        assert k > i ==> t[k - 1] == b;
      }
    }
  }

  /** The packets of a read that are answered: all but the truncated, and none before the
      client's port is known. */
  function Forwarded(packets: seq<B.Packet>, clientPort: nat): seq<B.Packet> {
    if packets == [] || clientPort == 0 then []
    else
      var last := packets[|packets| - 1];
      Forwarded(packets[..|packets| - 1], clientPort) + if last.truncated then [] else [last]
  }

  function Responses(packets: seq<B.Packet>, respond: B.Packet -> S.Datagram): (r: seq<S.Datagram>)
    ensures |r| == |packets| && forall i | 0 <= i < |packets| :: r[i] == respond(packets[i])
  {
    seq(|packets|, i requires 0 <= i < |packets| => respond(packets[i]))
  }

  lemma {:induction false} ForwardedFits(packets: seq<B.Packet>, clientPort: nat)
    ensures |Forwarded(packets, clientPort)| <= |packets|
  {
    if packets != [] && clientPort != 0 {
      ForwardedFits(packets[..|packets| - 1], clientPort);
    }
  }

  lemma {:induction false} AllSlots(packets: seq<B.Packet>)
    requires forall i | 0 <= i < |packets| :: packets[i].batchSlot
    ensures SlotsOf(packets) == |packets|
  {
    if packets != [] {
      AllSlots(packets[1..]);
    }
  }

  /** The packets of a successful read are the datagrams received, one after the other. */
  predicate AreReceived(packets: seq<B.Packet>, limit: nat, first: B.Received, drain: B.Drain) {
    && packets != []
    && packets[0] == B.Packet(packets[0].buffer, first.n, first.truncated || first.n > limit, false)
    && (|packets| > 1 ==> drain.Drained? && |packets| - 1 <= |drain.messages|)
    && forall i | 0 < i < |packets| ::
         var r := drain.messages[i - 1];
         packets[i] == B.Packet(packets[i].buffer, r.n, r.truncated || r.n > limit, true)
  }

  /** What ReadBatch leaves held, as packets. */
  method Read(reader: B.Reader, first: Option<B.Received>, drain: B.Drain) returns (packets: seq<B.Packet>)
    requires reader.Valid()
    modifies reader`batchDisabled, reader.runtime, reader.bufs, reader.packets
    ensures reader.Valid() && |packets| <= reader.batchSize && (first.None? <==> packets == [])
    ensures Holding(reader.runtime, old(reader.runtime.held), old(reader.runtime.slotsUsed), packets)
    ensures first.Some? ==> |packets| == reader.Count(old(reader.runtime.slotsUsed), old(reader.batchDisabled), drain)
    ensures first.Some? ==> AreReceived(packets, reader.limit, first.value, drain)
  {
    ghost var held, slots := reader.runtime.held, reader.runtime.slotsUsed;
    var count := reader.ReadBatch(first, drain);
    packets := reader.packets[..count];
    assert BufsOf(packets) == reader.bufs[..count];
    if count > 0 {
      AllSlots(packets[1..]);
    }
  }

  /** pumpOnce on batched reads. Every write fits the writer's slots, the client gets the
      responses to the untruncated datagrams in order, and every buffer and slot the read
      took is back, whatever the kernel did. */
  method PumpOnce(reader: B.Reader, writer: S.Writer, clientPort: nat, first: Option<B.Received>, drain: B.Drain,
                  respond: B.Packet -> S.Datagram) returns (alive: bool, written: nat, ghost packets: seq<B.Packet>)
    requires reader.Valid() && writer.slots.Length == reader.batchSize
    modifies reader`batchDisabled, reader.runtime, reader.bufs, reader.packets, writer.socket, writer.slots
    ensures reader.Valid() && alive == first.Some?
    ensures first.Some? ==> |packets| == reader.Count(old(reader.runtime.slotsUsed), old(reader.batchDisabled), drain)
    ensures if first.Some? then AreReceived(packets, reader.limit, first.value, drain) else packets == []
    ensures reader.runtime.held == old(reader.runtime.held) && reader.runtime.slotsUsed == old(reader.runtime.slotsUsed)
    ensures var all := Responses(Forwarded(packets, clientPort), respond);
            written <= |all| && writer.socket.sent == old(writer.socket.sent) + all[..written]
  {
    var runtime := reader.runtime;
    ghost var held, slots := runtime.held, runtime.slotsUsed;
    var todo := Read(reader, first, drain);
    packets := todo;
    alive := first.Some?;
    var kept := Sort(runtime, held, slots, todo, clientPort);
    ForwardedFits(todo, clientPort);
    var failed, stalled;
    written, failed, stalled := writer.Write(Responses(kept, respond));
    ReleaseAll(runtime, held, slots, kept);
  }

  lemma TakeOut(kept: seq<B.Packet>, todo: seq<B.Packet>, i: nat)
    requires i < |todo|
    ensures (kept + todo[i..])[..|kept|] + (kept + todo[i..])[|kept| + 1..] == kept + todo[i + 1..]
    ensures (kept + [todo[i]]) + todo[i + 1..] == kept + todo[i..]
    ensures todo[..i + 1][..i] == todo[..i] && todo[..i + 1][i] == todo[i]
  {
  }

  /** The loop over the packets: drop some, keep the others for the write. */
  method Sort(runtime: B.Runtime, ghost held: set<B.BufId>, ghost slots: nat, todo: seq<B.Packet>, clientPort: nat)
    returns (kept: seq<B.Packet>)
    requires Holding(runtime, held, slots, todo)
    modifies runtime
    ensures kept == Forwarded(todo, clientPort) && Holding(runtime, held, slots, kept)
  {
    hide Holding;
    kept := [];
    assert kept + todo[0..] == todo;
    for i := 0 to |todo|
      invariant kept == Forwarded(todo[..i], clientPort) && Holding(runtime, held, slots, kept + todo[i..])
    {
      TakeOut(kept, todo, i);
      if todo[i].truncated || clientPort == 0 {
        Release(runtime, held, slots, kept + todo[i..], |kept|);
      } else {
        kept := kept + [todo[i]];
      }
    }
    assert todo[..|todo|] == todo && kept + todo[|todo|..] == kept;
  }

  method ReleaseAll(runtime: B.Runtime, ghost held: set<B.BufId>, ghost slots: nat, packets: seq<B.Packet>)
    requires Holding(runtime, held, slots, packets)
    modifies runtime
    ensures runtime.Valid() && runtime.held == held && runtime.slotsUsed == slots
  {
    for i := 0 to |packets|
      invariant Holding(runtime, held, slots, packets[i..])
    {
      Release(runtime, held, slots, packets[i..], 0);
      assert packets[i..][..0] + packets[i..][1..] == packets[i + 1..];
    }
    assert packets[|packets|..] == [] && BufsOf([]) == [];
  }

  // ---- coalesced reads: bytes ----

  /** The response to one payload of a target, sent to the client. */
  function Response(client: nat, remote: Proto.Ip, port: Proto.Port, payload: Bytes): S.Datagram
    requires remote.Valid()
  {
    S.Datagram(client, Proto.BuildUdpPacket(0, Proto.Socket(Proto.Unmap(remote), port), payload))
  }

  function ResponsesTo(client: nat, remote: Proto.Ip, port: Proto.Port, payloads: seq<Bytes>): (r: seq<S.Datagram>)
    requires remote.Valid()
    ensures |r| == |payloads|
    ensures forall i | 0 <= i < |payloads| :: r[i] == Response(client, remote, port, payloads[i])
  {
    seq(|payloads|, i requires 0 <= i < |payloads| => Response(client, remote, port, payloads[i]))
  }

  const OFFSET: nat := Proto.UDP_HEADER_MAX_LEN

  /** Each packet's header goes in front of its payload, in the packet's own buffer. */
  method PrepareOne(packet: S.ReadPacket, ghost payload: Bytes, remote: Proto.Ip, port: Proto.Port, client: nat)
    returns (d: S.Datagram)
    requires remote.Valid() && S.Holds(packet, OFFSET, payload)
    modifies packet.buffer
    ensures d == Response(client, remote, port, payload)
  {
    var bytes := packet.buffer[OFFSET..OFFSET + packet.n];
    var response := Proto.PrepareUdpResponse(packet.buffer, bytes, remote, port);
    d := S.Datagram(client, response);
  }

  method PrepareAll(packets: seq<S.ReadPacket>, ghost pieces: seq<Bytes>, remote: Proto.Ip, port: Proto.Port, client: nat)
    returns (writes: seq<S.Datagram>)
    requires remote.Valid() && S.AllHold(packets, OFFSET, pieces)
    requires forall i, j | 0 <= i < j < |packets| :: packets[i].buffer != packets[j].buffer
    modifies set i | 0 <= i < |packets| :: packets[i].buffer
    ensures writes == ResponsesTo(client, remote, port, pieces)
  {
    writes := [];
    hide Response, S.Holds;
    for i := 0 to |packets|
      invariant |writes| == i
      invariant forall k | 0 <= k < i :: writes[k] == Response(client, remote, port, pieces[k])
      invariant forall k | i <= k < |packets| :: S.Holds(packets[k], OFFSET, pieces[k])
    {
      var d := PrepareOne(packets[i], pieces[i], remote, port, client);
      writes := writes + [d];
    }
  }

  /** pumpOnce on one coalesced read of n bytes: split, given headers in place in their own
      buffers, and written. A writer with at least 64 slots is never out of bounds, and the
      client gets, in order, the packet a fresh build would make of every segment. */
  method PumpCoalesced(buffer: array<Byte>, n: nat, segment: nat, limit: nat, truncated: bool,
                       remote: Proto.Ip, port: Proto.Port, client: nat, clientPort: nat, writer: S.Writer)
    returns (written: nat, ghost pieces: seq<Bytes>)
    requires OFFSET + n <= buffer.Length && remote.Valid() && writer.slots.Length >= S.MAX_SEGMENTS
    modifies buffer, writer.socket, writer.slots
    ensures pieces == S.Split(old(buffer[OFFSET..OFFSET + n]), segment, limit, truncated)
    ensures var dropped := clientPort == 0 || truncated || ((segment == 0 || segment > limit) && n > limit);
            var all := if dropped then [] else ResponsesTo(client, remote, port, pieces);
            written <= |all| && writer.socket.sent == old(writer.socket.sent) + all[..written]
  {
    ghost var data := buffer[OFFSET..OFFSET + n];
    pieces := S.Split(data, segment, limit, truncated);
    S.SplitKeepsBytes(data, segment, limit, truncated);
    hide S.Split;
    var packets := S.ReadGro(buffer, OFFSET, n, segment, limit, truncated);
    if clientPort == 0 || packets[0].truncated {
      return 0, pieces;
    }
    var writes := PrepareAll(packets, pieces, remote, port, client);
    var failed, stalled;
    written, failed, stalled := writer.Write(writes);
  }
}
