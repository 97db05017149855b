# outway in Dafny

outway is a proxy server written in Go. It accepts SOCKS5 and HTTP clients, relays their
TCP and UDP traffic, and can send each connection from a different address of a configured
CIDR block. This project models the parts of it where correctness is hardest to see from
the code, and proves what those parts promise for every input, every reachable state or
every interleaving of goroutines.

Code that computes a value is modelled by functions. Code that loops over or rewrites its
own data is modelled by methods, arrays and classes proved against a specification.
Goroutines that share state are modelled as step systems: each step is one atomic action of
one goroutine, a run is any sequence of enabled steps, and invariants are proved for every
run. Random numbers, the clock, the kernel, the resolver and dial outcomes are parameters
or free choices of the run.

| file | content |
|---|---|
| `Words.dfy`, `Wrappers.dfy` | powers of two, bitwise operators on naturals, optional values |
| `Uint128.dfy`, `Modulo.dfy` | the two-limb integer and its modulo loop |
| `SourceAddress.dfy` | the outbound address chosen inside a CIDR block |
| `Collisions.dfy` | what the modulo loop does to each bit, and when two values share an address |
| `FxHash.dfy`, `Extensions.dfy` | the extension in a user name: parsing, hash, windowed ttl value |
| `Proto.dfy`, `Session.dfy` | SOCKS5 wire format, handshake, dispatch, CONNECT tunnel |
| `Segments.dfy` | UDP_SEGMENT packing, UDP_GRO splitting, the batch writer |
| `BatchReader.dfy` | the batched UDP read on the reader's own arrays |
| `Responder.dfy` | one pump of target responses, from read to write to release |
| `Relay.dfy` | buffers, slots, queues and counters of the UDP relay |
| `Reactor.dfy` | the shared epoll reactor |
| `DialRace.dfy`, `NestedRace.dfy` | the address race, the CIDR/fallback race, and one inside the other |
| `DnsCache.dfy` | the merging DNS cache |
| `Shutdown.dfy` | connection gate, sharded connection set and CloseAll |
| `TransportPool.dfy` | the HTTP transport pool as an LRU list |

`dafny verify dfyconfig.toml` checks the whole project.

## What the code does not do

Eleven properties one would expect are false of the code. Each comes with the exact condition
under which it holds.

- `modUint128` is a remainder for every 64-bit value exactly when the capacity 2^h - 1 fits
  one limb (`Modulo.RemainderIffOneLimb`). Above 64 host bits the result is known all the
  same: bit j lands at 2(63 - j) modulo h, bits that meet are joined, and the pair that
  meets in the last iteration carries (`Collisions.LoopResult`).
- Different session values need not get different addresses. `Collisions.SameAddressIff`
  says exactly which do; above 64 host bits all stay apart exactly when h is odd or 128
  (`Collisions.DistinctIff`).
- An IPv6 range address carries the extension value's bits except for prefix 0 with range
  128 and a nonzero value (`SourceAddress.RangeKeepsValueIff`).
- A UDP relay packet parses back exactly when its domain has at most 255 bytes
  (`Proto.UdpRoundTripIff`): `BuildUdpPacket` writes the low byte of a longer length.
- A batch accepted by `gsoEligible` reaches the wire unchanged exactly when its last
  datagram is not empty, or is empty and happens to start a send of its own
  (`Segments.GsoRoundTripIff`).
- The batch writer has room for every coalesced read exactly when the batch size is at
  least 64 (`Segments.ReadFitsWriterIff`).
- A registration whose `EPOLL_CTL_ADD` failed can have a running handler, and then its
  socket is closed under that handler and the fallback goroutine joins it in the same
  reader. In every run this needs a worker that held an older event of the descriptor when
  the registration was inserted (`Reactor.FailureNeedsStaleEvent`), and from every reachable
  state of an open reactor with such an event it can happen
  (`Reactor.AnyStaleEventBreaksIn`). Every other socket has one pump at a time.
- Shutdown does not always drain the send queues: a pump may see the lifetime alive, and send
  its job after the shard's worker left (`Relay.LateJobExample` is such a run). With all
  goroutines at rest everything is back exactly if no job was sent after an exit
  (`Relay.ShutdownReturnsIff`).
- Normalizing a DNS name twice is the same as once exactly unless it ends in two dots
  (`DnsCache.KeyIsStableIff`).
- A DNS answer is fresh counted from its publication (`DnsCache.AnswersAreTimely`). Counted
  from the resolver's return it may be stale (`DnsCache.LateAnswer` is such a run); all hits
  on an entry are fresh in that sense exactly when it was published in the instant the
  resolver returned (`DnsCache.EntryTimelyIffPrompt`).
- A caller whose own context is alive can be answered with a cancellation
  (`DnsCache.LiveCallerCancelled` is such a run). An answer is a cancellation exactly when
  the caller gave up, or the leader of the call it led or joined abandoned that call, which
  only a leader whose context ended does (`DnsCache.CancelledAnswerIff`); and while such a
  leader's call is unfinished, every live waiter may be answered that way
  (`DnsCache.LiveWaiterMayBeCancelled`).

## Model

| member | source | states |
|---|---|---|
| Uint128.SubValue | internal/connect/connect.go:736-743 | borrow across the limbs: subtraction is subtraction modulo 2^128 |
| Uint128.ShlValue | internal/connect/connect.go:710-721 | shifting by any amount multiplies by 2^n modulo 2^128, over the four limb cases |
| Uint128.ShiftedOneValue | internal/connect/connect.go:684-692 | one shifted by n is 2^n, and 0 from 128 on |
| Uint128.LowMaskValue | internal/connect/connect.go:695-703 | the mask of n low bits is 2^n - 1 for every n, saturating at 128 |
| Uint128.AndValue | internal/connect/connect.go:707 | limb-wise and is bitwise and of the 128-bit values |
| Uint128.OrValue | internal/connect/connect.go:708 | limb-wise or is bitwise or of the 128-bit values |
| Uint128.NotU | internal/connect/connect.go:705 | complement is 2^128 - 1 minus the value |
| Uint128.Cmp | internal/connect/connect.go:772-786 | the sign of the comparison is the order of the values |
| Modulo.ModUint128 | internal/connect/connect.go:746-770 | the loop with its early returns computes the specification whose range and remainder laws follow |
| Modulo.StepKeepsRange | internal/connect/connect.go:756-768 | a loop step is a rotation or a shift that keeps the result below 2^h - 1 and adds at most one set bit |
| Modulo.ModInRange | internal/connect/connect.go:746-770 | for every capacity 2^h - 1 and every 64-bit dividend the result is below the capacity |
| Modulo.FastPathIsRemainder | internal/connect/connect.go:750-752 | with both high limbs zero the result is the remainder |
| Modulo.SmallDividendResult | internal/connect/connect.go:753-769 | for more than 64 host bits the dividends 1 and 2 come out as a power of two that is not their remainder |
| Modulo.RemainderIffOneLimb | internal/connect/connect.go:746-770 | the helper is a remainder for every 64-bit value exactly when h <= 64 |
| SourceAddress.SessionInBlock | internal/connect/connect.go:551-570 | for every prefix length and 64-bit value the address keeps the block's top bits, its host part is never all ones, and from prefix 64 on it is the value modulo 2^h - 1 |
| Collisions.LoopResult | internal/connect/connect.go:753-769 | above 64 host bits, the result for every 64-bit value: each bit where it lands, those that meet joined, and one carry |
| Collisions.SameResultIff | internal/connect/connect.go:753-769 | two values give the same result exactly when they touch the same bits and carry alike |
| Collisions.DistinctIff | internal/connect/connect.go:746-770 | all values stay apart exactly for an odd number of host bits above 64, or 128 |
| Collisions.SameAddressIff | internal/connect/connect.go:551-570 | for every prefix length, exactly which session or ttl values share an address, whatever the range and the random words |
| Collisions.SessionHost | internal/connect/connect.go:551-570 | above 64 host bits, the host part of every session or ttl address, bit by bit |
| Collisions.BitRead | internal/connect/connect.go:757 | which dividend bit an iteration reads: the high limb in both halves of the loop |
| SourceAddress.RandomInBlock | internal/connect/connect.go:591-605 | a random address lies in the block and its host part is the random word's low bits |
| SourceAddress.RangeFields | internal/connect/connect.go:625-644 | network, value and random fields of a range address are each read back exactly |
| SourceAddress.RangeKeepsValueIff | internal/connect/connect.go:634-638 | the value's bits survive exactly outside prefix 0, range 128, value not 0 |
| SourceAddress.AssignInBlock | internal/connect/connect.go:551-578 | every policy yields an address inside the IPv6 block, for every configured range, also one shorter than the prefix |
| SourceAddress.SessionPolicy | internal/connect/connect.go:551-571 | a session or ttl value alone decides the address, whatever the range and the random words, and both kinds agree; from prefix 64 on the host part is the value modulo 2^h - 1, and prefix 128 is the block's own address |
| SourceAddress.RangePolicy | internal/connect/connect.go:571-575 | with a range the bits between prefix and range are the value's low bits, except for prefix 0, range 128, value not 0; the bits below are random |
| SourceAddress.RandomPolicy | internal/connect/connect.go:551-578 | without extension, without a range for a range value, or with one shorter than the prefix, the host part is the random word's low bits |
| SourceAddress.SessionInBlock4 | internal/connect/connect.go:526-540 | IPv4 session addresses stay in the block, host part the low word modulo 2^h - 1, never all ones |
| SourceAddress.RandomInBlock4 | internal/connect/connect.go:581-588 | IPv4 random addresses stay in the block |
| SourceAddress.RangeFields4 | internal/connect/connect.go:608-622 | the three fields of an IPv4 range address are read back exactly |
| SourceAddress.AssignInBlock4 | internal/connect/connect.go:526-548 | every policy yields an address inside the IPv4 block |
| SourceAddress.SessionPolicy4 | internal/connect/connect.go:526-540 | the IPv4 session and ttl addresses: decided by the low word of the value alone, modulo 2^h - 1 |
| SourceAddress.RangePolicy4 | internal/connect/connect.go:541-544 | the IPv4 range address: low bits of the value's low word between prefix and range, random bits below |
| SourceAddress.RandomPolicy4 | internal/connect/connect.go:526-548 | the IPv4 address of every other case has a random host part |
| FxHash.FxHash64 | internal/ext/ext.go:44-70 | the walk in eights, then 4, 2, 1 computes the fold of the mixing step over those chunks |
| FxHash.MixValue | internal/ext/ext.go:52 | a step in numbers: the state turned left by five bits, each bit combined with the word's, times the constant modulo 2^64 |
| FxHash.WordValue | internal/ext/ext.go:49-68 | the words of the four chunk sizes, least significant byte first |
| FxHash.MixInjectiveInState | internal/ext/ext.go:52 | with the word fixed, a step is injective in the state |
| FxHash.MixInjectiveInWord | internal/ext/ext.go:52 | with the state fixed, a step is injective in the word |
| FxHash.DifferentStatesStayDifferent | internal/ext/ext.go:44-70 | different states never meet again over any remaining bytes |
| FxHash.OneChunkNeverCollides | internal/ext/ext.go:44-70 | equal-length strings that differ inside a single chunk have different hashes |
| FxHash.ParseTtl | internal/ext/ext.go:105-117 | the big-endian byte loop hashes the window's start; no extension for a malformed or zero ttl |
| Extensions.ParseUint | internal/ext/ext.go:106 | digits only, at least one, below 2^64, with the loop's early exit |
| Extensions.NumeralIsRead | internal/ext/ext.go:106 | every number is read back from its numeral |
| Extensions.ReadIsNumeral | internal/ext/ext.go:106 | digits without a leading zero are the numeral of what they are read as |
| Extensions.ParseExtension | internal/ext/ext.go:78-117 | the marks are tried in order session, ttl, range and the tail becomes the extension |
| Extensions.TtlIff | internal/ext/ext.go:78-117 | a ttl extension comes from exactly the names prefix, mark, positive number, without a session mark |
| Extensions.TtlWritten | internal/ext/ext.go:89-93 | a positive number written after prefix and mark is the ttl asked for |
| Extensions.SessionIff | internal/ext/ext.go:84-87 | a session extension comes from exactly the names that continue the prefix and hold the mark anywhere, and its value is the hash of the whole name |
| Extensions.RangeIff | internal/ext/ext.go:95-99 | a range extension comes from exactly the names with its mark after the prefix and no other mark, and hashes the tail, without the mark where it comes first |
| Extensions.SessionNamesApart | internal/ext/ext.go:84-87 | session names that differ inside one chunk get different values and, for odd or 128 host bits, different addresses, whatever the range and the random words |
| FxHash.TtlValueIffSameWindow | internal/ext/ext.go:105-117 | two times give equal ttl values exactly when they lie in the same window |
| Proto.ParseEncoded | internal/server/socks/proto/address.go:65-133 | an encoded address followed by any bytes parses to itself and its exact length |
| Proto.ParsedIsEncoded | internal/server/socks/proto/address.go:99-133 | whatever parses was exactly the encoding of the result, so the format is canonical |
| Proto.WireLayout | internal/server/socks/proto/address.go:65-85 | the encoding in numbers: type byte 1, 4 or 3, address bytes or counted name, big-endian port |
| Proto.EncodedLen | internal/server/socks/proto/address.go:54-85 | the announced length is the encoded length |
| Proto.BuildEncodes | internal/server/socks/proto/udp.go:67-96 | the inlined encoder agrees with the address encoder |
| Proto.ParseBuiltPacket | internal/server/socks/proto/udp.go:55-96 | a built packet parses to its fragment, address and payload start |
| Proto.UdpRoundTripIff | internal/server/socks/proto/udp.go:55-96 | the packet round trip holds exactly for domains of at most 255 bytes |
| Proto.PrepareUdpResponse | internal/server/socks/server.go:820-845 | writing the header in place before the payload yields the packet a fresh build would, leaves payload and tail of the buffer alone, and unmaps the sender exactly on that path |
| Proto.PooledResponse | internal/server/socks/server.go:738-778 | an untruncated datagram in a pooled buffer takes the in-place path, fits the packet limit and parses back |
| Proto.AuthorizedIffSameAddress | internal/server/socks/server.go:884-905 | a packet is authorized exactly when both addresses unmap to the same one |
| Session.Connection.Read | internal/serverbase/serverbase.go:152-156 | one buffered read for any receive size: consumes a prefix, makes progress, and receives nothing while bytes are buffered |
| Session.Connection.ReadFull | internal/server/socks/proto/proto.go:15-18 | exactly the next k bytes of the stream, or nothing, however it is chunked |
| Session.ReadAddress | internal/server/socks/proto/address.go:136-176 | the stream parser accepts, returns and leaves over exactly what the slice parser does |
| Session.ReadGreeting | internal/server/socks/proto/handshake/request.go:30-51 | reads one counted method list after the version byte |
| Session.EvaluateMethod | internal/server/socks/proto/handshake/request.go:20-27 | true exactly when the client offered the method |
| Session.ReadCredentials | internal/server/socks/proto/handshake/password/request.go:20-43 | reads user name and password with their length bytes, for every chunking |
| Session.ReadRequest | internal/server/socks/proto/request.go:16-38 | reads version, known command, reserved byte and address |
| Session.ExecutePassword | internal/server/socks/auth.go:58-79 | accepts exactly when the configured name is a prefix of the client's and the password equal, writes 1 0 or 1 255 accordingly and parses the extension |
| Session.Authenticate | internal/server/socks/conn.go:32-53 | method selection and sub-negotiation write and consume exactly what the session's specification says |
| Session.Handle | internal/server/socks/server.go:202-244 | outcome, replies and unread bytes are a function of the client's bytes, not of their buffering |
| Session.ScriptIsServed | internal/server/socks/server.go:202-244 | every acceptable greeting, sub-negotiation and request reaches its handler with exactly the rest unread |
| Session.ServedIsScript | internal/server/socks/server.go:202-244 | every dispatched stream is such a sequence followed by the unread bytes |
| Session.HandlerReachedIff | internal/server/socks/server.go:202-244 | a handler runs if and only if the stream starts with an offered method, matching credentials where a password is set, and a request with command 1, 2 or 3, all in the bytes of the standards |
| Session.PasswordChecked | internal/server/socks/auth.go:64-76 | behind a password a handler runs only for a client that sent it with a name that continues the configured one |
| Session.Refusals | internal/server/socks/auth.go:64-76 | the replies of every session refused before its request, byte for byte: no method, malformed credentials, wrong credentials |
| Session.CopyBuffered | internal/server/socks/server.go:282-288 | forwards exactly the bytes read ahead, leaving the reader empty and the raw stream untouched |
| Session.HandleConnect | internal/server/socks/server.go:248-299 | after a successful dial the target receives every byte after the request, after a failed one none, and the reply says which |
| Session.ServeConnect | internal/server/socks/server.go:202-299 | a CONNECT script followed by a payload delivers exactly the payload, for every buffering |
| Segments.GsoEligible | internal/server/socks/server.go:939-962 | accepted exactly when enabled, two or more datagrams to one address, all but the last of the first's nonzero size, the last no larger |
| Segments.PackScratch | internal/server/socks/udp_gso_linux.go:83-93 | the inner loop fills the scratch buffer with the longest run of datagrams that fits |
| Segments.SendGso | internal/server/socks/udp_gso_linux.go:80-111 | the sends made are the first groups of the batch and the count returned is exactly their datagrams, for completed, failed and oversized batches |
| Segments.SendsAreBounded | internal/server/socks/udp_gso_linux.go:85-93 | every send has 1 to 64 segments and at most 64 KiB |
| Segments.WireHoldsSent | internal/server/socks/udp_gso_linux.go:80-111 | after any prefix of sends the kernel's segments are exactly the datagrams counted as sent |
| Segments.GsoRoundTripIff | internal/server/socks/udp_gso_linux.go:80-111 | cutting the packed sends gives the batch back exactly when the last datagram is nonempty or starts its own send |
| Segments.ReadGro | internal/server/socks/udp_io_linux.go:75-122 | every packet holds its segment at the offset of its own buffer, the first in the read buffer, all buffers distinct, all indices in bounds, truncation flags exact |
| Segments.SplitRead | internal/server/socks/udp_io_linux.go:97-121 | the splitting loop copies each segment, short last one included, up to 64 |
| Segments.SplitKeepsBytes | internal/server/socks/udp_io_linux.go:91-121 | the packets concatenate to the read, or its first 64 segments, and untruncated ones fit the limit |
| Segments.GsoThenGro | internal/server/socks/udp_io_linux.go:75-122 | a batch packed, received coalesced and split again is the same batch |
| Segments.WriteMessages | internal/server/socks/udp_io_linux.go:252-265 | retries send every message at most once and in order, all of them unless the kernel fails or takes none |
| Segments.Writer.Write | internal/server/socks/udp_io_linux.go:230-250 | fills the leading slots in place, in bounds for at most as many packets as slots, and sends a prefix of the packets in order |
| Segments.ReadFitsWriterIff | internal/server/socks/udp_io_linux.go:230-250 | every coalesced read fits the writer's slots exactly when the batch size is at least 64 |
| BatchReader.Runtime.TryAcquireBatchBuffer | internal/server/socks/udp_runtime.go:122-132 | takes a slot exactly while the budget has one left |
| BatchReader.Runtime.ReleaseBuffer | internal/server/socks/udp_runtime.go:134-139 | returns the buffer and, when it carries one, its slot; every buffer stays pooled or held, never both |
| BatchReader.Reader.TakeExtras | internal/server/socks/udp_io_linux.go:147-160 | takes as many buffers nobody held as batch size and free slots allow, one slot each |
| BatchReader.Reader.DrainExtras | internal/server/socks/udp_io_linux.go:164-198 | fills a packet per drained datagram and returns every unused buffer and slot, also when the drain fails |
| BatchReader.Reader.ReadBatch | internal/server/socks/udp_io_linux.go:124-199 | exact packet count and contents; afterwards precisely the returned packets' distinct buffers and one slot for each packet but the first are newly held, nothing after a failed read; batching is turned off exactly by a drain that is attempted and unsupported |
| Responder.PumpOnce | internal/server/socks/server.go:748-805 | one pump of a batched read: the write is in bounds, the client gets the responses to the untruncated datagrams in order, every buffer and slot taken is back |
| Responder.PumpCoalesced | internal/server/socks/server.go:748-805 | one pump of a coalesced read: with 64 slots the write is in bounds and each segment's packet, headed in place in its own buffer, is what a fresh build would send |
| Relay.PumpBalance | internal/server/socks/udp_io_linux.go:75-199 | each pump step moves buffers, slots and counts between hands without making or losing any |
| Relay.WorkerBalance | internal/server/socks/udp_runtime.go:219-255 | so does each worker step, in service and in the shutdown drain |
| Relay.NextKeepsInv | internal/server/socks/server.go:491-634 | every step of pumps, workers, shutdown and the pool keeps the invariant |
| Relay.RunsKeepInv | internal/server/socks/server.go:491-634 | in every run each buffer is in exactly one place, slots in use equal slots held within the budget, queueDepth and inbound counters account for everything, shards are first-in first-out |
| Relay.PumpReleasesSafely | internal/server/socks/udp_runtime.go:119-147 | no pump returns a buffer already in the pool, and returning a slot never blocks |
| Relay.WorkerReleasesSafely | internal/server/socks/udp_runtime.go:119-147 | nor does a worker |
| Relay.QuietMeansReturned | internal/server/socks/udp_runtime.go:219-255 | in every state with no pump or worker active everything but queued jobs is returned and every inbound packet is counted once |
| Relay.ExitDrains | internal/server/socks/udp_runtime.go:225-238 | a worker exits only with its queue empty, every job sent so far taken |
| Relay.LateJobsStay | internal/server/socks/udp_runtime.go:219-240 | in every run: after an exit the shard's queue holds exactly the jobs sent later, and everything sent before was taken |
| Relay.ShutdownReturnsIff | internal/server/socks/udp_runtime.go:219-255 | with every goroutine at rest and every worker gone, queueDepth is zero exactly if no job was sent after an exit, and then every slot and buffer is back |
| Relay.LateJobExample | internal/server/socks/udp_runtime.go:178-192 | a run in which a job is sent after the exit and stays |
| Relay.WorkersFinish | internal/server/socks/udp_runtime.go:219-240 | after the lifetime ended no worker waits for anything |
| Relay.PumpsMoveOn | internal/server/socks/server.go:491-634 | no pump ever waits for another goroutine |
| Relay.BuffersAreReused | internal/server/socks/udp_runtime.go:119 | an idle pump may take any pooled buffer instead of making one |
| Relay.ReadsAreBounded | internal/server/socks/udp_io_linux.go:75-199 | in every run a read has at most batchSize packets, or 64 segments, and only extra buffers carry slots |
| Relay.FillsToTheLimit | internal/server/socks/udp_io_linux.go:147-160 | a batch is filled to batchSize buffers unless the slots run out |
| Relay.AnyNumberIsRead | internal/server/socks/udp_io_linux.go:164-198 | the drain fills any number of the extra buffers, in order, behind the first datagram |
| Relay.PumpsStayThemselves | internal/server/socks/udp_io_linux.go:164-175 | batching is given up only after a drain that filled nothing |
| Relay.BatchingMayStop | internal/server/socks/udp_io_linux.go:164-175 | and then it may be |
| Relay.PacketsAreRouted | internal/server/socks/server.go:491-634 | where each packet of a batch goes: truncated, malformed, foreign and late ones are only dropped, and exactly the others count as inbound |
| Relay.PacketChoices | internal/server/socks/server.go:491-634 | every such way is there for an untruncated packet |
| Relay.DropsAreCounted | internal/server/socks/server.go:491-634 | each drop is counted under its own kind and nowhere else |
| Relay.DispatchIff | internal/server/socks/udp_runtime.go:178-192 | a packet goes to its association's shard while there is room and is dropped exactly if not |
| Relay.AssociationFifo | internal/server/socks/udp_runtime.go:178-192 | one association's jobs leave in dispatch order, from one shard |
| Relay.StartDispatcher | internal/server/socks/udp_runtime.go:194-217 | shard capacities are at least 1, differ by at most 1 and sum to the queue size |
| Relay.WorkerCountBounds | internal/server/socks/udp_runtime.go:194-206 | the configured number of workers, or twice the processors between 4 and 64, as far as the queue allows |
| Reactor.StepKeepsInv | internal/server/socks/udp_reactor_linux.go:71-141 | every step of register, deregister, rearm, close and the workers keeps tables, locks and wakeups consistent |
| Reactor.RunsKeepInv | internal/server/socks/udp_reactor_linux.go:71-141 | so does every run, with reused descriptors and stale events |
| Reactor.RunsAreSafe | internal/server/socks/udp_reactor_linux.go:71-141 | a handler runs in at most one worker, never after its deregister returned; a socket is closed only with its handler stopped, failed registrations with a stale event excepted; no readiness of a live registration is lost |
| Reactor.Rearms | internal/server/socks/udp_reactor_linux.go:87-91 | a handler that asks for more is rearmed while its registration is active |
| Reactor.OneShot | internal/server/socks/udp_reactor_linux.go:71-91 | one event per arming |
| Reactor.StoppedIff | internal/server/socks/udp_reactor_linux.go:105-141 | a registration stops being served exactly when its own handler ends without rearming |
| Reactor.GoneIff | internal/server/socks/udp_reactor_linux.go:111-127 | a worker leaves exactly at a wake-up event of a closed reactor |
| Reactor.CloseCanReturn | internal/server/socks/udp_reactor_linux.go:144-154 | from every reachable state all workers can exit, so close can return |
| Reactor.FailureNeedsStaleEvent | internal/server/socks/udp_reactor_linux.go:71-141 | in every run a handler is inside a registration that failed, and two pumps in one reader, only if a worker held an older event of the descriptor at its insertion |
| Reactor.FallbackEnds | internal/server/socks/server.go:638-658 | two pumps are over when the fallback goroutine ends |
| Reactor.StaleEventBreaksIn | internal/server/socks/server.go:638-658 | from every state with that event next, register can fail with the handler running and the fallback goroutine in the same pump |
| Reactor.AnyStaleEventBreaksIn | internal/server/socks/server.go:638-658 | the same from every reachable open state in which any worker holds such an event, wherever it is in its queue |
| Reactor.FailedRegistrationMayRun | internal/server/socks/udp_reactor_linux.go:71-85 | such a run from the start |
| DialRace.StepKeepsInv | internal/connect/connect.go:129-221 | every step of the race loop and its dial goroutines, refusals without a slot and nested connects included, keeps the accounts |
| DialRace.RunsKeepInv | internal/connect/connect.go:299-369 | in every run of either race completed < started <= n, exactly the first started dials ran and the timer is armed while dials remain |
| DialRace.TickStarts | internal/connect/connect.go:190-196 | a tick starts the lowest dial not started and nothing else; the timer runs again exactly while dials remain |
| DialRace.TickIdles | internal/connect/connect.go:190-196 | with every dial started a tick only stops the timer |
| DialRace.FailureStarts | internal/connect/connect.go:173-189 | a failed result ends the race if it was the last, and otherwise starts the next dial exactly if no other is under way |
| DialRace.ReturnsAtOnce | internal/connect/connect.go:171-199 | a connection received, or the end of the context, ends the race at once |
| DialRace.TimerLeads | internal/connect/connect.go:155-196 | while dials remain the timer leads to a tick |
| DialRace.TicksStart | internal/connect/connect.go:190-196 | in every run k ticks have started the first k + 1 dials, or all |
| DialRace.StartsAreStaggered | internal/connect/connect.go:165-196 | in every run a tick or a failed result starts at most one dial, and nothing else any |
| DialRace.DialsEnd | internal/connect/connect.go:135-202 | no run keeps the dials going: each goes through at most four steps |
| DialRace.DialsCanMove | internal/connect/connect.go:135-202 | every dial that has not ended can move on, and the end of the context frees those that wait |
| DialRace.MadeIff | internal/connect/connect.go:139-151 | a connection comes from a dial or an inner race that ended well, and from nothing else |
| DialRace.RaceAccounts | internal/connect/connect.go:129-202 | once all dials ended each connection made is returned or closed, never both or neither; dials stay within the slots; a dial error means every dial failed |
| DialRace.NobodyStuck | internal/connect/connect.go:135-202 | a loser can always drop its result, and a running race has a dial under way |
| DialRace.SourcesRaceIsAddressRace | internal/connect/connect.go:299-369 | every run of the two-source race is a run of the address race over two addresses, with the same dials, connections and result |
| DialRace.AddressRaceIsSourcesRace | internal/connect/connect.go:129-202 | and conversely, without idle timer steps |
| NestedRace.StepKeepsInv | internal/connect/connect.go:204-221 | every step of an address race whose dials are themselves races, with shared slots and nested contexts, keeps each race's invariant and their links |
| NestedRace.OuterIsARace | internal/connect/connect.go:129-202 | every run of the nested races is, seen from outside, a run of the address race |
| NestedRace.InnerIsARace | internal/connect/connect.go:299-369 | and for each address a run of its own two-source race |
| NestedRace.InnerBegins | internal/connect/connect.go:299-330 | which starts like any such race, under the outer race's context |
| NestedRace.SlotsAreShared | internal/connect/connect.go:204-221 | a waiting dial of any race gets a slot exactly while one is free, and gives up exactly when its context ended |
| NestedRace.NestedAccounts | internal/connect/connect.go:129-369 | in every run of the nested races dials stay within the slots, no connection is both returned and closed, once all ended each is one of the two, and a dial error means every source of every address failed or the caller's context ended |
| DnsCache.Cache.LookupCached | internal/connect/dns_cache.go:82-92 | answers only from a fresh positive entry of the normalized name |
| DnsCache.Cache.Enter | internal/connect/dns_cache.go:109-131 | under the lock: a fresh entry, the call in flight, or a new call, and the maps change accordingly |
| DnsCache.Cache.EvictLocked | internal/connect/dns_cache.go:169-187 | the map loops keep everything, or drop all expired entries and at most one other |
| DnsCache.Cache.Publish | internal/connect/dns_cache.go:135-154 | ends the flight and, for a live caller and a positive lifetime, leaves the outcome with expiry now + ttl for addresses and now + negativeTTL for a failure |
| DnsCache.PublishedIsServed | internal/connect/dns_cache.go:140-149 | after a publication the name is answered with it exactly until now + ttl for addresses, now + negativeTTL for a failure |
| DnsCache.PublishedIsNarrow | internal/connect/dns_cache.go:139-151 | nothing changes for a cancelled caller, a lifetime that is not positive or a cache without room, and other names are never altered |
| DnsCache.NextCallerIsAnswered | internal/connect/dns_cache.go:96-154 | the next caller of the name is answered from the publication until its lifetime is over and then misses |
| DnsCache.SameKeyIff | internal/connect/dns_cache.go:189-191 | names share a key exactly if they agree up to ASCII case, after one trailing dot is dropped |
| DnsCache.KeyIsStableIff | internal/connect/dns_cache.go:189-191 | a key is its own key exactly unless the name ended in two dots |
| DnsCache.CachedHitIsLookup | internal/connect/dns_cache.go:82-118 | a LookupCached hit is what Lookup would answer in the same state and time |
| DnsCache.EvictionIsBounded | internal/connect/dns_cache.go:169-187 | eviction makes room and removes at most one entry not expired at the inserter's start |
| DnsCache.PublishIsSection | internal/connect/dns_cache.go:135-154 | the step system's publication is the class's locked section |
| DnsCache.SlowPathIsSection | internal/connect/dns_cache.go:109-131 | and so is the step before resolving |
| DnsCache.StepKeepsInv | internal/connect/dns_cache.go:96-187 | every step of callers, resolver, cancellation and clock keeps the invariant |
| DnsCache.RunsKeepInv | internal/connect/dns_cache.go:96-187 | so does every run |
| DnsCache.CacheBounds | internal/connect/dns_cache.go:96-187 | cached and in-flight keys are disjoint, one unpublished call per key, running calls within the slots, entries within the bound |
| DnsCache.AnswersAreTimely | internal/connect/dns_cache.go:96-157 | every non-cancelled answer is a resolver result for the same normalized name, published after the caller started or less than ttl before for addresses, less than negativeTTL before for a failure |
| DnsCache.CanPublish | internal/connect/dns_cache.go:135-154 | a finished call can be published in every reachable state, whatever the configured size |
| DnsCache.CancelledAnswerIff | internal/connect/dns_cache.go:119-167 | in every run an answer is a cancellation exactly when the caller gave up or the call's leader, whose context had ended, abandoned it; never to a live leader |
| DnsCache.LiveWaiterMayBeCancelled | internal/connect/dns_cache.go:119-167 | from every reachable state, a live waiter of an unfinished call whose leader's context ended may be answered with the cancellation |
| DnsCache.LiveCallerCancelled | internal/connect/dns_cache.go:119-167 | a run from the start in which a live caller is |
| DnsCache.PromptAnswersAreTimely | internal/connect/dns_cache.go:133-154 | an answer published in the instant its resolver returned is also fresh counted from that return |
| DnsCache.EntryTimelyIffPrompt | internal/connect/dns_cache.go:133-154 | every hit on an entry is fresh counted from the resolver's return exactly when publication was immediate |
| DnsCache.LateAnswer | internal/connect/dns_cache.go:133-154 | a run in which a caller gets an answer older than its lifetime counted from the resolver's return |
| Shutdown.StepKeepsInv | internal/serverbase/serverbase.go:224-274 | every step of accept loops, handlers and CloseAll keeps the registry and the gate |
| Shutdown.RunsKeepInv | internal/server/http/server.go:161-216 | so does every run |
| Shutdown.ShutdownSafe | internal/serverbase/serverbase.go:224-274 | tokens equal holders within the limit, no Add succeeds on a marked shard, and after CloseAll every registered connection was unregistered or closed |
| Shutdown.RegistryIsExact | internal/serverbase/serverbase.go:230-274 | in every run the unmarked shards hold exactly the connections of running handlers, CloseAll closes registered ones only, and before shutdown no accepted connection is lost |
| Shutdown.ShardIsTopBits | internal/serverbase/serverbase.go:224-227 | the shard is the five top bits of the 64-bit product |
| Shutdown.LoopsMoveOn | internal/serverbase/serverbase.go:349-377 | once shutdown began every accept loop can stop, and before it only a full gate holds one back |
| Shutdown.NothingAdmittedAfterShutdown | internal/serverbase/serverbase.go:349-377 | no loop is admitted after shutdown began |
| Shutdown.CloseAllFinishes | internal/serverbase/serverbase.go:251-274 | from every reachable state CloseAll can run to its end on its own |
| Shutdown.CloserDescends | internal/serverbase/serverbase.go:251-274 | every step of CloseAll brings it closer to that end and no other step moves it |
| TransportPool.OrderIsMostRecent | internal/server/http/server.go:390-420 | moving to the front and cutting at 128 leaves exactly the 128 most recently requested distinct extensions |
| TransportPool.RecentByLastRequest | internal/server/http/server.go:390-420 | that list is sorted by time of last request |
| TransportPool.Pool.Oldest | internal/server/http/server.go:402-412 | the scan over stamps finds the end of the recency list |
| TransportPool.Pool.Get | internal/server/http/server.go:390-420 | the stamped map refines the recency list, stamps are distinct, and a resident key keeps its transport |

## Left out

- Socket options, buffer tuning, routes, REUSEPORT listeners, daemon management, self-update, logging and certificates: no provable content of their own.
- HTTP forwarding, TLS and Basic authentication: thin layers over the standard library.
- UDP ASSOCIATE set-up and BIND: listening, accepting and their replies; BIND forwards read-ahead bytes with the code CONNECT uses.
- Deadlines and half-close timing of the tunnel; only the client-to-target direction is followed, to the end of the client's stream.
- Failed writes of handshake replies: the session is modelled with writes that succeed.
- IPv6 zones; addresses are their 4 or 16 bytes.
- Non-Linux fallbacks of the UDP reader, writer and reactor.
- In-place updates by several goroutines (the reactor's map and locks, the runtime's queues, the race loops, the connection set) are steps on values; shared pointers are the identities of registrations, buffers, calls and connections.
- Liveness that depends on the kernel or the netpoller, such as that deregister returns.
- Relay.RunsKeepInv: each pump runs sequentially, one per socket. That is what the reactor gives every socket except one whose registration failed with a stale event around (Reactor.FailureNeedsStaleEvent); two pumps in one reader are not modelled. It works on buffer identities, not bytes; the bytes are in Segments, Proto and Responder. The reader's loops, proved in BatchReader and Segments, are steps there, because other goroutines run between their operations. The pool may lose buffers, as sync.Pool may.
- Relay.QuietMeansReturned: speaks of states, so it allows queued jobs; Relay.ShutdownReturnsIff says for runs when there are none.
- Shutdown.StepKeepsInv: a loop waiting for a token may give up at any time once shutdown began, which covers the code's order of checks.
- DnsCache.Cache.EvictLocked: the entry dropped when nothing expired is any entry, as map iteration order is.
- DnsCache.AnswersAreTimely: lower-casing is ASCII only; a lifetime counts from publication. An error the resolver returns because the leader's context ended is a cancellation here.
- TransportPool.Pool.Get: the use clock does not wrap at 2^64, and evicted transports are not followed to their idle connections.
- Segments.SendGso: starts with the socket address and control message in place, and takes the segment size to fit its 16-bit field.
- Session.Handle: a refused session leaves its unread bytes unspecified, since the connection is closed.
