/** The UDP relay data path as an interleaving of socket pumps, send workers and
    shutdown. Pooled buffers, batch slots, queued jobs and counters are tracked
    through every step, so that nothing is leaked, shared or released twice. */
module Relay {

  // ---- tokens: what a goroutine may be holding ----

  type BufId = nat

  datatype Token =
    | Buf(id: BufId)   // a pooled buffer
    | Slot             // one unit of the global batch budget
    | Sent             // a queued job not yet added to queueDepth
    | Received         // a dequeued job not yet subtracted from queueDepth
    | Pending          // an inbound packet not yet counted in any metric

  /** A buffer together with the batchSlot flag that travels with it. */
  datatype Held = Held(buf: BufId, slot: bool)

  function One(t: Token, u: Token): nat {
    if t == u then 1 else 0
  }

  /** How many tokens equal to t a held buffer stands for. */
  function HeldCount(t: Token, h: Held): nat {
    One(t, Buf(h.buf)) + if h.slot then One(t, Slot) else 0
  }

  function HeldsCount(t: Token, hs: seq<Held>): nat {
    if hs == [] then 0 else HeldCount(t, hs[0]) + HeldsCount(t, hs[1..])
  }

  lemma {:induction false} HeldsCountConcat(t: Token, a: seq<Held>, b: seq<Held>)
    ensures HeldsCount(t, a + b) == HeldsCount(t, a) + HeldsCount(t, b)
  {
    if a == [] {
      assert a + b == b;
    } else {
      assert (a + b)[0] == a[0] && (a + b)[1..] == a[1..] + b;
      HeldsCountConcat(t, a[1..], b);
    }
  }

  lemma HeldsCountOne(t: Token, hs: seq<Held>, h: Held)
    ensures HeldsCount(t, [h]) == HeldCount(t, h)
    ensures HeldsCount(t, hs + [h]) == HeldsCount(t, hs) + HeldCount(t, h)
  {
    assert [h][1..] == [];
    HeldsCountConcat(t, hs, [h]);
  }

  datatype Packet = Packet(held: Held, truncated: bool)

  function Helds(packets: seq<Packet>): (hs: seq<Held>)
    ensures |hs| == |packets|
    ensures forall i | 0 <= i < |hs| :: hs[i] == packets[i].held
  {
    seq(|packets|, i requires 0 <= i < |packets| => packets[i].held)
  }

  datatype Job = Job(association: nat, held: Held)

  // ---- pumps: one socket's reader and what it does with each batch ----

  /** The packets of one read being forwarded: those left, the one being dropped or
      dispatched, the two send batches, and the packets counted so far. */
  datatype Batch = Batch(todo: seq<Packet>, dropping: seq<Held>, checked: seq<Held>, uncounted: bool,
                         preferred: seq<Held>, fallback: seq<Held>, batchIn: nat)

  datatype Point =
    | Idle
    | Blocked(first: BufId)
    | Filling(head: Packet, extras: seq<Held>, bare: bool)
    | Draining(lead: Packet, spares: seq<Held>)
    | Splitting(segments: seq<Packet>)
    | Trimming(packets: seq<Packet>, unused: seq<Held>)
    | Processing(batch: Batch)
    | Flushing(releasing: seq<Held>, waiting: seq<Held>)

  datatype Pump = Pump(association: nat, inbound: bool, gro: bool, batchDisabled: bool, at: Point)

  datatype Worker =
    | Ready
    | Took(held: Held, leaving: bool)
    | Releasing(rest: seq<Held>, leaving: bool)
    | Leaving
    | Exited

  datatype Drop = Truncated | Malformed | Fragment | Unauthorized

  /** The one shared operation a step may perform. */
  datatype Op =
    | Local
    | Get(buf: BufId)
    | Put(buf: BufId)
    | Acquire
    | AcquireFails
    | ReleaseSlot
    | ReadIn(n: nat)
    | DropIn(kind: Drop)
    | TruncatedOut
    | CountIn(n: nat)
    | LifetimeAlive
    | LifetimeOver
    | Enqueue(job: Job)
    | QueueFull
    | CountSend
    | Take(job: Job)
    | QueueEmpty
    | CountTake

  const GRO_MAX_SEGMENTS := 64

  /** releaseBuffer: give the slot back first, then the buffer. */
  predicate ReleaseHead(rest: seq<Held>, op: Op, rest': seq<Held>) {
    && rest != []
    && if rest[0].slot
       then op == ReleaseSlot && rest' == [rest[0].(slot := false)] + rest[1..]
       else op == Put(rest[0].buf) && rest' == rest[1..]
  }

  /** The blocking read of the first datagram. */
  predicate BlockedStep(batchSize: nat, p: Pump, first: BufId, op: Op, q: Pump) {
    if op == Put(first) then q == p.(at := Idle)
    else
      && op == Local
      && q == p.(at := q.at)
      && if p.gro then q.at.Splitting? && Helds(q.at.segments) == [Held(first, false)]
         else if batchSize == 1 || p.batchDisabled then
           q.at.Trimming? && Helds(q.at.packets) == [Held(first, false)] && q.at.unused == []
         else q.at.Filling? && q.at.head.held == Held(first, false) && q.at.extras == [] && !q.at.bare
  }

  /** Taking a slot and a buffer for each further datagram of the batch. */
  predicate FillStep(batchSize: nat, head: Packet, extras: seq<Held>, bare: bool, op: Op, at: Point) {
    if bare then op.Get? && at == Filling(head, extras + [Held(op.buf, true)], false)
    else if |extras| + 1 >= batchSize then op == Local && at == Draining(head, extras)
    else if op == Acquire then at == Filling(head, extras, true)
    else op == AcquireFails && at == Draining(head, extras)
  }

  /** The non-blocking batch read fills a prefix of the extra buffers, or fails. */
  predicate DrainStep(lead: Packet, spares: seq<Held>, at: Point) {
    && at.Trimming?
    && 1 <= |at.packets| <= |spares| + 1
    && at.packets[0] == lead
    && Helds(at.packets) == [lead.held] + spares[..|at.packets| - 1]
    && at.unused == spares[|at.packets| - 1..]
  }

  /** Copying one more coalesced segment into its own buffer. */
  predicate SplitStep(segments: seq<Packet>, op: Op, at: Point) {
    if op.Get? then
      && segments != [] && !segments[0].truncated && |segments| < GRO_MAX_SEGMENTS
      && at == Splitting(segments + [Packet(Held(op.buf, false), false)])
    else op == Local && at == Trimming(segments, [])
  }

  /** Releasing the extra buffers that received nothing, then returning the packets. */
  predicate TrimStep(inbound: bool, packets: seq<Packet>, unused: seq<Held>, op: Op, at: Point) {
    if unused != [] then
      at.Trimming? && at.packets == packets && ReleaseHead(unused, op, at.unused)
    else
      && op == (if inbound then ReadIn(|packets|) else Local)
      && at == Processing(Batch(packets, [], [], false, [], [], 0))
  }

  datatype Destination = ToDropping | ToChecked | ToPreferred | ToFallback

  /** Hand the next packet over, counting it as inbound traffic or not. */
  function Route(b: Batch, to: Destination, counted: bool): Batch
    requires b.todo != []
  {
    var held := b.todo[0].held;
    var c := b.(todo := b.todo[1..], batchIn := b.batchIn + if counted then 1 else 0);
    match to
    case ToDropping => c.(dropping := [held])
    case ToChecked => c.(checked := [held])
    case ToPreferred => c.(preferred := b.preferred + [held])
    case ToFallback => c.(fallback := b.fallback + [held])
  }

  /** What happens to the next packet of the batch. */
  predicate PacketStep(inbound: bool, b: Batch, op: Op, c: Batch)
    requires b.todo != []
  {
    if b.todo[0].truncated then
      op == (if inbound then DropIn(Truncated) else TruncatedOut) && c == Route(b, ToDropping, false)
    else if op.DropIn? then
      inbound && op.kind != Truncated && c == Route(b, ToDropping, false)
    else if !inbound then
      op == Local && (c == Route(b, ToDropping, false) || c == Route(b, ToPreferred, false))
    else if op == LifetimeAlive then c == Route(b, ToChecked, true)
    else if op == LifetimeOver then c == Route(b, ToDropping, true)
    else op == Local && (c == Route(b, ToPreferred, true) || c == Route(b, ToFallback, true))
  }

  /** inboundPump and pumpOnce between the read and the flushes. */
  predicate BatchStep(association: nat, inbound: bool, b: Batch, op: Op, c: Batch) {
    if b.dropping != [] then ReleaseHead(b.dropping, op, c.dropping) && c == b.(dropping := c.dropping)
    else if b.uncounted then op == CountSend && c == b.(uncounted := false)
    else if b.checked != [] then
      if op == QueueFull then c == b.(checked := [], dropping := b.checked)
      else op == Enqueue(Job(association, b.checked[0])) && c == b.(checked := b.checked[1..], uncounted := true)
    else b.todo != [] && PacketStep(inbound, b, op, c)
  }

  predicate BatchDone(b: Batch) {
    b.dropping == [] && b.checked == [] && !b.uncounted && b.todo == []
  }

  predicate FlushStep(releasing: seq<Held>, waiting: seq<Held>, op: Op, at: Point) {
    if releasing != [] then
      at.Flushing? && at.waiting == waiting && ReleaseHead(releasing, op, at.releasing)
    else op == Local && at == if waiting != [] then Flushing(waiting, []) else Idle
  }

  predicate PumpStep(batchSize: nat, p: Pump, op: Op, q: Pump) {
    match p.at
    case Idle => op.Get? && q == p.(at := Blocked(op.buf))
    case Blocked(first) => BlockedStep(batchSize, p, first, op, q)
    case Filling(head, extras, bare) =>
      FillStep(batchSize, head, extras, bare, op, q.at) && q == p.(at := q.at)
    case Draining(lead, spares) =>
      && op == Local && DrainStep(lead, spares, q.at)
      && (q == p.(at := q.at) || (q.at.unused == spares && q == p.(at := q.at, batchDisabled := true)))
    case Splitting(segments) => SplitStep(segments, op, q.at) && q == p.(at := q.at)
    case Trimming(packets, unused) => TrimStep(p.inbound, packets, unused, op, q.at) && q == p.(at := q.at)
    case Processing(batch) =>
      if BatchDone(batch)
      then op == CountIn(batch.batchIn) && q == p.(at := Flushing(batch.preferred, batch.fallback))
      else q.at.Processing? && BatchStep(p.association, p.inbound, batch, op, q.at.batch) && q == p.(at := q.at)
    case Flushing(releasing, waiting) => FlushStep(releasing, waiting, op, q.at) && q == p.(at := q.at)
  }

  /** A send worker: run jobs until the lifetime ends, then drain the queue. */
  predicate WorkerStep(w: Worker, op: Op, v: Worker) {
    match w
    case Ready =>
      || (op.Take? && v == Took(op.job.held, false))
      || (op == LifetimeOver && v == Leaving)
    case Took(held, leaving) => op == CountTake && v == Releasing([held], leaving)
    case Releasing(rest, leaving) =>
      if rest != [] then v.Releasing? && ReleaseHead(rest, op, v.rest) && v == Releasing(v.rest, leaving)
      else op == Local && v == (if leaving then Leaving else Ready)
    case Leaving =>
      || (op.Take? && v == Took(op.job.held, true))
      || (op == QueueEmpty && v == Exited)
    case Exited => false
  }

  // ---- what each program point holds ----

  function BatchCount(t: Token, inbound: bool, b: Batch): nat {
    HeldsCount(t, Helds(b.todo)) + HeldsCount(t, b.dropping) + HeldsCount(t, b.checked)
    + HeldsCount(t, b.preferred) + HeldsCount(t, b.fallback)
    + (if b.uncounted then One(t, Sent) else 0)
    + (if t == Pending then b.batchIn + (if inbound then |b.todo| else 0) else 0)
  }

  function PointCount(t: Token, inbound: bool, at: Point): nat {
    match at
    case Idle => 0
    case Blocked(first) => One(t, Buf(first))
    case Filling(head, extras, bare) =>
      HeldCount(t, head.held) + HeldsCount(t, extras) + if bare then One(t, Slot) else 0
    case Draining(lead, spares) => HeldCount(t, lead.held) + HeldsCount(t, spares)
    case Splitting(segments) => HeldsCount(t, Helds(segments))
    case Trimming(packets, unused) => HeldsCount(t, Helds(packets)) + HeldsCount(t, unused)
    case Processing(batch) => BatchCount(t, inbound, batch)
    case Flushing(releasing, waiting) => HeldsCount(t, releasing) + HeldsCount(t, waiting)
  }

  function PumpCount(t: Token, p: Pump): nat {
    PointCount(t, p.inbound, p.at)
  }

  function WorkerCount(t: Token, w: Worker): nat {
    match w
    case Took(held, _) => HeldCount(t, held) + One(t, Received)
    case Releasing(rest, _) => HeldsCount(t, rest)
    case _ => 0
  }

  function Gain(t: Token, op: Op): nat {
    match op
    case Get(b) => One(t, Buf(b))
    case Acquire => One(t, Slot)
    case ReadIn(n) => if t == Pending then n else 0
    case Enqueue(_) => One(t, Sent)
    case Take(job) => HeldCount(t, job.held) + One(t, Received)
    case _ => 0
  }

  function Loss(t: Token, op: Op): nat {
    match op
    case Put(b) => One(t, Buf(b))
    case ReleaseSlot => One(t, Slot)
    case DropIn(_) => One(t, Pending)
    case CountIn(n) => if t == Pending then n else 0
    case Enqueue(job) => HeldCount(t, job.held)
    case CountSend => One(t, Sent)
    case CountTake => One(t, Received)
    case _ => 0
  }

  lemma ReleaseBalance(t: Token, rest: seq<Held>, op: Op, rest': seq<Held>)
    requires ReleaseHead(rest, op, rest')
    ensures HeldsCount(t, rest') + Loss(t, op) == HeldsCount(t, rest) + Gain(t, op)
  {
    if rest[0].slot {
      assert rest'[0] == rest[0].(slot := false) && rest'[1..] == rest[1..];
    }
  }

  lemma BlockedBalance(t: Token, batchSize: nat, p: Pump, first: BufId, op: Op, q: Pump)
    requires BlockedStep(batchSize, p, first, op, q)
    ensures PumpCount(t, q) + Loss(t, op) == PointCount(t, p.inbound, Blocked(first)) + Gain(t, op)
  {
    HeldsCountOne(t, [], Held(first, false));
  }

  lemma IdleBalance(t: Token, inbound: bool, op: Op)
    requires op.Get?
    ensures PointCount(t, inbound, Blocked(op.buf)) + Loss(t, op) == PointCount(t, inbound, Idle) + Gain(t, op)
  {
  }

  lemma DoneBalance(t: Token, inbound: bool, b: Batch)
    requires BatchDone(b)
    ensures PointCount(t, inbound, Flushing(b.preferred, b.fallback)) + Loss(t, CountIn(b.batchIn))
         == PointCount(t, inbound, Processing(b)) + Gain(t, CountIn(b.batchIn))
  {
    HeldsCountNone(t);
  }

  lemma ProcessingBalance(t: Token, association: nat, inbound: bool, b: Batch, op: Op, c: Batch)
    requires BatchStep(association, inbound, b, op, c)
    ensures PointCount(t, inbound, Processing(c)) + Loss(t, op) == PointCount(t, inbound, Processing(b)) + Gain(t, op)
  {
    BatchBalance(t, association, inbound, b, op, c);
  }

  lemma FillBalance(t: Token, batchSize: nat, head: Packet, extras: seq<Held>, bare: bool, op: Op, at: Point, inbound: bool)
    requires FillStep(batchSize, head, extras, bare, op, at)
    ensures PointCount(t, inbound, at) + Loss(t, op)
         == PointCount(t, inbound, Filling(head, extras, bare)) + Gain(t, op)
  {
    if bare {
      HeldsCountOne(t, extras, Held(op.buf, true));
    }
  }

  lemma DrainBalance(t: Token, lead: Packet, spares: seq<Held>, at: Point, inbound: bool)
    requires DrainStep(lead, spares, at)
    ensures PointCount(t, inbound, at) + Loss(t, Local) == PointCount(t, inbound, Draining(lead, spares)) + Gain(t, Local)
  {
    var d := |at.packets| - 1;
    HeldsCountOne(t, [], lead.held);
    assert spares == spares[..d] + spares[d..];
    HeldsCountConcat(t, spares[..d], spares[d..]);
    HeldsCountConcat(t, [lead.held], spares[..d]);
  }

  lemma SplitBalance(t: Token, segments: seq<Packet>, op: Op, at: Point, inbound: bool)
    requires SplitStep(segments, op, at)
    ensures PointCount(t, inbound, at) + Loss(t, op) == PointCount(t, inbound, Splitting(segments)) + Gain(t, op)
  {
    if op.Get? {
      HeldsCountOne(t, Helds(segments), Held(op.buf, false));
      assert Helds(at.segments) == Helds(segments) + [Held(op.buf, false)];
    }
  }

  lemma TrimBalance(t: Token, inbound: bool, packets: seq<Packet>, unused: seq<Held>, op: Op, at: Point)
    requires TrimStep(inbound, packets, unused, op, at)
    ensures PointCount(t, inbound, at) + Loss(t, op)
         == PointCount(t, inbound, Trimming(packets, unused)) + Gain(t, op)
  {
    if unused != [] {
      ReleaseBalance(t, unused, op, at.unused);
    }
  }

  /** Routing moves the packet's tokens and settles its inbound count. */
  lemma RouteBalance(t: Token, inbound: bool, b: Batch, to: Destination, counted: bool)
    requires b.todo != [] && b.dropping == [] && b.checked == []
    ensures BatchCount(t, inbound, Route(b, to, counted))
            + (if t == Pending && inbound then 1 else 0)
         == BatchCount(t, inbound, b) + (if t == Pending && counted then 1 else 0)
  {
    hide HeldsCount, Helds, HeldCount;
    NextPacket(t, b.todo);
    HeldsCountNone(t);
    match to
    case ToPreferred => HeldsCountOne(t, b.preferred, b.todo[0].held);
    case ToFallback => HeldsCountOne(t, b.fallback, b.todo[0].held);
    case _ => HeldsCountOne(t, [], b.todo[0].held);
  }

  lemma PacketBalance(t: Token, inbound: bool, b: Batch, op: Op, c: Batch)
    requires b.todo != [] && b.dropping == [] && b.checked == []
    requires PacketStep(inbound, b, op, c)
    ensures BatchCount(t, inbound, c) + Loss(t, op) == BatchCount(t, inbound, b) + Gain(t, op)
  {
    hide BatchCount, Route;
    var counted := inbound && !op.DropIn?;
    RouteBalance(t, inbound, b, ToDropping, counted);
    RouteBalance(t, inbound, b, ToChecked, counted);
    RouteBalance(t, inbound, b, ToPreferred, counted);
    RouteBalance(t, inbound, b, ToFallback, counted);
  }

  lemma NextPacket(t: Token, todo: seq<Packet>)
    requires todo != []
    ensures HeldsCount(t, Helds(todo)) == HeldCount(t, todo[0].held) + HeldsCount(t, Helds(todo[1..]))
  {
    assert Helds(todo)[1..] == Helds(todo[1..]);
  }

  lemma HeldsCountNone(t: Token)
    ensures HeldsCount(t, []) == 0 && HeldsCount(t, Helds([])) == 0
  {
  }

  lemma BatchBalance(t: Token, association: nat, inbound: bool, b: Batch, op: Op, c: Batch)
    requires BatchStep(association, inbound, b, op, c)
    ensures BatchCount(t, inbound, c) + Loss(t, op) == BatchCount(t, inbound, b) + Gain(t, op)
  {
    if b.dropping != [] {
      ReleaseBalance(t, b.dropping, op, c.dropping);
    } else if b.uncounted {
    } else if b.checked != [] {
    } else {
      PacketBalance(t, inbound, b, op, c);
    }
  }

  lemma FlushBalance(t: Token, inbound: bool, releasing: seq<Held>, waiting: seq<Held>, op: Op, at: Point)
    requires FlushStep(releasing, waiting, op, at)
    ensures PointCount(t, inbound, at) + Loss(t, op)
         == PointCount(t, inbound, Flushing(releasing, waiting)) + Gain(t, op)
  {
    if releasing != [] {
      ReleaseBalance(t, releasing, op, at.releasing);
    }
  }

  /** A step holds what it held before, plus what its shared operation handed out, minus
      what it handed in. */
  lemma PumpBalance(t: Token, batchSize: nat, p: Pump, op: Op, q: Pump)
    requires PumpStep(batchSize, p, op, q)
    ensures PumpCount(t, q) + Loss(t, op) == PumpCount(t, p) + Gain(t, op)
  {
    hide BlockedStep, FillStep, DrainStep, SplitStep, TrimStep, BatchStep, FlushStep, BatchDone, PointCount, Gain, Loss;
    if p.at.Processing? {
      BatchPumpBalance(t, batchSize, p, op, q);
    } else {
      ReadPumpBalance(t, batchSize, p, op, q);
    }
  }

  lemma BatchPumpBalance(t: Token, batchSize: nat, p: Pump, op: Op, q: Pump)
    requires PumpStep(batchSize, p, op, q) && p.at.Processing?
    ensures PumpCount(t, q) + Loss(t, op) == PumpCount(t, p) + Gain(t, op)
  {
    hide BatchStep, BatchDone, PointCount, Gain, Loss;
    if BatchDone(p.at.batch) {
      DoneBalance(t, p.inbound, p.at.batch);
    } else {
      ProcessingBalance(t, p.association, p.inbound, p.at.batch, op, q.at.batch);
    }
  }

  lemma ReadPumpBalance(t: Token, batchSize: nat, p: Pump, op: Op, q: Pump)
    requires PumpStep(batchSize, p, op, q) && !p.at.Processing?
    ensures PumpCount(t, q) + Loss(t, op) == PumpCount(t, p) + Gain(t, op)
  {
    hide BlockedStep, FillStep, DrainStep, SplitStep, TrimStep, BatchStep, FlushStep, BatchDone, PointCount, Gain, Loss;
    match p.at
    case Idle => IdleBalance(t, p.inbound, op);
    case Blocked(first) => BlockedBalance(t, batchSize, p, first, op, q);
    case Filling(head, extras, bare) => FillBalance(t, batchSize, head, extras, bare, op, q.at, p.inbound);
    case Draining(lead, spares) => DrainBalance(t, lead, spares, q.at, p.inbound);
    case Splitting(segments) => SplitBalance(t, segments, op, q.at, p.inbound);
    case Trimming(packets, unused) => TrimBalance(t, p.inbound, packets, unused, op, q.at);
    case Flushing(releasing, waiting) => FlushBalance(t, p.inbound, releasing, waiting, op, q.at);
  }

  lemma WorkerBalance(t: Token, w: Worker, op: Op, v: Worker)
    requires WorkerStep(w, op, v)
    ensures WorkerCount(t, v) + Loss(t, op) == WorkerCount(t, w) + Gain(t, op)
  {
    match w
    case Took(held, _) => HeldsCountOne(t, [], held);
    case Releasing(rest, _) =>
      if rest != [] {
        ReleaseBalance(t, rest, op, v.rest);
      }
    case _ =>
  }

  // ---- the shared runtime ----

  datatype Metrics = Metrics(truncated: nat, malformed: nat, fragment: nat, unauthorized: nat, inPackets: nat)

  /** The pool, the batch slots, the shard queues and the counters. A sync.Pool may drop
      what it holds at any time: those buffers move to `lost`. `inboundRead` and
      `truncatedOut` are history: packets returned by inbound reads, and responses
      dropped as truncated. `sent` and `taken` are each shard's history. */
  datatype Shared = Shared(
    created: nat, pool: multiset<BufId>, lost: multiset<BufId>,
    budget: nat, slotsUsed: int,
    alive: bool,
    capacities: seq<nat>, queues: seq<seq<Job>>, sent: seq<seq<Job>>, taken: seq<seq<Job>>, depth: int,
    metrics: Metrics, inboundRead: nat, truncatedOut: nat)

  predicate ShardsMatch(h: Shared) {
    |h.queues| == |h.capacities| == |h.sent| == |h.taken| > 0
  }

  function AddDrop(m: Metrics, kind: Drop): Metrics {
    match kind
    case Truncated => m.(truncated := m.truncated + 1)
    case Malformed => m.(malformed := m.malformed + 1)
    case Fragment => m.(fragment := m.fragment + 1)
    case Unauthorized => m.(unauthorized := m.unauthorized + 1)
  }

  /** Whether shard k's runtime allows the operation now. */
  predicate Enabled(h: Shared, k: nat, op: Op)
    requires ShardsMatch(h) && k < |h.queues|
  {
    match op
    case Get(b) => h.pool[b] > 0 || b == h.created
    case Acquire => h.slotsUsed < h.budget
    case AcquireFails => h.slotsUsed >= h.budget
    case ReleaseSlot => h.slotsUsed > 0
    case LifetimeAlive => h.alive
    case LifetimeOver => !h.alive
    case Enqueue(job) => |h.queues[k]| < h.capacities[k]
    case QueueFull => |h.queues[k]| >= h.capacities[k]
    case Take(job) => h.queues[k] != [] && h.queues[k][0] == job
    case QueueEmpty => h.queues[k] == []
    case _ => true
  }

  function Apply(h: Shared, k: nat, op: Op): Shared
    requires ShardsMatch(h) && k < |h.queues| && Enabled(h, k, op)
  {
    match op
    case Get(b) =>
      if h.pool[b] > 0 then h.(pool := h.pool - multiset{b}) else h.(created := h.created + 1)
    case Put(b) => h.(pool := h.pool + multiset{b})
    case Acquire => h.(slotsUsed := h.slotsUsed + 1)
    case ReleaseSlot => h.(slotsUsed := h.slotsUsed - 1)
    case ReadIn(n) => h.(inboundRead := h.inboundRead + n)
    case DropIn(kind) => h.(metrics := AddDrop(h.metrics, kind))
    case TruncatedOut => h.(metrics := AddDrop(h.metrics, Truncated), truncatedOut := h.truncatedOut + 1)
    case CountIn(n) => h.(metrics := h.metrics.(inPackets := h.metrics.inPackets + n))
    case Enqueue(job) =>
      h.(queues := h.queues[k := h.queues[k] + [job]], sent := h.sent[k := h.sent[k] + [job]])
    case CountSend => h.(depth := h.depth + 1)
    case Take(job) =>
      h.(queues := h.queues[k := h.queues[k][1..]], taken := h.taken[k := h.taken[k] + [job]])
    case CountTake => h.(depth := h.depth - 1)
    case _ => h
  }

  // ---- the system ----

  datatype State = State(shared: Shared, batchSize: nat, pumps: seq<Pump>, workers: seq<Worker>)

  predicate WellFormed(s: State) {
    ShardsMatch(s.shared) && |s.workers| == |s.shared.queues|
  }

  /** dispatch picks the shard from the association number. */
  function ShardOf(h: Shared, association: nat): nat
    requires ShardsMatch(h)
  {
    association % |h.queues|
  }

  predicate PumpMoves(s: State, i: nat, op: Op, s': State)
    requires WellFormed(s)
  {
    && i < |s.pumps| == |s'.pumps|
    && PumpStep(s.batchSize, s.pumps[i], op, s'.pumps[i])
    && var k := ShardOf(s.shared, s.pumps[i].association);
       && Enabled(s.shared, k, op)
       && s' == s.(shared := Apply(s.shared, k, op), pumps := s.pumps[i := s'.pumps[i]])
  }

  predicate WorkerMoves(s: State, k: nat, op: Op, s': State)
    requires WellFormed(s)
  {
    && k < |s.workers| == |s'.workers|
    && WorkerStep(s.workers[k], op, s'.workers[k])
    && Enabled(s.shared, k, op)
    && s' == s.(shared := Apply(s.shared, k, op), workers := s.workers[k := s'.workers[k]])
  }

  predicate Shutdown(s: State, s': State) {
    s' == s.(shared := s.shared.(alive := false))
  }

  predicate PoolDrops(s: State, b: BufId, s': State) {
    && s.shared.pool[b] > 0
    && s' == s.(shared := s.shared.(pool := s.shared.pool - multiset{b}, lost := s.shared.lost + multiset{b}))
  }

  ghost predicate Next(s: State, s': State)
    requires WellFormed(s)
  {
    || (exists i, op :: PumpMoves(s, i, op, s'))
    || (exists k, op :: WorkerMoves(s, k, op, s'))
    || Shutdown(s, s')
    || (exists b :: PoolDrops(s, b, s'))
  }

  predicate Init(s: State) {
    && WellFormed(s)
    && (forall i | 0 <= i < |s.pumps| :: s.pumps[i].at == Idle)
    && (forall k | 0 <= k < |s.workers| :: s.workers[k] == Ready)
    && (forall k | 0 <= k < |s.shared.queues| ::
          s.shared.queues[k] == [] && s.shared.sent[k] == [] && s.shared.taken[k] == [])
    && s.shared.created == 0 && s.shared.pool == multiset{} && s.shared.lost == multiset{}
    && s.shared.slotsUsed == 0 && s.shared.depth == 0
    && s.shared.metrics == Metrics(0, 0, 0, 0, 0)
    && s.shared.inboundRead == 0 && s.shared.truncatedOut == 0
  }

  // ---- totals over all goroutines and queues ----

  function Sum<T>(xs: seq<T>, f: T -> nat): nat {
    if xs == [] then 0 else f(xs[0]) + Sum(xs[1..], f)
  }

  lemma {:induction false} SumUpdate<T>(xs: seq<T>, i: nat, x: T, f: T -> nat)
    requires i < |xs|
    ensures Sum(xs[i := x], f) + f(xs[i]) == Sum(xs, f) + f(x)
  {
    if i == 0 {
      assert xs[i := x][1..] == xs[1..];
    } else {
      assert xs[i := x][1..] == xs[1..][i - 1 := x];
      SumUpdate(xs[1..], i - 1, x, f);
    }
  }

  lemma {:induction false} SumZero<T>(xs: seq<T>, f: T -> nat)
    requires forall i | 0 <= i < |xs| :: f(xs[i]) == 0
    ensures Sum(xs, f) == 0
  {
    if xs != [] {
      SumZero(xs[1..], f);
    }
  }

  function JobHelds(jobs: seq<Job>): (hs: seq<Held>)
    ensures |hs| == |jobs|
  {
    seq(|jobs|, i requires 0 <= i < |jobs| => jobs[i].held)
  }

  function QueueCount(t: Token, jobs: seq<Job>): nat {
    HeldsCount(t, JobHelds(jobs))
  }

  function PumpCounter(t: Token): Pump -> nat {
    p => PumpCount(t, p)
  }

  function WorkerCounter(t: Token): Worker -> nat {
    w => WorkerCount(t, w)
  }

  function QueueCounter(t: Token): seq<Job> -> nat {
    jobs => QueueCount(t, jobs)
  }

  function QueueLength(): seq<Job> -> nat {
    jobs => |jobs|
  }

  /** Tokens t held by goroutines. */
  function InHand(s: State, t: Token): nat {
    Sum(s.pumps, PumpCounter(t)) + Sum(s.workers, WorkerCounter(t))
  }

  /** Tokens t carried by queued jobs. */
  function Queued(h: Shared, t: Token): nat {
    Sum(h.queues, QueueCounter(t))
  }

  function QueuedJobs(h: Shared): nat {
    Sum(h.queues, QueueLength())
  }

  // ---- the invariant ----

  /** Every buffer ever made is in exactly one place. */
  ghost predicate OneOwner(s: State) {
    forall b: BufId ::
      s.shared.pool[b] + s.shared.lost[b] + InHand(s, Buf(b)) + Queued(s.shared, Buf(b))
      == if b < s.shared.created then 1 else 0
  }

  /** The slots in use are exactly those travelling with a buffer, within the budget. */
  predicate SlotsMatch(s: State) {
    s.shared.slotsUsed == InHand(s, Slot) + Queued(s.shared, Slot) <= s.shared.budget
  }

  /** queueDepth lags behind the queues by the sends and receives not yet counted. */
  predicate DepthMatches(s: State) {
    s.shared.depth == QueuedJobs(s.shared) - InHand(s, Sent) + InHand(s, Received)
  }

  /** Each inbound packet read is in exactly one counter, or still to be counted. */
  predicate CountersMatch(s: State) {
    var m := s.shared.metrics;
    s.shared.inboundRead + s.shared.truncatedOut
    == m.truncated + m.malformed + m.fragment + m.unauthorized + m.inPackets + InHand(s, Pending)
  }

  /** Each shard hands its jobs out in the order they were dispatched, within capacity,
      and only holds jobs of its own associations. */
  predicate ShardsFifo(h: Shared)
    requires ShardsMatch(h)
  {
    && (forall k | 0 <= k < |h.queues| :: h.sent[k] == h.taken[k] + h.queues[k])
    && (forall k | 0 <= k < |h.queues| :: |h.queues[k]| <= h.capacities[k])
    && (forall k, j | 0 <= k < |h.queues| && 0 <= j < |h.sent[k]| :: ShardOf(h, h.sent[k][j].association) == k)
  }

  ghost predicate Inv(s: State) {
    WellFormed(s) && OneOwner(s) && SlotsMatch(s) && DepthMatches(s) && CountersMatch(s) && ShardsFifo(s.shared)
  }

  // ---- one step ----

  lemma QueueAppend(t: Token, jobs: seq<Job>, job: Job)
    ensures QueueCount(t, jobs + [job]) == QueueCount(t, jobs) + HeldCount(t, job.held)
  {
    assert JobHelds(jobs + [job]) == JobHelds(jobs) + [job.held];
    HeldsCountOne(t, JobHelds(jobs), job.held);
  }

  lemma QueuePop(t: Token, jobs: seq<Job>)
    requires jobs != []
    ensures QueueCount(t, jobs) == HeldCount(t, jobs[0].held) + QueueCount(t, jobs[1..])
  {
    assert JobHelds(jobs)[1..] == JobHelds(jobs[1..]);
  }

  /** What a shared operation adds to the queues is what it takes from the goroutine. */
  lemma QueuedAfter(h: Shared, k: nat, op: Op, t: Token)
    requires ShardsMatch(h) && k < |h.queues| && Enabled(h, k, op)
    ensures Queued(Apply(h, k, op), t)
         == Queued(h, t) + (if op.Enqueue? then HeldCount(t, op.job.held) else 0)
                         - (if op.Take? then HeldCount(t, op.job.held) else 0)
    ensures QueuedJobs(Apply(h, k, op))
         == QueuedJobs(h) + (if op.Enqueue? then 1 else 0) - (if op.Take? then 1 else 0)
  {
    if op.Enqueue? {
      QueueAppend(t, h.queues[k], op.job);
      SumUpdate(h.queues, k, h.queues[k] + [op.job], QueueCounter(t));
      SumUpdate(h.queues, k, h.queues[k] + [op.job], QueueLength());
    } else if op.Take? {
      QueuePop(t, h.queues[k]);
      SumUpdate(h.queues, k, h.queues[k][1..], QueueCounter(t));
      SumUpdate(h.queues, k, h.queues[k][1..], QueueLength());
    }
  }

  lemma PumpMovesBalance(s: State, i: nat, op: Op, s': State, t: Token)
    requires WellFormed(s) && PumpMoves(s, i, op, s')
    ensures InHand(s', t) + Loss(t, op) == InHand(s, t) + Gain(t, op)
  {
    PumpBalance(t, s.batchSize, s.pumps[i], op, s'.pumps[i]);
    SumUpdate(s.pumps, i, s'.pumps[i], PumpCounter(t));
  }

  lemma WorkerMovesBalance(s: State, k: nat, op: Op, s': State, t: Token)
    requires WellFormed(s) && WorkerMoves(s, k, op, s')
    ensures InHand(s', t) + Loss(t, op) == InHand(s, t) + Gain(t, op)
  {
    WorkerBalance(t, s.workers[k], op, s'.workers[k]);
    SumUpdate(s.workers, k, s'.workers[k], WorkerCounter(t));
  }

  /** A goroutine performs one shared operation and its holdings change accordingly. */
  ghost predicate Transfers(s: State, k: nat, op: Op, s': State)
    requires WellFormed(s)
  {
    && k < |s.shared.queues|
    && Enabled(s.shared, k, op)
    && s'.shared == Apply(s.shared, k, op)
    && (op.Enqueue? ==> ShardOf(s.shared, op.job.association) == k)
    && forall t :: InHand(s', t) + Loss(t, op) == InHand(s, t) + Gain(t, op)
  }

  lemma OneOwnerKept(s: State, k: nat, op: Op, s': State)
    requires WellFormed(s) && OneOwner(s) && Transfers(s, k, op, s')
    ensures OneOwner(s')
  {
    hide InHand, Queued, HeldCount;
    forall b: BufId
      ensures s'.shared.pool[b] + s'.shared.lost[b] + InHand(s', Buf(b)) + Queued(s'.shared, Buf(b))
           == if b < s'.shared.created then 1 else 0
    {
      QueuedAfter(s.shared, k, op, Buf(b));
      assert InHand(s', Buf(b)) + Loss(Buf(b), op) == InHand(s, Buf(b)) + Gain(Buf(b), op);
    }
  }

  lemma SlotsKept(s: State, k: nat, op: Op, s': State)
    requires WellFormed(s) && SlotsMatch(s) && Transfers(s, k, op, s')
    ensures SlotsMatch(s')
  {
    hide InHand, Queued;
    QueuedAfter(s.shared, k, op, Slot);
    assert InHand(s', Slot) + Loss(Slot, op) == InHand(s, Slot) + Gain(Slot, op);
  }

  lemma DepthKept(s: State, k: nat, op: Op, s': State)
    requires WellFormed(s) && DepthMatches(s) && Transfers(s, k, op, s')
    ensures DepthMatches(s')
  {
    hide InHand, Queued, QueuedJobs;
    QueuedAfter(s.shared, k, op, Sent);
    assert InHand(s', Sent) + Loss(Sent, op) == InHand(s, Sent) + Gain(Sent, op);
    assert InHand(s', Received) + Loss(Received, op) == InHand(s, Received) + Gain(Received, op);
  }

  lemma CountersKept(s: State, k: nat, op: Op, s': State)
    requires WellFormed(s) && CountersMatch(s) && Transfers(s, k, op, s')
    ensures CountersMatch(s')
  {
    hide InHand;
    assert InHand(s', Pending) + Loss(Pending, op) == InHand(s, Pending) + Gain(Pending, op);
  }

  lemma FifoKept(h: Shared, k: nat, op: Op)
    requires ShardsMatch(h) && ShardsFifo(h) && k < |h.queues| && Enabled(h, k, op)
    requires op.Enqueue? ==> ShardOf(h, op.job.association) == k
    ensures ShardsMatch(Apply(h, k, op)) && ShardsFifo(Apply(h, k, op))
  {
    var g := Apply(h, k, op);
    if op.Enqueue? {
      SentFifo(h, g, k, op.job);
    } else if op.Take? {
      TakenFifo(h, g, k);
    } else {
      SameShardsFifo(h, g);
    }
    hide ShardsFifo, Apply;
  }

  lemma SentFifo(h: Shared, g: Shared, k: nat, job: Job)
    requires ShardsMatch(h) && ShardsFifo(h) && k < |h.queues| && |h.queues[k]| < h.capacities[k]
    requires ShardOf(h, job.association) == k && g.taken == h.taken && g.capacities == h.capacities
    requires g.queues == h.queues[k := h.queues[k] + [job]] && g.sent == h.sent[k := h.sent[k] + [job]]
    ensures ShardsMatch(g) && ShardsFifo(g)
  {
  }

  lemma TakenFifo(h: Shared, g: Shared, k: nat)
    requires ShardsMatch(h) && ShardsFifo(h) && k < |h.queues| && h.queues[k] != []
    requires g.sent == h.sent && g.capacities == h.capacities
    requires g.queues == h.queues[k := h.queues[k][1..]] && g.taken == h.taken[k := h.taken[k] + [h.queues[k][0]]]
    ensures ShardsMatch(g) && ShardsFifo(g)
  {
  }

  lemma SameShardsFifo(h: Shared, g: Shared)
    requires ShardsMatch(h) && ShardsFifo(h)
    requires g.queues == h.queues && g.sent == h.sent && g.taken == h.taken && g.capacities == h.capacities
    ensures ShardsMatch(g) && ShardsFifo(g)
  {
  }

  lemma TransferKeepsInv(s: State, k: nat, op: Op, s': State)
    requires Inv(s) && Transfers(s, k, op, s') && |s'.workers| == |s.workers|
    ensures Inv(s')
  {
    hide OneOwner, SlotsMatch, DepthMatches, CountersMatch, ShardsFifo;
    OneOwnerKept(s, k, op, s');
    SlotsKept(s, k, op, s');
    DepthKept(s, k, op, s');
    CountersKept(s, k, op, s');
    FifoKept(s.shared, k, op);
  }

  lemma EnqueuesOwnJobs(batchSize: nat, p: Pump, op: Op, q: Pump)
    requires PumpStep(batchSize, p, op, q) && op.Enqueue?
    ensures op.job.association == p.association
  {
  }

  lemma PoolDropKeepsInv(s: State, b: BufId, s': State)
    requires Inv(s) && PoolDrops(s, b, s')
    ensures Inv(s')
  {
    hide InHand, Queued, QueuedJobs, ShardsFifo, OneOwner;
    SameGoroutines(s, s');
    SameShards(s, s');
    DroppedIsLost(s, b, s');
  }

  lemma DroppedIsLost(s: State, b: BufId, s': State)
    requires OneOwner(s) && PoolDrops(s, b, s')
    requires forall t :: InHand(s', t) == InHand(s, t)
    requires forall t :: Queued(s'.shared, t) == Queued(s.shared, t)
    ensures OneOwner(s')
  {
    hide InHand, Queued;
    forall c: BufId
      ensures s'.shared.pool[c] + s'.shared.lost[c] + InHand(s', Buf(c)) + Queued(s'.shared, Buf(c))
           == if c < s'.shared.created then 1 else 0
    {
      assert s'.shared.pool[c] + s'.shared.lost[c] == s.shared.pool[c] + s.shared.lost[c];
    }
  }

  lemma ShutdownKeepsInv(s: State, s': State)
    requires Inv(s) && Shutdown(s, s')
    ensures Inv(s')
  {
    SameGoroutines(s, s');
    hide InHand, Queued, QueuedJobs, ShardsFifo;
    SameShards(s, s');
  }

  lemma SameGoroutines(s: State, s': State)
    requires s'.pumps == s.pumps && s'.workers == s.workers && s'.shared.queues == s.shared.queues
    ensures forall t :: InHand(s', t) == InHand(s, t)
    ensures forall t :: Queued(s'.shared, t) == Queued(s.shared, t)
    ensures QueuedJobs(s'.shared) == QueuedJobs(s.shared)
  {
  }

  lemma SameShards(s: State, s': State)
    requires ShardsMatch(s.shared) && ShardsFifo(s.shared)
    requires s'.shared.queues == s.shared.queues && s'.shared.sent == s.shared.sent
    requires s'.shared.taken == s.shared.taken && s'.shared.capacities == s.shared.capacities
    ensures ShardsMatch(s'.shared) && ShardsFifo(s'.shared)
  {
  }

  lemma InitInv(s: State)
    requires Init(s)
    ensures Inv(s)
  {
    forall t
      ensures InHand(s, t) == 0 && Queued(s.shared, t) == 0
    {
      SumZero(s.pumps, PumpCounter(t));
      SumZero(s.workers, WorkerCounter(t));
      SumZero(s.shared.queues, QueueCounter(t));
    }
    SumZero(s.shared.queues, QueueLength());
  }

  lemma PumpKeepsInv(s: State, i: nat, op: Op, s': State)
    requires Inv(s) && PumpMoves(s, i, op, s')
    ensures Inv(s')
  {
    hide OneOwner, SlotsMatch, DepthMatches, CountersMatch, ShardsFifo, PumpStep, Apply, Enabled, InHand, Loss, Gain;
    forall t
      ensures InHand(s', t) + Loss(t, op) == InHand(s, t) + Gain(t, op)
    {
      PumpMovesBalance(s, i, op, s', t);
    }
    var k := ShardOf(s.shared, s.pumps[i].association);
    if op.Enqueue? {
      EnqueuesOwnJobs(s.batchSize, s.pumps[i], op, s'.pumps[i]);
    }
    assert Transfers(s, k, op, s');
    TransferKeepsInv(s, k, op, s');
  }

  lemma WorkerKeepsInv(s: State, k: nat, op: Op, s': State)
    requires Inv(s) && WorkerMoves(s, k, op, s')
    ensures Inv(s')
  {
    hide OneOwner, SlotsMatch, DepthMatches, CountersMatch, ShardsFifo, WorkerStep, Apply, Enabled, InHand, Loss, Gain;
    forall t
      ensures InHand(s', t) + Loss(t, op) == InHand(s, t) + Gain(t, op)
    {
      WorkerMovesBalance(s, k, op, s', t);
    }
    WorkersDoNotEnqueue(s.workers[k], op, s'.workers[k]);
    assert Transfers(s, k, op, s');
    TransferKeepsInv(s, k, op, s');
  }

  lemma WorkersDoNotEnqueue(w: Worker, op: Op, v: Worker)
    requires WorkerStep(w, op, v)
    ensures !op.Enqueue?
  {
  }

  lemma NextKeepsInv(s: State, s': State)
    requires Inv(s) && Next(s, s')
    ensures Inv(s')
  {
    hide OneOwner, SlotsMatch, DepthMatches, CountersMatch, ShardsFifo, PumpMoves, WorkerMoves;
    if i: nat, op :| PumpMoves(s, i, op, s') {
      PumpKeepsInv(s, i, op, s');
    } else if k: nat, op :| WorkerMoves(s, k, op, s') {
      WorkerKeepsInv(s, k, op, s');
    } else if Shutdown(s, s') {
      ShutdownKeepsInv(s, s');
    } else {
      var b :| PoolDrops(s, b, s');
      PoolDropKeepsInv(s, b, s');
    }
  }

  // ---- every run ----

  ghost predicate IsRun(run: seq<State>) {
    && run != [] && Init(run[0])
    && forall i | 0 <= i < |run| - 1 :: WellFormed(run[i]) && Next(run[i], run[i + 1])
  }

  lemma RunStep(run: seq<State>, n: nat)
    requires IsRun(run) && 0 < n < |run|
    ensures WellFormed(run[n - 1]) && Next(run[n - 1], run[n])
  {
    hide Next;
    assert WellFormed(run[n - 1]) && Next(run[n - 1], run[n - 1 + 1]);
  }

  /** Over every run: each buffer has exactly one owner, slots in use match what is held
      and stay within the budget, queueDepth and the inbound counters account for
      everything, and shards are first-in first-out. */
  lemma {:induction false} RunsKeepInv(run: seq<State>, n: nat)
    requires IsRun(run) && n < |run|
    ensures Inv(run[n])
  {
    hide Inv, Next, Init;
    if n == 0 {
      InitInv(run[0]);
    } else {
      RunsKeepInv(run, n - 1);
      NextKeepsInv(run[n - 1], run[n]);
    }
  }

  // ---- consequences in every reachable state ----

  lemma {:induction false} SumAtLeast<T>(xs: seq<T>, i: nat, f: T -> nat)
    requires i < |xs|
    ensures Sum(xs, f) >= f(xs[i])
  {
    if i > 0 {
      SumAtLeast(xs[1..], i - 1, f);
    }
  }

  lemma PumpHoldsInHand(s: State, i: nat, t: Token)
    requires i < |s.pumps|
    ensures InHand(s, t) >= PumpCount(t, s.pumps[i])
  {
    SumAtLeast(s.pumps, i, PumpCounter(t));
  }

  lemma WorkerHoldsInHand(s: State, k: nat, t: Token)
    requires k < |s.workers|
    ensures InHand(s, t) >= WorkerCount(t, s.workers[k])
  {
    SumAtLeast(s.workers, k, WorkerCounter(t));
  }

  /** No goroutine ever returns a buffer that is already in the pool, and giving a slot
      back never blocks. */
  lemma PumpReleasesSafely(s: State, i: nat, op: Op, q: Pump)
    requires Inv(s) && i < |s.pumps| && PumpStep(s.batchSize, s.pumps[i], op, q)
    ensures op.Put? ==> s.shared.pool[op.buf] == 0 && op.buf < s.shared.created
    ensures op == ReleaseSlot ==> s.shared.slotsUsed > 0
  {
    hide PumpStep, InHand, Queued, ShardsFifo, DepthMatches, CountersMatch;
    var t := if op.Put? then Buf(op.buf) else Slot;
    PumpBalance(t, s.batchSize, s.pumps[i], op, q);
    PumpHoldsInHand(s, i, t);
  }

  lemma WorkerReleasesSafely(s: State, k: nat, op: Op, v: Worker)
    requires Inv(s) && k < |s.workers| && WorkerStep(s.workers[k], op, v)
    ensures op.Put? ==> s.shared.pool[op.buf] == 0 && op.buf < s.shared.created
    ensures op == ReleaseSlot ==> s.shared.slotsUsed > 0
  {
    hide WorkerStep, InHand, Queued, ShardsFifo, DepthMatches, CountersMatch;
    var t := if op.Put? then Buf(op.buf) else Slot;
    WorkerBalance(t, s.workers[k], op, v);
    WorkerHoldsInHand(s, k, t);
  }

  predicate Quiet(s: State) {
    && (forall i | 0 <= i < |s.pumps| :: s.pumps[i].at == Idle)
    && (forall k | 0 <= k < |s.workers| :: s.workers[k] in {Ready, Leaving, Exited})
  }

  /** When no pump or worker is active, only queued jobs still hold buffers or slots:
      every other buffer is back, queueDepth is exact, and every inbound packet ever
      read has been counted once. */
  lemma QuietMeansReturned(s: State)
    requires Inv(s) && Quiet(s)
    ensures s.shared.slotsUsed == Queued(s.shared, Slot)
    ensures forall b: BufId | b < s.shared.created ::
              s.shared.pool[b] + s.shared.lost[b] + Queued(s.shared, Buf(b)) == 1
    ensures s.shared.depth == QueuedJobs(s.shared)
    ensures s.shared.inboundRead + s.shared.truncatedOut
         == s.shared.metrics.truncated + s.shared.metrics.malformed + s.shared.metrics.fragment
            + s.shared.metrics.unauthorized + s.shared.metrics.inPackets
  {
    hide Queued, QueuedJobs, ShardsFifo;
    forall t
      ensures InHand(s, t) == 0
    {
      SumZero(s.pumps, PumpCounter(t));
      SumZero(s.workers, WorkerCounter(t));
    }
    forall b: BufId | b < s.shared.created
      ensures s.shared.pool[b] + s.shared.lost[b] + Queued(s.shared, Buf(b)) == 1
    {
      assert InHand(s, Buf(b)) == 0;
    }
  }

  // ---- how pumps read and route ----

  predicate NoSlots(hs: seq<Held>) {
    forall i | 0 <= i < |hs| :: !hs[i].slot
  }

  predicate AllSlots(hs: seq<Held>) {
    forall i | 0 <= i < |hs| :: hs[i].slot
  }

  /** Only the extra buffers of a batch carry slots; a batch has at most batchSize packets, or
      64 when they are the segments of one coalesced read. */
  predicate PointOk(batchSize: nat, gro: bool, at: Point) {
    match at
    case Filling(head, extras, bare) =>
      && !gro && !head.held.slot && AllSlots(extras)
      && |extras| + (if bare then 1 else 0) + 1 <= batchSize
    case Draining(lead, spares) => !gro && !lead.held.slot && AllSlots(spares) && |spares| + 1 <= batchSize
    case Splitting(segments) =>
      && gro && 1 <= |segments| <= 64 && NoSlots(Helds(segments))
      && (segments[0].truncated ==> |segments| == 1)
      && forall i | 1 <= i < |segments| :: !segments[i].truncated
    case Trimming(packets, unused) => 1 <= |packets| <= ReadLimit(batchSize, gro) && !packets[0].held.slot
    case Processing(batch) => |batch.todo| <= ReadLimit(batchSize, gro)
    case _ => true
  }

  function ReadLimit(batchSize: nat, gro: bool): nat {
    if gro then 64 else batchSize
  }

  lemma StepKeepsPoint(batchSize: nat, p: Pump, op: Op, q: Pump)
    requires batchSize >= 1 && PumpStep(batchSize, p, op, q) && PointOk(batchSize, p.gro, p.at)
    ensures PointOk(batchSize, q.gro, q.at)
  {
    hide BatchStep, TrimStep, FlushStep, BatchDone, ReleaseHead;
    match p.at
    case Splitting(segments) =>
      if op.Get? {
        assert Helds(q.at.segments) == Helds(segments) + [Held(op.buf, false)];
      }
    case Trimming(packets, unused) => TrimKeepsPackets(p.inbound, packets, unused, op, q.at);
    case Processing(batch) =>
      if !BatchDone(batch) {
        TodoShrinks(p.association, p.inbound, batch, op, q.at.batch);
      }
    case Flushing(releasing, waiting) => FlushEnds(releasing, waiting, op, q.at);
    case _ =>
  }

  lemma TrimKeepsPackets(inbound: bool, packets: seq<Packet>, unused: seq<Held>, op: Op, at: Point)
    requires TrimStep(inbound, packets, unused, op, at)
    ensures (at.Trimming? && at.packets == packets) || at == Processing(Batch(packets, [], [], false, [], [], 0))
  {
  }

  lemma TodoShrinks(association: nat, inbound: bool, b: Batch, op: Op, c: Batch)
    requires BatchStep(association, inbound, b, op, c)
    ensures |c.todo| <= |b.todo|
  {
  }

  lemma FlushEnds(releasing: seq<Held>, waiting: seq<Held>, op: Op, at: Point)
    requires FlushStep(releasing, waiting, op, at)
    ensures at.Flushing? || at.Idle?
  {
  }

  predicate PointsOk(s: State) {
    s.batchSize >= 1 && forall i | 0 <= i < |s.pumps| :: PointOk(s.batchSize, s.pumps[i].gro, s.pumps[i].at)
  }

  lemma NextKeepsPoints(s: State, s': State)
    requires WellFormed(s) && Next(s, s') && PointsOk(s)
    ensures PointsOk(s')
  {
    hide PumpStep, WorkerStep, Apply, Enabled, PointOk;
    if i: nat, op :| PumpMoves(s, i, op, s') {
      StepKeepsPoint(s.batchSize, s.pumps[i], op, s'.pumps[i]);
    }
  }

  lemma IdleIsBounded(run: seq<State>)
    requires IsRun(run) && run[0].batchSize >= 1
    ensures PointsOk(run[0])
  {
  }

  /** Over every run. */
  lemma {:induction false} ReadsAreBounded(run: seq<State>, n: nat)
    requires IsRun(run) && run[0].batchSize >= 1 && n < |run|
    ensures PointsOk(run[n])
  {
    hide IsRun, Next, PointsOk;
    if n == 0 {
      IdleIsBounded(run);
    } else {
      ReadsAreBounded(run, n - 1);
      RunStep(run, n);
      NextKeepsPoints(run[n - 1], run[n]);
    }
  }

  /** A pump stays what it is; batching is only given up after a batch read that filled nothing. */
  lemma PumpsStayThemselves(batchSize: nat, p: Pump, op: Op, q: Pump)
    requires PumpStep(batchSize, p, op, q)
    ensures q.association == p.association && q.inbound == p.inbound && q.gro == p.gro
    ensures q.batchDisabled == p.batchDisabled
         || (q.batchDisabled && p.at.Draining? && q.at == Trimming([p.at.lead], p.at.spares))
  {
    if p.at.Draining? && q.batchDisabled != p.batchDisabled {
      assert q.at.packets == [p.at.lead];
    }
  }

  /** And then it may be. */
  lemma BatchingMayStop(batchSize: nat, p: Pump) returns (q: Pump)
    requires p.at.Draining?
    ensures PumpStep(batchSize, p, Local, q) && q.batchDisabled
  {
    var at := AnyNumberIsRead(p.at.lead, p.at.spares, 0);
    q := p.(at := at, batchDisabled := true);
    assert at.unused == p.at.spares;
  }

  /** A batch is filled up to batchSize buffers unless the slots run out. */
  lemma FillsToTheLimit(s: State, i: nat, op: Op, s': State)
    requires WellFormed(s) && PointsOk(s) && PumpMoves(s, i, op, s') && s.pumps[i].at.Filling?
    ensures s'.pumps[i].at.Filling? || s'.pumps[i].at.Draining?
    ensures s'.pumps[i].at.Draining? ==>
              && s'.pumps[i].at == Draining(s.pumps[i].at.head, s.pumps[i].at.extras)
              && (|s.pumps[i].at.extras| + 1 == s.batchSize || s.shared.slotsUsed >= s.shared.budget)
  {
    assert PointOk(s.batchSize, s.pumps[i].gro, s.pumps[i].at);
  }

  /** The batch read may fill any number of the extra buffers, in order, behind the first datagram. */
  lemma AnyNumberIsRead(lead: Packet, spares: seq<Held>, d: nat) returns (at: Point)
    requires d <= |spares|
    ensures DrainStep(lead, spares, at) && |at.packets| == d + 1
    ensures forall other | DrainStep(lead, spares, other) :: other.packets[0] == lead
  {
    var packets := [lead] + seq(d, j requires 0 <= j < d => Packet(spares[j], false));
    at := Trimming(packets, spares[d..]);
    assert Helds(packets) == [lead.held] + spares[..d];
  }

  /** Where the next packet of a batch ends up: a truncated, malformed, foreign or late one is
      only dropped, and only a live lifetime lets one through to its shard. */
  lemma PacketsAreRouted(inbound: bool, b: Batch, op: Op, c: Batch)
    requires b.todo != [] && PacketStep(inbound, b, op, c)
    ensures c.todo == b.todo[1..] && c.uncounted == b.uncounted
    ensures b.todo[0].truncated <==> op == DropIn(Truncated) || op == TruncatedOut
    ensures b.todo[0].truncated || op.DropIn? || op == LifetimeOver ==>
              c.dropping == [b.todo[0].held] && c.checked == b.checked
              && c.preferred == b.preferred && c.fallback == b.fallback
    ensures op == LifetimeAlive ==>
              c.checked == [b.todo[0].held] && c.dropping == b.dropping
              && c.preferred == b.preferred && c.fallback == b.fallback
    ensures op == Local ==>
              && c.checked == b.checked
              && var held := [b.todo[0].held];
                 || (c.dropping == b.dropping && c.preferred == b.preferred + held && c.fallback == b.fallback)
                 || (inbound && c.dropping == b.dropping && c.preferred == b.preferred
                     && c.fallback == b.fallback + held)
                 || (!inbound && c.dropping == held && c.preferred == b.preferred && c.fallback == b.fallback)
    ensures c.batchIn == b.batchIn + if inbound && !op.DropIn? then 1 else 0
  {
  }

  /** Every way on is there: a packet for a known peer joins either send batch, a response is
      dropped or answered. */
  lemma PacketChoices(inbound: bool, b: Batch, kind: Drop) returns (x: Batch, y: Batch, z: Batch)
    requires b.todo != [] && !b.todo[0].truncated && b.dropping == [] && kind != Truncated
    ensures PacketStep(inbound, b, Local, x) && x.preferred == b.preferred + [b.todo[0].held]
    ensures PacketStep(inbound, b, Local, y)
    ensures if inbound then y.fallback == b.fallback + [b.todo[0].held] else y.dropping == [b.todo[0].held]
    ensures inbound ==> PacketStep(inbound, b, DropIn(kind), z) && z.dropping == [b.todo[0].held]
  {
    x := Route(b, ToPreferred, inbound);
    y := Route(b, if inbound then ToFallback else ToDropping, inbound);
    z := Route(b, ToDropping, false);
  }

  /** Each drop is counted under its own kind, and nothing else changes the drop counters. */
  lemma DropsAreCounted(s: State, i: nat, op: Op, s': State)
    requires WellFormed(s) && PumpMoves(s, i, op, s')
    ensures var m, n := s.shared.metrics, s'.shared.metrics;
            && n.truncated == m.truncated + (if op == DropIn(Truncated) || op == TruncatedOut then 1 else 0)
            && n.malformed == m.malformed + (if op == DropIn(Malformed) then 1 else 0)
            && n.fragment == m.fragment + (if op == DropIn(Fragment) then 1 else 0)
            && n.unauthorized == m.unauthorized + (if op == DropIn(Unauthorized) then 1 else 0)
  {
    hide PumpStep;
  }

  /** A checked packet is sent to its shard while there is room, and dropped exactly if not. */
  lemma DispatchIff(s: State, i: nat, op: Op, s': State)
    requires WellFormed(s) && PumpMoves(s, i, op, s') && s.pumps[i].at.Processing?
    requires var b := s.pumps[i].at.batch; b.checked != [] && b.dropping == [] && !b.uncounted
    ensures s'.pumps[i].at.Processing?
    ensures var b, c := s.pumps[i].at.batch, s'.pumps[i].at.batch;
            var k := ShardOf(s.shared, s.pumps[i].association);
            if |s.shared.queues[k]| < s.shared.capacities[k] then
              && s'.shared.queues
                 == s.shared.queues[k := s.shared.queues[k] + [Job(s.pumps[i].association, b.checked[0])]]
              && c == b.(checked := b.checked[1..], uncounted := true)
            else s'.shared.queues == s.shared.queues && c == b.(checked := [], dropping := b.checked)
  {
  }

  /** An idle pump may take any pooled buffer instead of making one. */
  lemma BuffersAreReused(s: State, i: nat, b: BufId) returns (s': State)
    requires WellFormed(s) && i < |s.pumps| && s.pumps[i].at == Idle && s.shared.pool[b] > 0
    ensures PumpMoves(s, i, Get(b), s') && s'.shared == s.shared.(pool := s.shared.pool - multiset{b})
  {
    var k := ShardOf(s.shared, s.pumps[i].association);
    s' := s.(shared := Apply(s.shared, k, Get(b)), pumps := s.pumps[i := s.pumps[i].(at := Blocked(b))]);
  }

  /** The release of the first held buffer. */
  lemma ReleaseChoice(rest: seq<Held>) returns (op: Op, rest': seq<Held>)
    requires rest != []
    ensures ReleaseHead(rest, op, rest') && (op == ReleaseSlot || op.Put?)
  {
    if rest[0].slot {
      op, rest' := ReleaseSlot, [rest[0].(slot := false)] + rest[1..];
    } else {
      op, rest' := Put(rest[0].buf), rest[1..];
    }
  }

  /** Whether an operation other than a release is possible in the runtime as it is. */
  predicate Possible(h: Shared, k: nat, op: Op)
    requires ShardsMatch(h) && k < |h.queues|
  {
    op == ReleaseSlot || Enabled(h, k, op)
  }

  lemma BatchChoice(h: Shared, k: nat, association: nat, inbound: bool, b: Batch) returns (op: Op, c: Batch)
    requires ShardsMatch(h) && k < |h.queues| && !BatchDone(b)
    ensures BatchStep(association, inbound, b, op, c) && Possible(h, k, op)
  {
    c := b;
    if b.dropping != [] {
      var rest: seq<Held>;
      op, rest := ReleaseChoice(b.dropping);
      c := b.(dropping := rest);
    } else if b.uncounted {
      op, c := CountSend, b.(uncounted := false);
    } else if b.checked != [] {
      if |h.queues[k]| < h.capacities[k] {
        op, c := Enqueue(Job(association, b.checked[0])), b.(checked := b.checked[1..], uncounted := true);
      } else {
        op, c := QueueFull, b.(checked := [], dropping := b.checked);
      }
    } else if b.todo[0].truncated {
      op := if inbound then DropIn(Truncated) else TruncatedOut;
      c := Route(b, ToDropping, false);
    } else if inbound {
      op := if h.alive then LifetimeAlive else LifetimeOver;
      c := Route(b, if h.alive then ToChecked else ToDropping, true);
    } else {
      op, c := Local, Route(b, ToPreferred, false);
    }
  }

  lemma ReadChoice(h: Shared, k: nat, batchSize: nat, p: Pump) returns (op: Op, q: Pump)
    requires ShardsMatch(h) && k < |h.queues| && !p.at.Processing?
    ensures PumpStep(batchSize, p, op, q) && Possible(h, k, op)
  {
    match p.at
    case Idle => op, q := Get(h.created), p.(at := Blocked(h.created));
    case Blocked(first) => op, q := Put(first), p.(at := Idle);
    case Filling(head, extras, bare) =>
      if bare {
        op, q := Get(h.created), p.(at := Filling(head, extras + [Held(h.created, true)], false));
      } else if |extras| + 1 >= batchSize {
        op, q := Local, p.(at := Draining(head, extras));
      } else if h.slotsUsed < h.budget {
        op, q := Acquire, p.(at := Filling(head, extras, true));
      } else {
        op, q := AcquireFails, p.(at := Draining(head, extras));
      }
    case Draining(lead, spares) =>
      var at := AnyNumberIsRead(lead, spares, 0);
      op, q := Local, p.(at := at);
    case Splitting(segments) => op, q := Local, p.(at := Trimming(segments, []));
    case Trimming(packets, unused) =>
      if unused != [] {
        var rest: seq<Held>;
        op, rest := ReleaseChoice(unused);
        q := p.(at := Trimming(packets, rest));
      } else {
        op := if p.inbound then ReadIn(|packets|) else Local;
        q := p.(at := Processing(Batch(packets, [], [], false, [], [], 0)));
      }
    case Flushing(releasing, waiting) =>
      if releasing != [] {
        var rest: seq<Held>;
        op, rest := ReleaseChoice(releasing);
        q := p.(at := Flushing(rest, waiting));
      } else {
        op, q := Local, p.(at := if waiting != [] then Flushing(waiting, []) else Idle);
      }
  }

  lemma PumpChoice(h: Shared, k: nat, batchSize: nat, p: Pump) returns (op: Op, q: Pump)
    requires ShardsMatch(h) && k < |h.queues|
    ensures PumpStep(batchSize, p, op, q) && Possible(h, k, op)
  {
    hide BatchStep, Enabled;
    if !p.at.Processing? {
      op, q := ReadChoice(h, k, batchSize, p);
    } else if BatchDone(p.at.batch) {
      op, q := CountIn(p.at.batch.batchIn), p.(at := Flushing(p.at.batch.preferred, p.at.batch.fallback));
      CountingIsPossible(h, k, p.at.batch.batchIn);
    } else {
      var c: Batch;
      op, c := BatchChoice(h, k, p.association, p.inbound, p.at.batch);
      q := p.(at := Processing(c));
    }
  }

  lemma CountingIsPossible(h: Shared, k: nat, n: nat)
    requires ShardsMatch(h) && k < |h.queues|
    ensures Enabled(h, k, CountIn(n))
  {
  }

  /** No pump ever waits for another goroutine. */
  lemma PumpsMoveOn(s: State, i: nat) returns (op: Op, s': State)
    requires Inv(s) && i < |s.pumps|
    ensures WellFormed(s) && PumpMoves(s, i, op, s')
  {
    assert WellFormed(s);
    var k := ShardOf(s.shared, s.pumps[i].association);
    hide Inv, PumpStep, Apply;
    var q: Pump;
    op, q := PumpChoice(s.shared, k, s.batchSize, s.pumps[i]);
    PumpReleasesSafely(s, i, op, q);
    s' := s.(shared := Apply(s.shared, k, op), pumps := s.pumps[i := q]);
  }

  // ---- what a worker leaves behind ----

  /** Histories only grow, and only a take from its own shard changes what was taken. */
  lemma HistoryGrows(h: Shared, j: nat, op: Op, k: nat)
    requires ShardsMatch(h) && j < |h.queues| && k < |h.queues| && Enabled(h, j, op)
    ensures var g := Apply(h, j, op);
            && ShardsMatch(g) && |g.queues| == |h.queues|
            && h.sent[k] <= g.sent[k]
            && (k != j || !op.Take? ==> g.taken[k] == h.taken[k])
            && (g.alive <==> h.alive)
  {
  }

  /** No worker comes back, and nothing takes jobs from its shard any more. */
  lemma ExitedStays(s: State, s': State, k: nat)
    requires WellFormed(s) && Next(s, s') && k < |s.workers| && s.workers[k].Exited?
    ensures WellFormed(s') && |s'.workers| == |s.workers| && s'.workers[k].Exited?
    ensures s'.shared.taken[k] == s.shared.taken[k] && s.shared.sent[k] <= s'.shared.sent[k]
  {
    hide PumpStep, Apply, Enabled;
    if i: nat, op :| PumpMoves(s, i, op, s') {
      PumpsDoNotTake(s.batchSize, s.pumps[i], op, s'.pumps[i]);
      HistoryGrows(s.shared, ShardOf(s.shared, s.pumps[i].association), op, k);
    } else if j: nat, op :| WorkerMoves(s, j, op, s') {
      HistoryGrows(s.shared, j, op, k);
    }
  }

  lemma PumpsDoNotTake(batchSize: nat, p: Pump, op: Op, q: Pump)
    requires PumpStep(batchSize, p, op, q)
    ensures !op.Take?
  {
  }

  lemma Fifo(s: State, k: nat)
    requires Inv(s) && k < |s.workers|
    ensures s.shared.sent[k] == s.shared.taken[k] + s.shared.queues[k]
  {
  }

  /** A worker exits only with its queue empty. */
  lemma ExitDrains(s: State, s': State, k: nat)
    requires Inv(s) && Next(s, s') && k < |s.workers| == |s'.workers|
    requires !s.workers[k].Exited? && s'.workers[k].Exited?
    ensures WellFormed(s') && s'.shared.queues[k] == [] && s'.shared.taken[k] == s'.shared.sent[k]
  {
    Fifo(s, k);
    assert WellFormed(s);
    hide Inv, PumpStep, WorkerStep, Apply;
    var j, op :| WorkerMoves(s, j, op, s');
    assert j == k;
    ExitsOnEmptyQueue(s.workers[k], op, s'.workers[k]);
    LookingChangesNothing(s.shared, k);
  }

  lemma ExitsOnEmptyQueue(w: Worker, op: Op, v: Worker)
    requires WorkerStep(w, op, v) && v.Exited?
    ensures op == QueueEmpty
  {
  }

  lemma LookingChangesNothing(h: Shared, k: nat)
    requires ShardsMatch(h) && k < |h.queues| && h.queues[k] == []
    ensures Apply(h, k, QueueEmpty) == h
  {
  }

  /** Worker k exits in step m of the run. */
  predicate ExitsAt(run: seq<State>, k: nat, m: nat) {
    && 0 < m < |run| && k < |run[m - 1].workers| && k < |run[m].workers|
    && !run[m - 1].workers[k].Exited? && run[m].workers[k].Exited?
  }

  lemma StepKeepsWorkers(s: State, s': State)
    requires WellFormed(s) && Next(s, s')
    ensures |s'.workers| == |s.workers|
  {
    hide PumpStep, WorkerStep, Apply, Enabled;
  }

  lemma {:induction false} SameWorkers(run: seq<State>, m: nat)
    requires IsRun(run) && m < |run|
    ensures WellFormed(run[m]) && |run[m].workers| == |run[0].workers|
  {
    RunsKeepInv(run, m);
    assert WellFormed(run[m]);
    hide Inv, Next, IsRun;
    if m > 0 {
      SameWorkers(run, m - 1);
      RunStep(run, m);
      StepKeepsWorkers(run[m - 1], run[m]);
    }
  }

  lemma {:induction false} ExitedFrom(run: seq<State>, k: nat, m: nat, n: nat)
    requires IsRun(run) && m <= n < |run| && k < |run[m].workers| && run[m].workers[k].Exited?
    ensures WellFormed(run[m]) && WellFormed(run[n]) && |run[m].workers| == |run[n].workers|
    ensures run[n].workers[k].Exited? && run[n].shared.taken[k] == run[m].shared.taken[k]
    ensures run[m].shared.sent[k] <= run[n].shared.sent[k]
    decreases n - m
  {
    hide IsRun, Next;
    SameWorkers(run, m);
    SameWorkers(run, n);
    if m < n {
      ExitedFrom(run, k, m, n - 1);
      RunStep(run, n);
      ExitedStays(run[n - 1], run[n], k);
    }
  }

  predicate OnTheWayOut(w: Worker) {
    w.Leaving? || w.Exited? || ((w.Took? || w.Releasing?) && w.leaving)
  }

  /** Workers leave only once the lifetime is over. */
  predicate AllStay(s: State) {
    s.shared.alive ==> forall k | 0 <= k < |s.workers| :: !OnTheWayOut(s.workers[k])
  }

  lemma InitStay(run: seq<State>)
    requires IsRun(run)
    ensures AllStay(run[0])
  {
  }

  lemma {:induction false} LeavingIsOver(run: seq<State>, n: nat)
    requires IsRun(run) && n < |run|
    ensures AllStay(run[n])
  {
    hide IsRun, Next, AllStay;
    if n == 0 {
      InitStay(run);
    } else {
      LeavingIsOver(run, n - 1);
      RunStep(run, n);
      StaysWhileAlive(run[n - 1], run[n]);
    }
  }

  lemma StaysWhileAlive(s: State, s': State)
    requires WellFormed(s) && Next(s, s') && AllStay(s)
    ensures AllStay(s')
  {
    hide PumpStep, Apply;
    if i: nat, op :| PumpMoves(s, i, op, s') {
      HistoryGrows(s.shared, ShardOf(s.shared, s.pumps[i].association), op, 0);
    } else if k: nat, op :| WorkerMoves(s, k, op, s') {
      HistoryGrows(s.shared, k, op, 0);
      if s.shared.alive {
        assert !OnTheWayOut(s.workers[k]) && !OnTheWayOut(s'.workers[k]);
      }
    }
  }

  lemma ExitedIsOver(s: State, k: nat)
    requires AllStay(s) && k < |s.workers| && s.workers[k].Exited?
    ensures !s.shared.alive
  {
    assert OnTheWayOut(s.workers[k]);
  }

  lemma ExitFacts(run: seq<State>, k: nat, m: nat)
    requires IsRun(run) && ExitsAt(run, k, m)
    ensures WellFormed(run[m]) && k < |run[m].workers|
    ensures run[m].shared.queues[k] == [] && run[m].shared.taken[k] == run[m].shared.sent[k]
    ensures !run[m].shared.alive
  {
    hide IsRun, Next, Inv, AllStay;
    RunsKeepInv(run, m - 1);
    SameWorkers(run, m - 1);
    SameWorkers(run, m);
    RunStep(run, m);
    ExitDrains(run[m - 1], run[m], k);
    LeavingIsOver(run, m);
    ExitedIsOver(run[m], k);
  }

  /** In every run: at its exit a worker has taken every job sent so far, and from then on its
      queue holds exactly the jobs sent later. */
  lemma LateJobsStay(run: seq<State>, k: nat, m: nat, n: nat)
    requires IsRun(run) && ExitsAt(run, k, m) && m <= n < |run|
    ensures WellFormed(run[m]) && WellFormed(run[n]) && k < |run[m].workers| == |run[n].workers|
    ensures !run[m].shared.alive && run[m].shared.queues[k] == []
    ensures run[m].shared.sent[k] <= run[n].shared.sent[k]
    ensures run[n].shared.taken[k] == run[m].shared.sent[k]
    ensures run[n].shared.queues[k] == run[n].shared.sent[k][|run[m].shared.sent[k]|..]
  {
    RunsKeepInv(run, n);
    hide IsRun, Next, Inv;
    ExitFacts(run, k, m);
    ExitedFrom(run, k, m, n);
    Fifo(run[n], k);
  }

  /** No job was sent to a shard after its worker's exit. */
  ghost predicate NoLateJobs(run: seq<State>)
    requires run != []
  {
    forall k: nat, m: nat | ExitsAt(run, k, m) && k < |run[m].shared.sent| && k < |run[|run| - 1].shared.sent| ::
      run[|run| - 1].shared.sent[k] == run[m].shared.sent[k]
  }

  lemma {:induction false} FindExit(run: seq<State>, k: nat, n: nat) returns (m: nat)
    requires IsRun(run) && n < |run| && k < |run[n].workers| && run[n].workers[k].Exited?
    ensures m <= n && ExitsAt(run, k, m)
  {
    SameWorkers(run, n);
    hide Next;
    if n > 0 {
      SameWorkers(run, n - 1);
      if run[n - 1].workers[k].Exited? {
        m := FindExit(run, k, n - 1);
      } else {
        m := n;
      }
    }
  }

  /** With every goroutine at rest and every worker gone, queueDepth is zero exactly if no job
      was sent after an exit, and then every slot and every buffer is back. */
  lemma ShutdownReturnsIff(run: seq<State>)
    requires IsRun(run)
    requires var s := run[|run| - 1];
             && (forall i | 0 <= i < |s.pumps| :: s.pumps[i].at == Idle)
             && (forall k | 0 <= k < |s.workers| :: s.workers[k].Exited?)
    ensures var h := run[|run| - 1].shared;
            && (h.depth == 0 <==> NoLateJobs(run))
            && (NoLateJobs(run) ==>
                  && h.slotsUsed == 0
                  && forall b: BufId | b < h.created :: h.pool[b] + h.lost[b] == 1)
  {
    var n := |run| - 1;
    var s := run[n];
    SameWorkers(run, n);
    RunsKeepInv(run, n);
    QuietMeansReturned(s);
    hide Inv, IsRun, ExitsAt, QueuedJobs, Queued;
    forall k: nat, m: nat | ExitsAt(run, k, m)
      ensures k < |s.shared.queues| == |s.shared.sent| && k < |run[m].shared.sent|
      ensures s.shared.queues[k] == [] <==> s.shared.sent[k] == run[m].shared.sent[k]
    {
      LateJobsStay(run, k, m, n);
    }
    EmptyQueues(s.shared);
    if NoLateJobs(run) {
      forall k | 0 <= k < |s.shared.queues|
        ensures s.shared.queues[k] == []
      {
        var m := FindExit(run, k, n);
      }
    }
  }

  /** No queued jobs means empty queues, and those hold no tokens. */
  lemma EmptyQueues(h: Shared)
    ensures QueuedJobs(h) == 0 <==> forall k | 0 <= k < |h.queues| :: h.queues[k] == []
    ensures QueuedJobs(h) == 0 ==> forall t :: Queued(h, t) == 0
  {
    if QueuedJobs(h) == 0 {
      forall k | 0 <= k < |h.queues|
        ensures h.queues[k] == []
      {
        SumAtLeast(h.queues, k, QueueLength());
      }
      forall t
        ensures Queued(h, t) == 0
      {
        SumZero(h.queues, QueueCounter(t));
      }
    }
    if forall k | 0 <= k < |h.queues| :: h.queues[k] == [] {
      SumZero(h.queues, QueueLength());
    }
  }

  /** One inbound association over one shard. */
  function Small(h: Shared, at: Point, w: Worker): State {
    State(h, 1, [Pump(0, true, false, false, at)], [w])
  }

  lemma SmallPumps(h: Shared, at: Point, w: Worker, op: Op, at': Point)
    requires ShardsMatch(h) && |h.queues| == 1 && Enabled(h, 0, op)
    requires PumpStep(1, Pump(0, true, false, false, at), op, Pump(0, true, false, false, at'))
    ensures WellFormed(Small(h, at, w)) && Next(Small(h, at, w), Small(Apply(h, 0, op), at', w))
  {
    hide PumpStep, Apply, Enabled;
    assert PumpMoves(Small(h, at, w), 0, op, Small(Apply(h, 0, op), at', w));
  }

  lemma SmallWorks(h: Shared, at: Point, w: Worker, op: Op, v: Worker)
    requires ShardsMatch(h) && |h.queues| == 1 && Enabled(h, 0, op) && WorkerStep(w, op, v)
    ensures WellFormed(Small(h, at, w)) && Next(Small(h, at, w), Small(Apply(h, 0, op), at, v))
  {
    hide WorkerStep, Apply, Enabled;
    assert WorkerMoves(Small(h, at, w), 0, op, Small(Apply(h, 0, op), at, v));
  }

  /** The runtime of the example: buffers made, packets read, lifetime, jobs, depth, packets counted. */
  function Runtime(created: nat, read: nat, alive: bool, jobs: seq<Job>, depth: nat, counted: nat): Shared {
    Shared(created, multiset{}, multiset{}, 0, 0, alive, [1], [jobs], [jobs], [[]], depth,
           Metrics(0, 0, 0, 0, counted), read, 0)
  }

  const ONE_HELD := Held(0, false)
  const ONE_PACKET := Packet(ONE_HELD, false)
  const ONE_JOB := Job(0, ONE_HELD)
  const FRESH := Batch([ONE_PACKET], [], [], false, [], [], 0)
  const CHECKED := Batch([], [], [ONE_HELD], false, [], [], 1)
  const SENT := Batch([], [], [], true, [], [], 1)
  const DONE := Batch([], [], [], false, [], [], 1)

  function LateState(i: nat): State {
    match i
    case 0 => Small(Runtime(0, 0, true, [], 0, 0), Idle, Ready)
    case 1 => Small(Runtime(1, 0, true, [], 0, 0), Blocked(0), Ready)
    case 2 => Small(Runtime(1, 0, true, [], 0, 0), Trimming([ONE_PACKET], []), Ready)
    case 3 => Small(Runtime(1, 1, true, [], 0, 0), Processing(FRESH), Ready)
    case 4 => Small(Runtime(1, 1, true, [], 0, 0), Processing(CHECKED), Ready)
    case 5 => Small(Runtime(1, 1, false, [], 0, 0), Processing(CHECKED), Ready)
    case 6 => Small(Runtime(1, 1, false, [], 0, 0), Processing(CHECKED), Leaving)
    case 7 => Small(Runtime(1, 1, false, [], 0, 0), Processing(CHECKED), Exited)
    case 8 => Small(Runtime(1, 1, false, [ONE_JOB], 0, 0), Processing(SENT), Exited)
    case 9 => Small(Runtime(1, 1, false, [ONE_JOB], 1, 0), Processing(DONE), Exited)
    case 10 => Small(Runtime(1, 1, false, [ONE_JOB], 1, 1), Flushing([], []), Exited)
    case _ => Small(Runtime(1, 1, false, [ONE_JOB], 1, 1), Idle, Exited)
  }

  lemma LateReads(i: nat)
    requires i < 5
    ensures WellFormed(LateState(i)) && Next(LateState(i), LateState(i + 1))
  {
    hide Next;
    match i
    case 0 => SmallPumps(Runtime(0, 0, true, [], 0, 0), Idle, Ready, Get(0), Blocked(0));
    case 1 => SmallPumps(Runtime(1, 0, true, [], 0, 0), Blocked(0), Ready, Local, Trimming([ONE_PACKET], []));
    case 2 => SmallPumps(Runtime(1, 0, true, [], 0, 0), Trimming([ONE_PACKET], []), Ready, ReadIn(1), Processing(FRESH));
    case 3 =>
      SmallPumps(Runtime(1, 1, true, [], 0, 0), Processing(FRESH), Ready, LifetimeAlive, Processing(CHECKED));
    case _ => SmallShutdown();
  }

  lemma SmallShutdown()
    ensures WellFormed(LateState(4)) && Next(LateState(4), LateState(5))
  {
    assert Shutdown(LateState(4), LateState(5));
  }

  lemma SmallLateSend()
    ensures WellFormed(LateState(7)) && Next(LateState(7), LateState(8))
  {
    hide Next;
    var h := Runtime(1, 1, false, [], 0, 0);
    SmallPumps(h, Processing(CHECKED), Exited, Enqueue(ONE_JOB), Processing(SENT));
    assert [] + [ONE_JOB] == [ONE_JOB];
    assert h.queues[0 := [ONE_JOB]] == [[ONE_JOB]] && h.sent[0 := [ONE_JOB]] == [[ONE_JOB]];
  }

  lemma LateSends(i: nat)
    requires 5 <= i < 11
    ensures WellFormed(LateState(i)) && Next(LateState(i), LateState(i + 1))
  {
    hide Next;
    var h := Runtime(1, 1, false, [], 0, 0);
    match i
    case 5 => SmallWorks(h, Processing(CHECKED), Ready, LifetimeOver, Leaving);
    case 6 => SmallWorks(h, Processing(CHECKED), Leaving, QueueEmpty, Exited);
    case 7 => SmallLateSend();
    case 8 => SmallPumps(Runtime(1, 1, false, [ONE_JOB], 0, 0), Processing(SENT), Exited, CountSend, Processing(DONE));
    case 9 => SmallPumps(Runtime(1, 1, false, [ONE_JOB], 1, 0), Processing(DONE), Exited, CountIn(1), Flushing([], []));
    case _ => SmallPumps(Runtime(1, 1, false, [ONE_JOB], 1, 1), Flushing([], []), Exited, Local, Idle);
  }

  /** A job can be sent after an exit: the pump asks whether the lifetime is over before the
      worker leaves, and sends afterwards. Then the job, its buffer and the depth stay. */
  lemma LateJobExample() returns (run: seq<State>)
    ensures IsRun(run)
    ensures var s := run[|run| - 1];
            && (forall i | 0 <= i < |s.pumps| :: s.pumps[i].at == Idle)
            && (forall k | 0 <= k < |s.workers| :: s.workers[k].Exited?)
            && s.shared.depth == 1 && !NoLateJobs(run)
            && s.shared.created == 1 && s.shared.pool == s.shared.lost == multiset{}
  {
    run := seq(12, i requires 0 <= i < 12 => LateState(i));
    assert run[0] == LateState(0) && run[11] == LateState(11);
    assert Init(run[0]);
    hide Next, Init;
    forall i | 0 <= i < |run| - 1
      ensures WellFormed(run[i]) && Next(run[i], run[i + 1])
    {
      hide LateState;
      if i < 5 {
        LateReads(i);
      } else {
        LateSends(i);
      }
    }
    assert IsRun(run);
    hide IsRun;
    ShutdownReturnsIff(run);
  }

  /** What a worker can do next once the lifetime is over. */
  lemma WorkerChoice(w: Worker, queue: seq<Job>) returns (op: Op, v: Worker)
    requires !w.Exited?
    ensures WorkerStep(w, op, v)
    ensures match op
            case Take(job) => queue != [] && queue[0] == job
            case QueueEmpty => queue == []
            case _ => op in {LifetimeOver, CountTake, Local, ReleaseSlot} || op.Put?
  {
    match w
    case Ready => op, v := LifetimeOver, Leaving;
    case Took(held, leaving) => op, v := CountTake, Releasing([held], leaving);
    case Releasing(rest, leaving) =>
      if rest == [] {
        op, v := Local, if leaving then Leaving else Ready;
      } else if rest[0].slot {
        op, v := ReleaseSlot, Releasing([rest[0].(slot := false)] + rest[1..], leaving);
      } else {
        op, v := Put(rest[0].buf), Releasing(rest[1..], leaving);
      }
    case Leaving =>
      op, v := QueueEmpty, Exited;
      if queue != [] {
        op, v := Take(queue[0]), Took(queue[0].held, true);
      }
  }

  /** Once the lifetime is over no worker waits for anything. */
  lemma WorkersFinish(s: State, k: nat) returns (op: Op, s': State)
    requires Inv(s) && !s.shared.alive && k < |s.workers| && !s.workers[k].Exited?
    ensures WellFormed(s) && WorkerMoves(s, k, op, s')
  {
    assert WellFormed(s);
    hide Inv, Apply, WorkerStep;
    var v: Worker;
    op, v := WorkerChoice(s.workers[k], s.shared.queues[k]);
    WorkerReleasesSafely(s, k, op, v);
    s' := s.(shared := Apply(s.shared, k, op), workers := s.workers[k := v]);
  }

  /** The jobs of one association, in order. */
  function JobsOf(jobs: seq<Job>, association: nat): seq<Job> {
    if jobs == [] then []
    else if jobs[0].association == association then [jobs[0]] + JobsOf(jobs[1..], association)
    else JobsOf(jobs[1..], association)
  }

  lemma {:induction false} JobsOfConcat(a: seq<Job>, b: seq<Job>, association: nat)
    ensures JobsOf(a + b, association) == JobsOf(a, association) + JobsOf(b, association)
  {
    if a == [] {
      assert a + b == b;
    } else {
      assert (a + b)[0] == a[0] && (a + b)[1..] == a[1..] + b;
      JobsOfConcat(a[1..], b, association);
      assert [a[0]] + (JobsOf(a[1..], association) + JobsOf(b, association))
          == ([a[0]] + JobsOf(a[1..], association)) + JobsOf(b, association);
    }
  }

  lemma {:induction false} NoJobsElsewhere(jobs: seq<Job>, association: nat)
    requires forall j | 0 <= j < |jobs| :: jobs[j].association != association
    ensures JobsOf(jobs, association) == []
  {
    if jobs != [] {
      NoJobsElsewhere(jobs[1..], association);
    }
  }

  /** One association's jobs leave its shard's queue in dispatch order, and no other
      shard ever sees them. */
  lemma AssociationFifo(h: Shared, association: nat)
    requires ShardsMatch(h) && ShardsFifo(h)
    ensures var k := ShardOf(h, association);
            JobsOf(h.sent[k], association) == JobsOf(h.taken[k], association) + JobsOf(h.queues[k], association)
    ensures forall k | 0 <= k < |h.queues| && k != ShardOf(h, association) :: JobsOf(h.sent[k], association) == []
  {
    JobsOfConcat(h.taken[ShardOf(h, association)], h.queues[ShardOf(h, association)], association);
    forall k | 0 <= k < |h.queues| && k != ShardOf(h, association)
      ensures JobsOf(h.sent[k], association) == []
    {
      forall j | 0 <= j < |h.sent[k]|
        ensures h.sent[k][j].association != association
      {
        assert ShardOf(h, h.sent[k][j].association) == k;
      }
      NoJobsElsewhere(h.sent[k], association);
    }
  }

  // ---- shard capacities ----

  function Total(xs: seq<nat>): nat {
    if xs == [] then 0 else Total(xs[..|xs| - 1]) + xs[|xs| - 1]
  }

  /** The number of workers: configured, or derived from the processors, and never more
      than the queue has room for. */
  function WorkerCountFor(sendWorkers: nat, processors: nat, sendQueueSize: nat): nat {
    var wanted :=
      if sendWorkers != 0 then sendWorkers
      else if processors * 2 < 4 then 4
      else if processors * 2 > 64 then 64
      else processors * 2;
    if wanted > sendQueueSize then sendQueueSize else wanted
  }

  /** The configured number, or twice the processors between 4 and 64, as far as the queue allows. */
  lemma WorkerCountBounds(sendWorkers: nat, processors: nat, sendQueueSize: nat)
    ensures var n := WorkerCountFor(sendWorkers, processors, sendQueueSize);
            && n <= sendQueueSize
            && (sendWorkers > 0 ==> n <= sendWorkers && (n == sendWorkers || n == sendQueueSize))
            && (sendWorkers == 0 && processors <= 2 ==> n <= 4 && (n == 4 || n == sendQueueSize))
            && (sendWorkers == 0 && 2 <= processors <= 32 ==>
                  n <= processors + processors && (n == processors + processors || n == sendQueueSize))
            && (sendWorkers == 0 && processors >= 32 ==> n <= 64 && (n == 64 || n == sendQueueSize))
  {
  }

  /** startDispatcher: every shard gets room for at least one job, the shares differ by
      at most one, and together they are exactly the configured queue size. */
  method StartDispatcher(sendWorkers: nat, processors: nat, sendQueueSize: nat) returns (capacities: seq<nat>)
    requires sendQueueSize >= 1
    ensures |capacities| == WorkerCountFor(sendWorkers, processors, sendQueueSize) >= 1
    ensures forall i | 0 <= i < |capacities| :: capacities[i] >= 1
    ensures forall i, j | 0 <= i < |capacities| && 0 <= j < |capacities| :: capacities[i] <= capacities[j] + 1
    ensures Total(capacities) == sendQueueSize
  {
    var workers := WorkerCountFor(sendWorkers, processors, sendQueueSize);
    var queuePerShard := sendQueueSize / workers;
    var extraQueueSlots := sendQueueSize % workers;
    SharesAtLeastOne(sendQueueSize, workers);
    capacities := [];
    for index := 0 to workers
      invariant |capacities| == index
      invariant forall i | 0 <= i < index :: queuePerShard <= capacities[i] <= queuePerShard + 1
      invariant Total(capacities) == index * queuePerShard + if index < extraQueueSlots then index else extraQueueSlots
    {
      var capacity := queuePerShard;
      if index < extraQueueSlots {
        capacity := capacity + 1;
      }
      NextShare(index, queuePerShard);
      TotalAppend(capacities, capacity);
      capacities := capacities + [capacity];
    }
  }

  lemma NextShare(index: nat, share: nat)
    ensures (index + 1) * share == index * share + share
  {
  }

  lemma TotalAppend(xs: seq<nat>, x: nat)
    ensures Total(xs + [x]) == Total(xs) + x
  {
    assert (xs + [x])[..|xs|] == xs;
  }

  lemma SharesAtLeastOne(size: nat, workers: nat)
    requires 1 <= workers <= size
    ensures size / workers >= 1 && 0 <= size % workers < workers
    ensures workers * (size / workers) + size % workers == size
  {
  }
}
