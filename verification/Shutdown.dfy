/** Accept loops, connection handlers, the connection gate and CloseAll over the sharded
    connection set, interleaved step by step. */
module Shutdown {

  /** A connection's identity pointer. */
  type Conn = nat

  const SHARDS := 32

  /** Fibonacci hashing of the pointer: the five top bits of a 64-bit product. */
  function ShardOf(c: Conn): (k: nat)
    ensures k < SHARDS
  {
    (c * 0x9e3779b97f4a7c15) % 0x1_0000_0000_0000_0000 / 0x800_0000_0000_0000
  }

  datatype Loop =
    | Accepting
    | Got(conn: Conn)            // accepted, no token yet
    | Holding(held: Conn)        // token taken, shutdown not yet checked
    | Admitted(admitted: Conn)   // AcquireUntil returned true
    | Refused(refused: Conn)     // Add returned false, token still held
    | Stopped

  datatype Shard = Shard(closed: bool, conns: set<Conn>)

  datatype Closer = NotClosing | Marking(next: nat) | Closing(shard: nat, left: set<Conn>) | AllClosed

  /** `limit` is 0 for an unlimited gate. `running` are handlers in progress, `removed`
      those that unregistered but still hold their token. `seen`, `registered`,
      `unregistered` and `closed` are history. */
  datatype State = State(
    limit: nat, tokens: nat, loops: seq<Loop>, running: set<Conn>, removed: set<Conn>,
    shards: seq<Shard>, done: bool, closer: Closer,
    seen: set<Conn>, registered: set<Conn>, unregistered: set<Conn>, closed: set<Conn>)

  datatype Action =
    | Accept(l: nat, c: Conn) | ListenerClosed(l: nat)
    | TakeToken(l: nat) | PassUnlimited(l: nat) | GiveUp(l: nat)
    | Pass(l: nat) | GiveBack(l: nat)
    | Add(l: nat) | ReleaseRefused(l: nat)
    | Remove(c: Conn) | Release(c: Conn)
    | StartClose | Mark | CloseOne(c: Conn) | NextShard

  predicate Enabled(s: State, a: Action) {
    |s.shards| == SHARDS &&
    match a
    case Accept(l, c) => l < |s.loops| && s.loops[l].Accepting? && c !in s.seen
    case ListenerClosed(l) => l < |s.loops| && s.loops[l].Accepting?
    case TakeToken(l) => l < |s.loops| && s.loops[l].Got? && s.tokens < s.limit
    case PassUnlimited(l) => l < |s.loops| && s.loops[l].Got? && s.limit == 0 && !s.done
    case GiveUp(l) => l < |s.loops| && s.loops[l].Got? && s.done
    case Pass(l) => l < |s.loops| && s.loops[l].Holding? && !s.done
    case GiveBack(l) => l < |s.loops| && s.loops[l].Holding? && s.done
    case Add(l) => l < |s.loops| && s.loops[l].Admitted?
    case ReleaseRefused(l) => l < |s.loops| && s.loops[l].Refused?
    case Remove(c) => c in s.running
    case Release(c) => c in s.removed
    case StartClose => s.closer.NotClosing?
    case Mark => s.closer.Marking? && s.closer.next < SHARDS
    case CloseOne(c) => s.closer.Closing? && c in s.closer.left
    case NextShard => (s.closer.Closing? && s.closer.left == {}) || s.closer == Marking(SHARDS)
  }

  function SetLoop(s: State, l: nat, v: Loop): State
    requires l < |s.loops|
  {
    s.(loops := s.loops[l := v])
  }

  /** Returning a token; nothing to return on an unlimited gate. */
  function Returned(s: State): State {
    if s.limit > 0 && s.tokens > 0 then s.(tokens := s.tokens - 1) else s
  }

  function After(s: State, a: Action): State
    requires Enabled(s, a)
  {
    match a
    case Accept(l, c) => SetLoop(s, l, Got(c)).(seen := s.seen + {c})
    case ListenerClosed(l) => SetLoop(s, l, Stopped)
    case TakeToken(l) => SetLoop(s, l, Holding(s.loops[l].conn)).(tokens := s.tokens + 1)
    case PassUnlimited(l) => SetLoop(s, l, Admitted(s.loops[l].conn))
    case GiveUp(l) => SetLoop(s, l, Stopped)
    case Pass(l) => SetLoop(s, l, Admitted(s.loops[l].held))
    case GiveBack(l) => SetLoop(Returned(s), l, Stopped)
    case Add(l) =>
      var c := s.loops[l].admitted;
      var shard := s.shards[ShardOf(c)];
      if shard.closed then SetLoop(s, l, Refused(c))
      else SetLoop(s, l, Accepting).(
             shards := s.shards[ShardOf(c) := shard.(conns := shard.conns + {c})],
             registered := s.registered + {c}, running := s.running + {c})
    case ReleaseRefused(l) => SetLoop(Returned(s), l, Accepting)
    case Remove(c) =>
      var shard := s.shards[ShardOf(c)];
      s.(shards := s.shards[ShardOf(c) := shard.(conns := shard.conns - {c})],
         running := s.running - {c}, removed := s.removed + {c}, unregistered := s.unregistered + {c})
    case Release(c) => Returned(s).(removed := s.removed - {c})
    case StartClose => s.(done := true, closer := Marking(0))
    case Mark =>
      var k := s.closer.next;
      s.(shards := s.shards[k := Shard(true, {})], closer := Closing(k, s.shards[k].conns))
    case CloseOne(c) => s.(closed := s.closed + {c}, closer := Closing(s.closer.shard, s.closer.left - {c}))
    case NextShard =>
      if s.closer.Closing? then s.(closer := Marking(s.closer.shard + 1)) else s.(closer := AllClosed)
  }

  predicate Init(s: State) {
    && s.tokens == 0 && s.running == {} && s.removed == {} && !s.done && s.closer == NotClosing
    && s.seen == {} && s.registered == {} && s.unregistered == {} && s.closed == {}
    && |s.shards| == SHARDS
    && (forall k | 0 <= k < SHARDS :: s.shards[k] == Shard(false, {}))
    && (forall l | 0 <= l < |s.loops| :: s.loops[l] == Accepting)
  }

  // ---- the gate ----

  predicate HasToken(v: Loop) {
    v.Holding? || v.Admitted? || v.Refused?
  }

  function CountHolders(loops: seq<Loop>): nat {
    if loops == [] then 0 else (if HasToken(loops[0]) then 1 else 0) + CountHolders(loops[1..])
  }

  lemma {:induction false} HoldersUpdate(loops: seq<Loop>, l: nat, v: Loop)
    requires l < |loops|
    ensures CountHolders(loops[l := v]) + (if HasToken(loops[l]) then 1 else 0)
         == CountHolders(loops) + (if HasToken(v) then 1 else 0)
  {
    if l == 0 {
      assert loops[l := v][1..] == loops[1..];
    } else {
      assert loops[l := v][1..] == loops[1..][l - 1 := v];
      HoldersUpdate(loops[1..], l - 1, v);
    }
  }

  lemma {:induction false} NoHolders(loops: seq<Loop>)
    requires forall l | 0 <= l < |loops| :: loops[l] == Accepting
    ensures CountHolders(loops) == 0
  {
    if loops != [] {
      NoHolders(loops[1..]);
    }
  }

  /** Tokens equal current holders: loops past AcquireUntil and unfinished handlers. */
  predicate GateOk(s: State) {
    && (s.limit > 0 ==> s.tokens == CountHolders(s.loops) + |s.running| + |s.removed| <= s.limit)
    && (s.limit == 0 ==> s.tokens == 0)
  }

  // ---- the registry ----

  /** Which shards CloseAll has marked. */
  predicate Marked(s: State, k: nat) {
    match s.closer
    case NotClosing => false
    case Marking(next) => k < next
    case Closing(shard, _) => k <= shard
    case AllClosed => true
  }

  function Remaining(s: State): set<Conn> {
    if s.closer.Closing? then s.closer.left else {}
  }

  /** A registered connection is still in its shard, taken by CloseAll, closed by it, or
      was unregistered by its handler. */
  predicate Tracked(s: State, c: Conn)
    requires |s.shards| == SHARDS
  {
    c in s.shards[ShardOf(c)].conns || c in Remaining(s) || c in s.closed || c in s.unregistered
  }

  predicate ShardOk(s: State, k: nat)
    requires k < |s.shards|
  {
    && (s.shards[k].closed <==> Marked(s, k))
    && (s.shards[k].closed ==> s.shards[k].conns == {})
  }

  predicate LoopOk(s: State, l: nat)
    requires l < |s.loops|
  {
    match s.loops[l]
    case Got(c) => c in s.seen && c !in s.registered
    case Holding(c) => c in s.seen && c !in s.registered
    case Admitted(c) => c in s.seen && c !in s.registered
    case _ => true
  }

  predicate LoopsDistinct(s: State) {
    forall k, l | 0 <= k < |s.loops| && 0 <= l < |s.loops| && k != l ::
      Carried(s.loops[k]) !! Carried(s.loops[l])
  }

  /** The connection an accept loop is about to register. */
  function Carried(v: Loop): set<Conn> {
    match v
    case Got(c) => {c}
    case Holding(c) => {c}
    case Admitted(c) => {c}
    case _ => {}
  }

  predicate RegistryOk(s: State) {
    && |s.shards| == SHARDS
    && (forall k | 0 <= k < SHARDS :: ShardOk(s, k))
    && (forall c | c in s.registered :: Tracked(s, c))
    && s.registered <= s.seen && s.unregistered <= s.registered
    && (s.closer.Marking? ==> s.closer.next <= SHARDS) && (s.closer.Closing? ==> s.closer.shard < SHARDS)
    && (!s.closer.NotClosing? ==> s.done)
  }

  predicate RunningOk(s: State) {
    s.running <= s.registered && s.running !! s.unregistered && s.running !! s.removed && s.removed <= s.unregistered
  }

  predicate HandlersOk(s: State) {
    && RunningOk(s)
    && (forall l | 0 <= l < |s.loops| :: LoopOk(s, l))
    && LoopsDistinct(s)
  }

  predicate Inv(s: State) {
    RegistryOk(s) && HandlersOk(s) && GateOk(s)
  }

  lemma InitInv(s: State)
    requires Init(s)
    ensures Inv(s)
  {
    NoHolders(s.loops);
  }

  predicate RegistryAction(a: Action) {
    a.Add? || a.Remove? || a.StartClose? || a.Mark? || a.CloseOne? || a.NextShard?
  }

  lemma QuietKeepsRegistry(s: State, a: Action)
    requires RegistryOk(s) && Enabled(s, a) && !RegistryAction(a)
    ensures RegistryOk(After(s, a))
  {
    hide ShardOf;
    var t := After(s, a);
    forall k | 0 <= k < SHARDS
      ensures ShardOk(t, k)
    {
      assert ShardOk(s, k);
    }
    forall c | c in t.registered
      ensures Tracked(t, c)
    {
      assert Tracked(s, c);
    }
  }

  lemma HandlersKeepRegistry(s: State, a: Action)
    requires RegistryOk(s) && HandlersOk(s) && Enabled(s, a) && (a.Add? || a.Remove?)
    ensures RegistryOk(After(s, a))
  {
    hide ShardOf;
    var t := After(s, a);
    if a.Add? {
      assert LoopOk(s, a.l);
    }
    forall k | 0 <= k < SHARDS
      ensures ShardOk(t, k)
    {
      assert ShardOk(s, k);
    }
    forall c | c in t.registered
      ensures Tracked(t, c)
    {
      assert c in s.registered ==> Tracked(s, c);
    }
  }

  lemma CloserKeepsRegistry(s: State, a: Action)
    requires RegistryOk(s) && Enabled(s, a) && (a.StartClose? || a.Mark? || a.CloseOne? || a.NextShard?)
    ensures RegistryOk(After(s, a))
  {
    hide ShardOf;
    var t := After(s, a);
    forall k | 0 <= k < SHARDS
      ensures ShardOk(t, k)
    {
      assert ShardOk(s, k);
    }
    forall c | c in t.registered
      ensures Tracked(t, c)
    {
      assert Tracked(s, c);
    }
  }

  // ---- handlers and loops ----

  /** An accept loop other than the acting one is as it was. */
  lemma KeepsHandlers(s: State, a: Action)
    requires RegistryOk(s) && HandlersOk(s) && Enabled(s, a)
    ensures HandlersOk(After(s, a))
  {
    var t := After(s, a);
    KeepsDistinct(s, a);
    RunningKept(s, a);
    hide After, Enabled, RegistryOk;
    forall l | 0 <= l < |t.loops|
      ensures LoopOk(t, l)
    {
      KeepsLoop(s, a, l);
    }
  }

  lemma RunningKept(s: State, a: Action)
    requires RegistryOk(s) && HandlersOk(s) && Enabled(s, a)
    ensures RunningOk(After(s, a))
  {
    hide ShardOf, Tracked, ShardOk;
    if a.Add? {
      assert LoopOk(s, a.l);
    }
    hide LoopOk, LoopsDistinct;
  }

  lemma KeepsLoop(s: State, a: Action, l: nat)
    requires RegistryOk(s) && HandlersOk(s) && Enabled(s, a) && l < |After(s, a).loops|
    ensures LoopOk(After(s, a), l)
  {
    assert s.registered <= s.seen && LoopOk(s, l);
    assert a.Add? ==> LoopOk(s, a.l) && (l != a.l ==> Carried(s.loops[a.l]) !! Carried(s.loops[l]));
    hide ShardOf, RegistryOk, HandlersOk;
  }

  lemma KeepsDistinct(s: State, a: Action)
    requires HandlersOk(s) && Enabled(s, a)
    ensures LoopsDistinct(After(s, a))
  {
    hide ShardOf;
    var t := After(s, a);
    forall k, l | 0 <= k < |t.loops| && 0 <= l < |t.loops| && k != l
      ensures Carried(t.loops[k]) !! Carried(t.loops[l])
    {
      assert LoopOk(s, k) && LoopOk(s, l);
      assert Carried(s.loops[k]) !! Carried(s.loops[l]);
    }
  }

  lemma LoopsKeepGate(s: State, a: Action)
    requires GateOk(s) && Enabled(s, a) && !a.Remove? && !a.Release? && !a.Add?
    ensures GateOk(After(s, a))
  {
    hide ShardOf, CountHolders;
    if !RegistryAction(a) {
      HoldersUpdate(s.loops, a.l, After(s, a).loops[a.l]);
    }
  }

  lemma AddKeepsGate(s: State, l: nat)
    requires GateOk(s) && HandlersOk(s) && Enabled(s, Add(l))
    ensures GateOk(After(s, Add(l)))
  {
    hide ShardOf, CountHolders;
    assert LoopOk(s, l);
    HoldersUpdate(s.loops, l, After(s, Add(l)).loops[l]);
    assert |s.running + {s.loops[l].admitted}| == |s.running| + 1;
  }

  lemma RemoveKeepsGate(s: State, c: Conn)
    requires GateOk(s) && RunningOk(s) && Enabled(s, Remove(c))
    ensures GateOk(After(s, Remove(c)))
  {
    hide ShardOf, CountHolders;
    assert |s.running - {c}| == |s.running| - 1 && |s.removed + {c}| == |s.removed| + 1;
  }

  lemma ReleaseKeepsGate(s: State, c: Conn)
    requires GateOk(s) && Enabled(s, Release(c))
    ensures GateOk(After(s, Release(c)))
  {
    hide ShardOf, CountHolders;
    assert |s.removed - {c}| == |s.removed| - 1;
  }

  lemma HandlersKeepGate(s: State, a: Action)
    requires GateOk(s) && HandlersOk(s) && Enabled(s, a) && (a.Remove? || a.Release?)
    ensures GateOk(After(s, a))
  {
    hide GateOk, RunningOk, After, Enabled;
    if a.Remove? {
      RemoveKeepsGate(s, a.c);
    } else {
      ReleaseKeepsGate(s, a.c);
    }
  }

  lemma StepKeepsInv(s: State, a: Action)
    requires Inv(s) && Enabled(s, a)
    ensures Inv(After(s, a))
  {
    hide RegistryOk, HandlersOk, GateOk, After, Enabled;
    KeepsHandlers(s, a);
    if a.Add? {
      AddKeepsGate(s, a.l);
    } else if a.Remove? || a.Release? {
      HandlersKeepGate(s, a);
    } else {
      LoopsKeepGate(s, a);
    }
    if !RegistryAction(a) {
      QuietKeepsRegistry(s, a);
    } else if a.Add? || a.Remove? {
      HandlersKeepRegistry(s, a);
    } else {
      CloserKeepsRegistry(s, a);
    }
  }

  // ---- every run ----

  predicate CanRun(s: State, actions: seq<Action>)
    decreases |actions|
  {
    actions == [] || (Enabled(s, actions[0]) && CanRun(After(s, actions[0]), actions[1..]))
  }

  function Run(s: State, actions: seq<Action>): State
    requires CanRun(s, actions)
    decreases |actions|
  {
    if actions == [] then s else Run(After(s, actions[0]), actions[1..])
  }

  lemma {:induction false} RunsKeepInv(s: State, actions: seq<Action>)
    requires Inv(s) && CanRun(s, actions)
    ensures Inv(Run(s, actions))
    decreases |actions|
  {
    hide Inv, Enabled, After;
    if actions != [] {
      StepKeepsInv(s, actions[0]);
      RunsKeepInv(After(s, actions[0]), actions[1..]);
    }
  }

  /** In every interleaving: tokens equal holders within the limit, Add never succeeds on
      a marked shard, and from the moment CloseAll returned every connection ever
      registered was unregistered by its handler or closed by CloseAll, so no running
      handler keeps an open connection. */
  lemma ShutdownSafe(s0: State, actions: seq<Action>)
    requires Init(s0) && CanRun(s0, actions)
    ensures var s := Run(s0, actions);
            && GateOk(s)
            && (forall l: nat | Enabled(s, Add(l)) && Marked(s, ShardOf(s.loops[l].admitted)) ::
                  After(s, Add(l)).registered == s.registered)
            && (s.closer == AllClosed ==> s.registered <= s.unregistered + s.closed && s.running <= s.closed)
  {
    hide Init, Inv;
    InitInv(s0);
    RunsKeepInv(s0, actions);
    InvIsSafe(Run(s0, actions));
  }

  lemma InvIsSafe(s: State)
    requires Inv(s)
    ensures GateOk(s)
    ensures forall l: nat | Enabled(s, Add(l)) && Marked(s, ShardOf(s.loops[l].admitted)) ::
              After(s, Add(l)).registered == s.registered
    ensures s.closer == AllClosed ==> s.registered <= s.unregistered + s.closed && s.running <= s.closed
  {
    hide ShardOf, CountHolders;
    forall l: nat | Enabled(s, Add(l)) && Marked(s, ShardOf(s.loops[l].admitted))
      ensures After(s, Add(l)).registered == s.registered
    {
      assert ShardOk(s, ShardOf(s.loops[l].admitted));
    }
    if s.closer == AllClosed {
      forall c | c in s.registered
        ensures c in s.unregistered + s.closed
      {
        assert Tracked(s, c) && ShardOk(s, ShardOf(c));
      }
    }
  }

  // ---- the exact registry ----

  /** A shard holds exactly the connections of running handlers until it is marked, and CloseAll
      only ever closes registered ones. */
  predicate ExactOk(s: State) {
    && |s.shards| == SHARDS
    && (forall k, c | 0 <= k < SHARDS && c in s.shards[k].conns :: ShardOf(c) == k && c in s.running)
    && (forall c | c in s.running && !Marked(s, ShardOf(c)) :: c in s.shards[ShardOf(c)].conns)
    && s.closed + Remaining(s) <= s.registered
  }

  lemma HandlersKeepExact(s: State, a: Action)
    requires Inv(s) && ExactOk(s) && Enabled(s, a) && (a.Add? || a.Remove?)
    ensures ExactOk(After(s, a))
  {
    hide ShardOf, GateOk, LoopsDistinct;
    if a.Add? {
      assert LoopOk(s, a.l) && ShardOk(s, ShardOf(s.loops[a.l].admitted));
    } else {
      assert ShardOk(s, ShardOf(a.c));
    }
    hide ShardOk, LoopOk, Tracked;
  }

  lemma CloserKeepsExact(s: State, a: Action)
    requires Inv(s) && ExactOk(s) && Enabled(s, a) && !a.Add? && !a.Remove?
    ensures ExactOk(After(s, a))
  {
    hide ShardOf, GateOk, HandlersOk, ShardOk, Tracked;
    if a.Mark? {
      assert s.running <= s.registered by {
        RunningRegistered(s);
      }
    }
  }

  lemma RunningRegistered(s: State)
    requires Inv(s)
    ensures s.running <= s.registered
  {
  }

  // ---- no connection is lost before shutdown ----

  /** Until shutdown begins every accepted connection is on its way through an accept loop or was
      registered. */
  predicate AcceptedOk(s: State) {
    !s.done ==> forall c | c in s.seen :: c in s.registered || CarriedSomewhere(s, c)
  }

  predicate CarriedSomewhere(s: State, c: Conn) {
    exists l | 0 <= l < |s.loops| :: c in Carried(s.loops[l])
  }

  lemma KeepsAccepted(s: State, a: Action)
    requires Inv(s) && AcceptedOk(s) && Enabled(s, a)
    ensures AcceptedOk(After(s, a))
  {
    hide ShardOf, GateOk, HandlersOk;
    var t := After(s, a);
    if !t.done {
      forall c | c in t.seen
        ensures c in t.registered || CarriedSomewhere(t, c)
      {
        if c in s.seen && c !in s.registered {
          var l :| 0 <= l < |s.loops| && c in Carried(s.loops[l]);
          StillCarried(s, a, l, c);
        } else if a.Accept? && c == a.c {
          assert c in Carried(t.loops[a.l]);
        }
      }
    }
  }

  lemma StillCarried(s: State, a: Action, l: nat, c: Conn)
    requires RegistryOk(s) && Enabled(s, a) && !After(s, a).done && l < |s.loops| && c in Carried(s.loops[l])
    ensures c in After(s, a).registered || CarriedSomewhere(After(s, a), c)
  {
    hide ShardOf, Tracked;
    assert a.Add? ==> ShardOk(s, ShardOf(s.loops[a.l].admitted));
    var t := After(s, a);
    assert c in t.registered || c in Carried(t.loops[l]);
  }

  lemma {:induction false} RunsKeepAccounts(s: State, actions: seq<Action>)
    requires Inv(s) && ExactOk(s) && AcceptedOk(s) && CanRun(s, actions)
    ensures ExactOk(Run(s, actions)) && AcceptedOk(Run(s, actions))
    decreases |actions|
  {
    hide Inv, ExactOk, AcceptedOk, Enabled, After;
    if actions != [] {
      var a := actions[0];
      StepKeepsInv(s, a);
      KeepsAccepted(s, a);
      if a.Add? || a.Remove? {
        HandlersKeepExact(s, a);
      } else {
        CloserKeepsExact(s, a);
      }
      RunsKeepAccounts(After(s, a), actions[1..]);
    }
  }

  /** In every run: the shards not yet marked hold exactly the connections of running handlers,
      CloseAll closes registered connections only, and before shutdown no accepted connection is
      dropped. */
  lemma RegistryIsExact(s0: State, actions: seq<Action>)
    requires Init(s0) && CanRun(s0, actions)
    ensures var s := Run(s0, actions);
            && |s.shards| == SHARDS
            && (forall c :: c in s.shards[ShardOf(c)].conns <==> c in s.running && !Marked(s, ShardOf(c)))
            && s.closed <= s.registered
            && (!s.done ==> forall c | c in s.seen :: c in s.registered || CarriedSomewhere(s, c))
  {
    InitInv(s0);
    RunsKeepAccounts(s0, actions);
    RunsKeepInv(s0, actions);
    var s := Run(s0, actions);
    hide CanRun, Run, ShardOf, HandlersOk, GateOk;
    forall c
      ensures c in s.shards[ShardOf(c)].conns <==> c in s.running && !Marked(s, ShardOf(c))
    {
      assert ShardOk(s, ShardOf(c));
    }
  }

  /** The shard is the number formed by the five top bits of the product. */
  lemma ShardIsTopBits(c: Conn)
    ensures var h := (c * 0x9e3779b97f4a7c15) % 0x1_0000_0000_0000_0000;
            ShardOf(c) * 0x800_0000_0000_0000 <= h < (ShardOf(c) + 1) * 0x800_0000_0000_0000
  {
  }

  // ---- nothing waits forever ----

  /** A loop past its accept can always move on once shutdown began, and admits nothing from then
      on; before, only a full gate holds it back. */
  lemma LoopsMoveOn(s: State, l: nat, next: Conn)
    requires Inv(s) && l < |s.loops| && next !in s.seen
    ensures match s.loops[l]
            case Accepting =>
              && Enabled(s, ListenerClosed(l)) && After(s, ListenerClosed(l)).loops[l].Stopped?
              && Enabled(s, Accept(l, next)) && After(s, Accept(l, next)).loops[l] == Got(next)
            case Got(c) =>
              && (s.done ==> Enabled(s, GiveUp(l)) && After(s, GiveUp(l)).loops[l].Stopped?)
              && (!s.done && s.limit == 0 ==>
                    Enabled(s, PassUnlimited(l)) && After(s, PassUnlimited(l)).loops[l] == Admitted(c))
              && (s.tokens < s.limit ==> Enabled(s, TakeToken(l)) && After(s, TakeToken(l)).loops[l] == Holding(c))
            case Holding(c) =>
              if s.done then Enabled(s, GiveBack(l)) && After(s, GiveBack(l)).loops[l].Stopped?
              else Enabled(s, Pass(l)) && After(s, Pass(l)).loops[l] == Admitted(c)
            case Admitted(c) =>
              Enabled(s, Add(l)) && (After(s, Add(l)).loops[l] == Accepting || After(s, Add(l)).loops[l] == Refused(c))
            case Refused(_) => Enabled(s, ReleaseRefused(l)) && After(s, ReleaseRefused(l)).loops[l].Accepting?
            case Stopped => true
  {
    hide ShardOf, HandlersOk, GateOk, Tracked, ShardOk;
  }

  lemma NothingAdmittedAfterShutdown(s: State, a: Action, l: nat)
    requires Enabled(s, a) && l < |s.loops| && s.done
    ensures After(s, a).done && l < |After(s, a).loops|
    ensures After(s, a).loops[l].Admitted? ==> s.loops[l].Admitted?
  {
    hide ShardOf;
  }

  predicate CloserAction(a: Action) {
    a.StartClose? || a.Mark? || a.CloseOne? || a.NextShard?
  }

  /** How far CloseAll has to go, not counting the connections left in the current shard. */
  function StagesLeft(closer: Closer): int {
    match closer
    case NotClosing => 2 * SHARDS + 3
    case Marking(next) => 2 * (SHARDS - next) + 2
    case Closing(shard, _) => 2 * (SHARDS - shard) + 1
    case AllClosed => 0
  }

  /** Every step of CloseAll brings it closer to its end, and no other step moves it. */
  lemma CloserDescends(s: State, a: Action)
    requires Inv(s) && Enabled(s, a)
    ensures !CloserAction(a) ==> After(s, a).closer == s.closer
    ensures CloserAction(a) ==>
              var m, n := StagesLeft(s.closer), StagesLeft(After(s, a).closer);
              0 <= n && (n < m || (n == m && |Remaining(After(s, a))| < |Remaining(s)|))
  {
    hide ShardOf, HandlersOk, GateOk, ShardOk, Tracked;
    if a.CloseOne? {
      var left := s.closer.left;
      assert |left - {a.c}| == |left| - 1;
    }
  }

  /** CloseAll never has to wait for a handler or a loop. */
  lemma CloserMovesOn(s: State) returns (a: Action)
    requires Inv(s) && !s.closer.AllClosed?
    ensures Enabled(s, a) && CloserAction(a)
  {
    match s.closer
    case NotClosing => a := StartClose;
    case Marking(next) => a := if next < SHARDS then Mark else NextShard;
    case Closing(_, left) =>
      a := NextShard;
      if left != {} {
        var c :| c in left;
        a := CloseOne(c);
      }
  }

  /** From every reachable state CloseAll can run to its end on its own. */
  lemma {:induction false} CloseAllFinishes(s: State) returns (actions: seq<Action>)
    requires Inv(s)
    ensures CanRun(s, actions) && Run(s, actions).closer == AllClosed
    decreases StagesLeft(s.closer), |Remaining(s)|
  {
    actions := [];
    if s.closer != AllClosed {
      var a := CloserMovesOn(s);
      StepKeepsInv(s, a);
      CloserDescends(s, a);
      hide Inv, Enabled, After;
      var more := CloseAllFinishes(After(s, a));
      actions := [a] + more;
      assert actions[0] == a && actions[1..] == more;
    }
  }
}
