/** An address race in which each address may be a race of its own between the CIDR source and
    the fallback source, as it is when both are configured. The races are those of DialRace;
    here they share one pool of dial slots, the outer race's context is the parent of the
    inner ones, and an inner race's result is the outer dial's. */
module NestedRace {
  import opened Wrappers
  import R = DialRace

  /** Inner races by address; a dial without one is direct. The races themselves run without
      slots, which are counted here: `outside` are those held by other connections. */
  datatype State = State(outer: R.State, inners: seq<Option<R.State>>, limit: nat, outside: nat)

  datatype Action =
    | Outer(a: R.Action)
    | Begin(i: nat)             // an address starts its own race
    | Inner(i: nat, b: R.Action)
    | Finish(i: nat)            // the inner race has returned to its dial goroutine
    | OutsideTakes | OutsideReturns

  const SLOTS := 0 // of the races themselves

  /** connectWithCIDRFallback as it starts. */
  function NewInner(parentDone: bool): R.State {
    R.State([R.Queued, R.NotStarted], R.Sources(false, 0, R.Armed), parentDone, parentDone, SLOTS, 0, 0, {}, {})
  }

  function DialingIn(inners: seq<Option<R.State>>): nat {
    if inners == [] then 0
    else (if inners[0].Some? then R.CountDialing(inners[0].value.dials) else 0) + DialingIn(inners[1..])
  }

  /** All dials under way, in every race. */
  function Dialing(n: State): nat {
    R.CountDialing(n.outer.dials) + DialingIn(n.inners)
  }

  predicate SlotFree(n: State) {
    n.limit > 0 ==> Dialing(n) + n.outside < n.limit
  }

  /** What a race may do on its own: a dial takes a shared slot, and one that waits for it may
      give up once its context ended. */
  predicate Allowed(n: State, race: R.State, a: R.Action) {
    && R.Enabled(race, a) && !a.Enter? && !a.Leave? && !a.OthersTake? && !a.OthersReturn?
    && (a.GetSlot? ==> SlotFree(n))
  }

  predicate Enabled(n: State, x: Action) {
    match x
    case Outer(a) => Allowed(n, n.outer, a)
    case Begin(i) => i < |n.inners| && n.inners[i].None? && R.Enabled(n.outer, R.Enter(i))
    case Inner(i, b) =>
      && i < |n.inners| && n.inners[i].Some? && Allowed(n, n.inners[i].value, b)
      && (b.ParentEnds? ==> n.outer.cancelled)
      && (b.Refuse? ==> n.limit > 0 && n.inners[i].value.cancelled)
    case Finish(i) =>
      && i < |n.inners| && n.inners[i].Some? && n.inners[i].value.main.Returned?
      && R.Enabled(n.outer, R.Leave(i, n.inners[i].value.main.result.Connected?))
    case OutsideTakes => n.limit > 0 && Dialing(n) + n.outside < n.limit
    case OutsideReturns => n.outside > 0
  }

  function After(n: State, x: Action): State
    requires Enabled(n, x)
  {
    match x
    case Outer(a) => n.(outer := R.After(n.outer, a))
    case Begin(i) =>
      n.(outer := R.After(n.outer, R.Enter(i)), inners := n.inners[i := Some(NewInner(n.outer.cancelled))])
    case Inner(i, b) => n.(inners := n.inners[i := Some(R.After(n.inners[i].value, b))])
    case Finish(i) => n.(outer := R.After(n.outer, R.Leave(i, n.inners[i].value.main.result.Connected?)))
    case OutsideTakes => n.(outside := n.outside + 1)
    case OutsideReturns => n.(outside := n.outside - 1)
  }

  predicate Init(n: State) {
    && R.Init(n.outer) && n.outer.main.Addresses? && n.outer.limit == SLOTS
    && |n.inners| == |n.outer.dials| && (forall i | 0 <= i < |n.inners| :: n.inners[i].None?)
    && (n.limit > 0 ==> n.outside <= n.limit)
  }

  // ---- the invariant ----

  /** An outer dial stands where its inner race does. */
  predicate LinkOk(n: State, i: nat)
    requires i < |n.inners| == |n.outer.dials|
  {
    var d := n.outer.dials[i];
    match n.inners[i]
    case None => !d.Racing?
    case Some(race) =>
      && R.Inv(race) && race.limit == SLOTS && (race.parentDone ==> n.outer.cancelled)
      && (d.Racing? || (race.main.Returned? && Settled(n, d, race.main.result)))
  }

  predicate Settled(n: State, d: R.Dial, result: R.Result) {
    && (d.Offering? || d.Delivered? || d.Dropped?) && d.ok == result.Connected?
    && (d.Delivered? && result.ContextEnded? ==> n.outer.parentDone)
  }

  predicate SlotsOk(n: State) {
    n.limit > 0 ==> Dialing(n) + n.outside <= n.limit
  }

  predicate Inv(n: State) {
    && R.Inv(n.outer) && n.outer.limit == SLOTS && |n.inners| == |n.outer.dials|
    && (forall i | 0 <= i < |n.inners| :: LinkOk(n, i))
    && SlotsOk(n)
  }

  lemma {:induction false} DialingUpdate(inners: seq<Option<R.State>>, i: nat, v: Option<R.State>)
    requires i < |inners|
    ensures DialingIn(inners[i := v]) + (if inners[i].Some? then R.CountDialing(inners[i].value.dials) else 0)
         == DialingIn(inners) + (if v.Some? then R.CountDialing(v.value.dials) else 0)
  {
    if i == 0 {
      assert inners[i := v][1..] == inners[1..];
    } else {
      assert inners[i := v][1..] == inners[1..][i - 1 := v];
      DialingUpdate(inners[1..], i - 1, v);
    }
  }

  lemma {:induction false} NoDials(inners: seq<Option<R.State>>)
    requires forall i | 0 <= i < |inners| :: inners[i].None?
    ensures DialingIn(inners) == 0
  {
    if inners != [] {
      NoDials(inners[1..]);
    }
  }

  lemma InitInv(n: State)
    requires Init(n)
    ensures Inv(n)
  {
    R.InitInv(n.outer);
    R.CountsZero(n.outer.dials);
    NoDials(n.inners);
  }

  lemma NewInnerInv(parentDone: bool)
    ensures R.Inv(NewInner(parentDone)) && R.CountDialing(NewInner(parentDone).dials) == 0
  {
    R.InitInv(NewInner(parentDone));
    R.CountsZero(NewInner(parentDone).dials);
  }

  /** A step adds a dial under way only by taking a slot. */
  lemma StepDialing(race: R.State, a: R.Action)
    requires R.Inv(race) && R.Enabled(race, a)
    ensures R.CountDialing(R.After(race, a).dials) <= R.CountDialing(race.dials) + if a.GetSlot? then 1 else 0
    ensures |R.After(race, a).dials| == |race.dials| && R.After(race, a).limit == race.limit
  {
    hide R.CountDialing, R.CountDelivered, R.LoopOk, R.ReturnOk, R.AccountsOk;
    var dials := race.dials;
    if R.DialAction(a) || a.Receive? {
      dials := dials[a.i := if a.Receive? then R.Delivered(race.dials[a.i].ok) else R.After(race, a).dials[a.i]];
      R.CountsUpdate(race.dials, a.i, dials[a.i]);
    }
    if !race.main.Returned? && R.Started(race.main) < |race.dials| {
      R.CountsUpdate(dials, R.Started(race.main), R.Queued);
    }
  }

  // ---- one step ----

  /** What a step of a race does to one dial's result. */
  predicate ResultKept(d: R.Dial, e: R.Dial) {
    && (d.Racing? <==> e.Racing?)
    && (d.Offering? ==> (e.Offering? || e.Delivered? || e.Dropped?) && e.ok == d.ok)
    && (d.Delivered? || d.Dropped? ==> e == d)
  }

  predicate MovedOn(race: R.State, t: R.State, i: nat) {
    && i < |race.dials| == |t.dials| && ResultKept(race.dials[i], t.dials[i])
    && (t.dials[i].Delivered? && !race.dials[i].Delivered? ==> !race.main.Returned?)
    && (race.cancelled ==> t.cancelled) && (race.parentDone ==> t.parentDone)
  }

  lemma DialStepMoves(race: R.State, a: R.Action, i: nat)
    requires R.Enabled(race, a) && R.DialAction(a) && !a.Enter? && !a.Leave? && i < |race.dials|
    ensures MovedOn(race, R.After(race, a), i)
  {
  }

  lemma LoopStepMoves(race: R.State, a: R.Action, i: nat)
    requires R.Enabled(race, a) && !R.DialAction(a) && i < |race.dials|
    requires !race.main.Returned? && R.Started(race.main) < |race.dials| ==> race.dials[R.Started(race.main)].NotStarted?
    ensures MovedOn(race, R.After(race, a), i)
  {
    hide R.OnFailure, R.OnTimer;
  }

  lemma DialMoves(race: R.State, a: R.Action, i: nat)
    requires R.Inv(race) && R.Enabled(race, a) && !a.Enter? && !a.Leave? && i < |race.dials|
    ensures MovedOn(race, R.After(race, a), i)
  {
    assert !race.main.Returned? && R.Started(race.main) < |race.dials| ==> race.dials[R.Started(race.main)].NotStarted?;
    hide R.Inv, R.After, R.Enabled, MovedOn;
    if R.DialAction(a) {
      DialStepMoves(race, a, i);
    } else {
      LoopStepMoves(race, a, i);
    }
  }

  lemma OuterKeepsLink(n: State, a: R.Action, i: nat)
    requires Inv(n) && Enabled(n, Outer(a)) && i < |n.inners|
    ensures |R.After(n.outer, a).dials| == |n.inners| && LinkOk(After(n, Outer(a)), i)
  {
    assert LinkOk(n, i);
    DialMoves(n.outer, a, i);
    assert !n.outer.main.Returned? ==> (n.outer.cancelled ==> n.outer.parentDone);
    hide R.Enabled, R.After;
  }

  lemma OuterKeepsInv(n: State, a: R.Action)
    requires Inv(n) && Enabled(n, Outer(a))
    ensures Inv(After(n, Outer(a)))
  {
    R.StepKeepsInv(n.outer, a);
    StepDialing(n.outer, a);
    forall i | 0 <= i < |n.inners|
      ensures LinkOk(After(n, Outer(a)), i)
    {
      OuterKeepsLink(n, a, i);
    }
    hide R.Inv, R.CountDialing, DialingIn, LinkOk, R.Enabled, R.After;
  }

  lemma InnerKeepsLink(n: State, k: nat, b: R.Action, i: nat)
    requires Inv(n) && Enabled(n, Inner(k, b)) && i < |n.inners|
    ensures LinkOk(After(n, Inner(k, b)), i)
  {
    assert LinkOk(n, i);
    if i == k {
      var race := n.inners[k].value;
      R.StepKeepsInv(race, b);
      ReturnedStays(race, b);
      hide R.Inv;
    }
  }

  /** A race that has returned keeps its result. */
  lemma ReturnedStays(race: R.State, a: R.Action)
    requires R.Enabled(race, a)
    ensures race.main.Returned? ==> R.After(race, a).main == race.main
    ensures R.After(race, a).limit == race.limit
    ensures R.After(race, a).parentDone ==> race.parentDone || a.ParentEnds?
  {
  }

  lemma InnerKeepsInv(n: State, k: nat, b: R.Action)
    requires Inv(n) && Enabled(n, Inner(k, b))
    ensures Inv(After(n, Inner(k, b)))
  {
    assert LinkOk(n, k);
    var race := n.inners[k].value;
    StepDialing(race, b);
    DialingUpdate(n.inners, k, Some(R.After(race, b)));
    forall i | 0 <= i < |n.inners|
      ensures LinkOk(After(n, Inner(k, b)), i)
    {
      InnerKeepsLink(n, k, b, i);
    }
    hide R.Inv, R.CountDialing, DialingIn, LinkOk, R.Enabled, R.After;
  }

  /** Entering and leaving an inner race changes that dial and nothing under way. */
  lemma EnterLeave(race: R.State, a: R.Action)
    requires R.Inv(race) && R.Enabled(race, a) && (a.Enter? || a.Leave?)
    ensures R.Inv(R.After(race, a))
    ensures R.CountDialing(R.After(race, a).dials) == R.CountDialing(race.dials)
    ensures R.After(race, a) == race.(dials := race.dials[a.i := R.After(race, a).dials[a.i]], made := R.After(race, a).made)
  {
    R.StepKeepsInv(race, a);
    R.CountsUpdate(race.dials, a.i, R.After(race, a).dials[a.i]);
    hide R.Inv, R.CountDialing;
  }

  lemma BeginKeepsInv(n: State, k: nat)
    requires Inv(n) && Enabled(n, Begin(k))
    ensures Inv(After(n, Begin(k)))
  {
    var t := After(n, Begin(k));
    EnterLeave(n.outer, R.Enter(k));
    NewInnerInv(n.outer.cancelled);
    DialingUpdate(n.inners, k, Some(NewInner(n.outer.cancelled)));
    hide R.Inv, R.CountDialing, DialingIn;
    forall i | 0 <= i < |t.inners|
      ensures LinkOk(t, i)
    {
      assert LinkOk(n, i);
    }
  }

  lemma FinishKeepsInv(n: State, k: nat)
    requires Inv(n) && Enabled(n, Finish(k))
    ensures Inv(After(n, Finish(k)))
  {
    var t := After(n, Finish(k));
    EnterLeave(n.outer, R.Leave(k, n.inners[k].value.main.result.Connected?));
    hide R.Inv, R.CountDialing, DialingIn;
    forall i | 0 <= i < |t.inners|
      ensures LinkOk(t, i)
    {
      assert LinkOk(n, i);
    }
  }

  lemma StepKeepsInv(n: State, x: Action)
    requires Inv(n) && Enabled(n, x)
    ensures Inv(After(n, x))
  {
    match x
    case Outer(a) => OuterKeepsInv(n, a);
    case Begin(i) => BeginKeepsInv(n, i);
    case Inner(i, b) => InnerKeepsInv(n, i, b);
    case Finish(i) => FinishKeepsInv(n, i);
    case _ =>
      hide R.Inv, Dialing;
      forall i | 0 <= i < |n.inners|
        ensures LinkOk(After(n, x), i)
      {
        assert LinkOk(n, i);
      }
  }

  // ---- every run ----

  predicate CanRun(n: State, actions: seq<Action>)
    decreases |actions|
  {
    actions == [] || (Enabled(n, actions[0]) && CanRun(After(n, actions[0]), actions[1..]))
  }

  function Run(n: State, actions: seq<Action>): State
    requires CanRun(n, actions)
    decreases |actions|
  {
    if actions == [] then n else Run(After(n, actions[0]), actions[1..])
  }

  lemma {:induction false} RunsKeepInv(n: State, actions: seq<Action>)
    requires Inv(n) && CanRun(n, actions)
    ensures Inv(Run(n, actions))
    decreases |actions|
  {
    hide Inv, Enabled, After;
    if actions != [] {
      StepKeepsInv(n, actions[0]);
      RunsKeepInv(After(n, actions[0]), actions[1..]);
    }
  }

  // ---- each race by itself ----

  /** The steps of the outer race in a run: its own, and those its inner races take for it. */
  function OuterSteps(n: State, actions: seq<Action>): seq<R.Action>
    requires CanRun(n, actions)
    decreases |actions|
  {
    if actions == [] then []
    else
      var rest := OuterSteps(After(n, actions[0]), actions[1..]);
      match actions[0]
      case Outer(a) => [a] + rest
      case Begin(i) => [R.Enter(i)] + rest
      case Finish(i) => [R.Leave(i, n.inners[i].value.main.result.Connected?)] + rest
      case _ => rest
  }

  function InnerSteps(actions: seq<Action>, i: nat): seq<R.Action> {
    if actions == [] then []
    else
      var rest := InnerSteps(actions[1..], i);
      if actions[0].Inner? && actions[0].i == i then [actions[0].b] + rest else rest
  }

  lemma RunFirst(race: R.State, a: R.Action, rest: seq<R.Action>)
    requires R.Enabled(race, a) && R.CanRun(R.After(race, a), rest)
    ensures R.CanRun(race, [a] + rest) && R.Run(race, [a] + rest) == R.Run(R.After(race, a), rest)
  {
    assert ([a] + rest)[0] == a && ([a] + rest)[1..] == rest;
  }

  /** Seen from outside, every run of the whole is a run of the outer race. */
  lemma {:induction false} OuterIsARace(n: State, actions: seq<Action>)
    requires CanRun(n, actions)
    ensures R.CanRun(n.outer, OuterSteps(n, actions))
    ensures R.Run(n.outer, OuterSteps(n, actions)) == Run(n, actions).outer
    decreases |actions|
  {
    hide R.Enabled, R.After;
    if actions != [] {
      var x := actions[0];
      OuterIsARace(After(n, x), actions[1..]);
      var rest := OuterSteps(After(n, x), actions[1..]);
      match x
      case Outer(a) => RunFirst(n.outer, a, rest);
      case Begin(i) => RunFirst(n.outer, R.Enter(i), rest);
      case Finish(i) => RunFirst(n.outer, R.Leave(i, n.inners[i].value.main.result.Connected?), rest);
      case _ =>
    }
  }

  /** And an address's own race, once begun, runs as a race of two sources. */
  lemma {:induction false} InnerIsARace(n: State, actions: seq<Action>, i: nat)
    requires CanRun(n, actions) && i < |n.inners| && n.inners[i].Some?
    ensures R.CanRun(n.inners[i].value, InnerSteps(actions, i))
    ensures |Run(n, actions).inners| == |n.inners|
    ensures Run(n, actions).inners[i] == Some(R.Run(n.inners[i].value, InnerSteps(actions, i)))
    decreases |actions|
  {
    hide R.Enabled, R.After;
    if actions != [] {
      var x := actions[0];
      InnerIsARace(After(n, x), actions[1..], i);
      if x.Inner? && x.i == i {
        RunFirst(n.inners[i].value, x.b, InnerSteps(actions[1..], i));
      }
    }
  }

  lemma InnerBegins(n: State, i: nat)
    requires Inv(n) && Enabled(n, Begin(i))
    ensures After(n, Begin(i)).inners[i].Some? && R.Init(After(n, Begin(i)).inners[i].value)
    ensures After(n, Begin(i)).inners[i].value.parentDone == n.outer.cancelled
    ensures After(n, Begin(i)).inners[i].value.main == R.Sources(false, 0, R.Armed)
  {
    hide R.Inv;
  }

  /** A waiting dial gets a slot exactly while one of the shared ones is free, or there is no
      limit; and gives up waiting only where there is one and its context has ended. */
  lemma SlotsAreShared(n: State, i: nat, j: nat)
    requires Inv(n) && i < |n.inners|
    ensures n.outer.dials[i].Queued? ==>
              (Enabled(n, Outer(R.GetSlot(i))) <==> n.limit == 0 || Dialing(n) + n.outside < n.limit)
    ensures n.inners[i].Some? && j < |n.inners[i].value.dials| && n.inners[i].value.dials[j].Queued? ==>
              && (Enabled(n, Inner(i, R.GetSlot(j))) <==> n.limit == 0 || Dialing(n) + n.outside < n.limit)
              && (Enabled(n, Inner(i, R.Refuse(j))) <==> n.limit > 0 && n.inners[i].value.cancelled)
    ensures n.inners[i].Some? && n.outer.cancelled ==> Enabled(n, Inner(i, R.ParentEnds))
    ensures n.inners[i].Some? && n.inners[i].value.main.Returned? && n.outer.dials[i].Racing? ==> Enabled(n, Finish(i))
    ensures n.inners[i].None? && n.outer.dials[i].Queued? ==> Enabled(n, Begin(i))
  {
    hide Dialing, R.CountDialing, R.CountDelivered;
    assert LinkOk(n, i);
  }

  // ---- the accounts of all connections ----

  /** A connection made by a direct dial, or by source j of address i's race. */
  datatype Conn = Direct(i: nat) | Source(i: nat, j: nat)

  predicate Known(n: State, c: Conn) {
    c.i < |n.inners| && (if c.Direct? then n.inners[c.i].None? else n.inners[c.i].Some?)
  }

  predicate Made(n: State, c: Conn) {
    Known(n, c) && if c.Direct? then c.i in n.outer.made else c.j in n.inners[c.i].value.made
  }

  /** The result of the address's own race. */
  predicate IsResult(n: State, c: Conn) {
    Known(n, c) && (c.Source? ==> n.inners[c.i].value.main == R.Returned(R.Connected(c.j)))
  }

  /** Handed to the caller of the outer race. */
  predicate Kept(n: State, c: Conn) {
    IsResult(n, c) && n.outer.main == R.Returned(R.Connected(c.i))
  }

  /** Closed by its own race, or by the outer dial goroutine that had received it. */
  predicate Closed(n: State, c: Conn) {
    || (c.Source? && Known(n, c) && c.j in n.inners[c.i].value.closed)
    || (IsResult(n, c) && c.i in n.outer.closed)
  }

  predicate AllEnded(race: R.State) {
    race.main.Returned? && forall i | 0 <= i < |race.dials| :: R.Ended(race.dials[i])
  }

  /** The outer race returned and every dial goroutine of every race has ended. */
  predicate Over(n: State) {
    AllEnded(n.outer) && forall i | 0 <= i < |n.inners| && n.inners[i].Some? :: AllEnded(n.inners[i].value)
  }

  /** In every interleaving of all the races: dials stay within the shared slots; no connection
      is both returned and closed; once everything ended, each connection any source made is
      returned or closed; and a dial error means that at every address both sources failed,
      the direct dial failed, or the caller's context had ended. */
  lemma NestedAccounts(n0: State, actions: seq<Action>, c: Conn)
    requires Init(n0) && CanRun(n0, actions)
    ensures var n := Run(n0, actions);
            && (n.limit > 0 ==> Dialing(n) + n.outside <= n.limit)
            && !(Kept(n, c) && Closed(n, c))
            && (Over(n) ==> (Made(n, c) <==> Kept(n, c) || Closed(n, c)))
            && (n.outer.main == R.Returned(R.DialFailed) ==> forall i | 0 <= i < |n.inners| :: AddressFailed(n, i))
  {
    InitInv(n0);
    RunsKeepInv(n0, actions);
    var n := Run(n0, actions);
    hide CanRun, Run, Init;
    R.Accounts(n.outer);
    OneFate(n, c);
    if n.outer.main == R.Returned(R.DialFailed) {
      forall i | 0 <= i < |n.inners|
        ensures AddressFailed(n, i)
      {
        FailedAddress(n, i);
      }
    }
  }

  /** Both sources of the address failed, its direct dial did, or the caller gave up. */
  predicate AddressFailed(n: State, i: nat) {
    && i < |n.inners| == |n.outer.dials| && n.outer.dials[i] == R.Delivered(false)
    && (n.inners[i].Some? ==>
          || n.outer.parentDone
          || (forall j | 0 <= j < |n.inners[i].value.dials| :: n.inners[i].value.dials[j] == R.Delivered(false)))
  }

  lemma FailedAddress(n: State, i: nat)
    requires Inv(n) && n.outer.main == R.Returned(R.DialFailed) && i < |n.inners|
    ensures AddressFailed(n, i)
  {
    assert LinkOk(n, i);
    if n.inners[i].Some? {
      R.Accounts(n.inners[i].value);
    }
  }

  lemma DirectFate(n: State, i: nat)
    requires Inv(n) && i < |n.inners| && n.inners[i].None?
    ensures !(Kept(n, Direct(i)) && Closed(n, Direct(i)))
    ensures AllEnded(n.outer) ==> (Made(n, Direct(i)) <==> Kept(n, Direct(i)) || Closed(n, Direct(i)))
  {
    R.Accounts(n.outer);
    hide R.Inv;
    assert Known(n, Direct(i)) && IsResult(n, Direct(i));
    assert Kept(n, Direct(i)) <==> i in R.Kept(n.outer);
  }

  /** What the inner race closed is never its result, and its result is the outer dial's. */
  lemma SourceFate(n: State, i: nat, j: nat)
    requires Inv(n) && i < |n.inners| && n.inners[i].Some?
    ensures !(Kept(n, Source(i, j)) && Closed(n, Source(i, j)))
    ensures Over(n) ==> (Made(n, Source(i, j)) <==> Kept(n, Source(i, j)) || Closed(n, Source(i, j)))
  {
    var race, c := n.inners[i].value, Source(i, j);
    assert LinkOk(n, i) && R.DialOk(n.outer, i);
    assert n.outer.main.Returned? && n.outer.dials[i] == R.Delivered(true) ==> n.outer.main.result == R.Connected(i);
    R.Accounts(n.outer);
    R.Accounts(race);
    hide R.Inv;
    assert Known(n, c);
    assert IsResult(n, c) <==> j in R.Kept(race);
    assert Kept(n, c) <==> j in R.Kept(race) && i in R.Kept(n.outer);
    assert Closed(n, c) <==> j in race.closed || (j in R.Kept(race) && i in n.outer.closed);
    if Over(n) {
      assert AllEnded(race) && R.Ended(n.outer.dials[i]);
      assert race.made == R.Kept(race) + race.closed;
      assert j in R.Kept(race) ==> i in R.Kept(n.outer) || i in n.outer.closed;
    }
  }

  lemma OneFate(n: State, c: Conn)
    requires Inv(n)
    ensures !(Kept(n, c) && Closed(n, c))
    ensures Over(n) ==> (Made(n, c) <==> Kept(n, c) || Closed(n, c))
  {
    if Known(n, c) {
      hide Inv, Made, Kept, Closed;
      if c.Direct? {
        DirectFate(n, c.i);
      } else {
        SourceFate(n, c.i, c.j);
      }
    }
  }
}
