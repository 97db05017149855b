/** The two dial races: staggered dials over resolved addresses, and the CIDR source
    raced against the fallback source. Dial goroutines, the unbuffered result channel,
    cancellation, the timer and the shared dial slots are interleaved step by step. */
module DialRace {

  datatype Dial =
    | NotStarted
    | Queued                    // waiting for a dial slot
    | Dialing                   // holding a slot, if slots are limited
    | Racing                    // inside a race of its own, whose dials take the slots
    | Offering(ok: bool)        // result in hand, waiting for the receiver or cancellation
    | Delivered(ok: bool)       // received by the race loop
    | Dropped(ok: bool)         // cancelled; a connection was closed

  datatype Timer = Armed | Fired | Off

  datatype Result = Connected(i: nat) | DialFailed | ContextEnded

  /** The race loop: addresses tried in order, or two sources, or finished. */
  datatype Main =
    | Addresses(started: nat, completed: nat, timer: Timer)
    | Sources(fallbackStarted: bool, failures: nat, delay: Timer)
    | Returned(result: Result)

  /** `cancelled` is the race context, done as soon as the parent's is. `limit` is the
      number of dial slots, 0 for none; `elsewhere` counts slots held by other races.
      `made` and `closed` record the connections made and closed so far. */
  datatype State = State(
    dials: seq<Dial>, main: Main, parentDone: bool, cancelled: bool,
    limit: nat, inUse: nat, elsewhere: nat, made: set<nat>, closed: set<nat>)

  function Started(m: Main): nat
    requires !m.Returned?
  {
    match m
    case Addresses(started, _, _) => started
    case Sources(fallbackStarted, _, _) => if fallbackStarted then 2 else 1
  }

  function Completed(m: Main): nat
    requires !m.Returned?
  {
    match m
    case Addresses(_, completed, _) => completed
    case Sources(_, failures, _) => failures
  }

  function TimerOf(m: Main): Timer
    requires !m.Returned?
  {
    match m
    case Addresses(_, _, timer) => timer
    case Sources(_, _, delay) => delay
  }

  function SetTimer(m: Main, t: Timer): Main
    requires !m.Returned?
  {
    match m
    case Addresses(started, completed, _) => Addresses(started, completed, t)
    case Sources(fallbackStarted, failures, _) => Sources(fallbackStarted, failures, t)
  }

  /** The loop body for one failed result. */
  function OnFailure(m: Main, n: nat): Main
    requires !m.Returned?
  {
    match m
    case Addresses(started, completed, timer) =>
      if completed + 1 == n then Returned(DialFailed)
      else if completed + 1 == started && started < n then
        Addresses(started + 1, completed + 1, if started + 1 < n then Armed else timer)
      else Addresses(started, completed + 1, timer)
    case Sources(fallbackStarted, failures, delay) =>
      if !fallbackStarted then Sources(true, failures + 1, Off)
      else if failures + 1 == 2 then Returned(DialFailed)
      else Sources(true, failures + 1, delay)
  }

  /** The loop body for a timer tick. */
  function OnTimer(m: Main, n: nat): Main
    requires !m.Returned?
  {
    match m
    case Addresses(started, completed, _) =>
      if started < n then Addresses(started + 1, completed, if started + 1 < n then Armed else Off)
      else Addresses(started, completed, Off)
    case Sources(_, failures, _) => Sources(true, failures, Off)
  }

  datatype Action =
    | GetSlot(i: nat) | GiveUp(i: nat) | DialEnds(i: nat, ok: bool)
    | Refuse(i: nat) | Enter(i: nat) | Leave(i: nat, ok: bool)
    | Receive(i: nat) | Drop(i: nat)
    | TimerFires | Tick | SeeParentDone | ParentEnds
    | OthersTake | OthersReturn

  predicate Enabled(s: State, a: Action) {
    match a
    case GetSlot(i) => i < |s.dials| && s.dials[i].Queued? && (s.limit > 0 ==> s.inUse < s.limit)
    case GiveUp(i) => i < |s.dials| && s.dials[i].Queued? && s.cancelled && s.limit > 0
    case DialEnds(i, _) => i < |s.dials| && s.dials[i].Dialing?
    case Refuse(i) => i < |s.dials| && s.dials[i].Queued?
    case Enter(i) => i < |s.dials| && s.dials[i].Queued?
    case Leave(i, _) => i < |s.dials| && s.dials[i].Racing?
    case Receive(i) => i < |s.dials| && s.dials[i].Offering? && !s.main.Returned?
    case Drop(i) => i < |s.dials| && s.dials[i].Offering? && s.cancelled
    case TimerFires => !s.main.Returned? && TimerOf(s.main) == Armed
    case Tick => !s.main.Returned? && TimerOf(s.main) == Fired
    case SeeParentDone => !s.main.Returned? && s.parentDone
    case ParentEnds => true
    case OthersTake => s.limit > 0 && s.inUse < s.limit
    case OthersReturn => s.elsewhere > 0 && s.inUse > 0
  }

  /** Let the loop move on, starting the next dial when it asks for one. */
  function Advance(s: State, m: Main): State
    requires !s.main.Returned?
  {
    if m.Returned? then s.(main := m, cancelled := true)
    else if Started(m) > Started(s.main) && Started(s.main) < |s.dials| then
      s.(main := m, dials := s.dials[Started(s.main) := Queued])
    else s.(main := m)
  }

  /** The steps of a dial goroutine. */
  predicate DialAction(a: Action) {
    a.GetSlot? || a.GiveUp? || a.DialEnds? || a.Refuse? || a.Enter? || a.Leave? || a.Drop?
  }

  /** Where a dial goroutine's step takes it. */
  function NextDial(s: State, a: Action): Dial
    requires Enabled(s, a) && DialAction(a)
  {
    match a
    case GetSlot(_) => Dialing
    case GiveUp(_) => Offering(false)
    case DialEnds(_, ok) => Offering(ok)
    case Refuse(_) => Offering(false)
    case Enter(_) => Racing
    case Leave(_, ok) => Offering(ok)
    case Drop(i) => Dropped(s.dials[i].ok)
  }

  function NextInUse(s: State, a: Action): nat {
    if s.limit == 0 then s.inUse
    else if a.GetSlot? then s.inUse + 1
    else if a.DialEnds? && s.inUse > 0 then s.inUse - 1
    else s.inUse
  }

  function AfterDial(s: State, a: Action): State
    requires Enabled(s, a) && DialAction(a)
  {
    var next := NextDial(s, a);
    s.(dials := s.dials[a.i := next], inUse := NextInUse(s, a),
       made := if next == Offering(true) then s.made + {a.i} else s.made,
       closed := if next == Dropped(true) then s.closed + {a.i} else s.closed)
  }

  function After(s: State, a: Action): State
    requires Enabled(s, a)
  {
    if DialAction(a) then AfterDial(s, a)
    else
      match a
      case Receive(i) =>
        var t := s.(dials := s.dials[i := Delivered(s.dials[i].ok)]);
        Advance(t, if s.dials[i].ok then Returned(Connected(i)) else OnFailure(s.main, |s.dials|))
      case TimerFires => s.(main := SetTimer(s.main, Fired))
      case Tick => Advance(s, OnTimer(s.main, |s.dials|))
      case SeeParentDone => Advance(s, Returned(ContextEnded))
      case ParentEnds => s.(parentDone := true, cancelled := true)
      case OthersTake => s.(inUse := s.inUse + 1, elsewhere := s.elsewhere + 1)
      case OthersReturn => s.(inUse := s.inUse - 1, elsewhere := s.elsewhere - 1)
  }

  /** connectAny with two or more addresses, or connectWithCIDRFallback. */
  predicate Init(s: State) {
    && |s.dials| >= 2 && s.dials[0] == Queued
    && (forall i | 1 <= i < |s.dials| :: s.dials[i] == NotStarted)
    && (s.main == Addresses(1, 0, Armed) || (s.main == Sources(false, 0, Armed) && |s.dials| == 2))
    && s.made == {} && s.closed == {}
    && s.inUse == s.elsewhere && (s.limit > 0 ==> s.inUse <= s.limit) && (s.limit == 0 ==> s.inUse == 0)
    && (s.parentDone ==> s.cancelled) && s.cancelled == s.parentDone
  }

  // ---- the invariant ----

  function CountDelivered(dials: seq<Dial>): nat {
    if dials == [] then 0 else (if dials[0].Delivered? then 1 else 0) + CountDelivered(dials[1..])
  }

  function CountDialing(dials: seq<Dial>): nat {
    if dials == [] then 0 else (if dials[0].Dialing? then 1 else 0) + CountDialing(dials[1..])
  }

  /** At the loop head: completed < started <= n, exactly the first `started` dials were
      started, every result received so far is a failure, and the timer is running while
      dials remain to be started. */
  predicate LoopOk(s: State)
    requires !s.main.Returned?
  {
    var started, completed := Started(s.main), Completed(s.main);
    && completed < started <= |s.dials|
    && completed == CountDelivered(s.dials)
    && (forall i | 0 <= i < |s.dials| :: s.dials[i].NotStarted? <==> i >= started)
    && (forall i | 0 <= i < |s.dials| && s.dials[i].Delivered? :: !s.dials[i].ok)
    && (started < |s.dials| ==> TimerOf(s.main) != Off)
    && (s.main.Sources? ==> |s.dials| == 2)
    && (s.cancelled ==> s.parentDone)
  }

  predicate ReturnOk(s: State, r: Result) {
    && s.cancelled
    && match r
       case Connected(w) =>
         && w < |s.dials| && s.dials[w] == Delivered(true)
         && forall i | 0 <= i < |s.dials| && i != w && s.dials[i].Delivered? :: !s.dials[i].ok
       case DialFailed => forall i | 0 <= i < |s.dials| :: s.dials[i] == Delivered(false)
       case ContextEnded =>
         && s.parentDone
         && forall i | 0 <= i < |s.dials| && s.dials[i].Delivered? :: !s.dials[i].ok
  }

  predicate DialOk(s: State, i: nat)
    requires i < |s.dials|
  {
    var d := s.dials[i];
    && (i in s.made <==> (d.Offering? || d.Delivered? || d.Dropped?) && d.ok)
    && (i in s.closed <==> d == Dropped(true))
    && (d.Dropped? ==> s.cancelled)
  }

  predicate SlotsOk(s: State) {
    && (s.limit > 0 ==> s.inUse == CountDialing(s.dials) + s.elsewhere <= s.limit)
    && (s.limit == 0 ==> s.inUse == s.elsewhere == 0)
  }

  /** Every connection made is in the hands of exactly one goroutine, or closed. */
  predicate AccountsOk(s: State) {
    && |s.dials| >= 2
    && (forall i | 0 <= i < |s.dials| :: DialOk(s, i))
    && (forall i | i in s.made + s.closed :: i < |s.dials|)
  }

  predicate MainOk(s: State) {
    if s.main.Returned? then ReturnOk(s, s.main.result) else LoopOk(s)
  }

  predicate Inv(s: State) {
    AccountsOk(s) && MainOk(s) && SlotsOk(s)
  }

  lemma {:induction false} CountsUpdate(dials: seq<Dial>, i: nat, d: Dial)
    requires i < |dials|
    ensures CountDelivered(dials[i := d]) + (if dials[i].Delivered? then 1 else 0)
         == CountDelivered(dials) + (if d.Delivered? then 1 else 0)
    ensures CountDialing(dials[i := d]) + (if dials[i].Dialing? then 1 else 0)
         == CountDialing(dials) + (if d.Dialing? then 1 else 0)
  {
    if i == 0 {
      assert dials[i := d][1..] == dials[1..];
    } else {
      assert dials[i := d][1..] == dials[1..][i - 1 := d];
      CountsUpdate(dials[1..], i - 1, d);
    }
  }

  lemma {:induction false} CountsBound(dials: seq<Dial>)
    ensures CountDelivered(dials) <= |dials|
    ensures CountDelivered(dials) == |dials| ==> forall i | 0 <= i < |dials| :: dials[i].Delivered?
  {
    if dials != [] {
      CountsBound(dials[1..]);
      if CountDelivered(dials) == |dials| {
        forall i | 0 <= i < |dials|
          ensures dials[i].Delivered?
        {
          if i > 0 {
            assert dials[i] == dials[1..][i - 1];
          }
        }
      }
    }
  }

  lemma {:induction false} CountsZero(dials: seq<Dial>)
    requires forall i | 0 <= i < |dials| :: !dials[i].Delivered? && !dials[i].Dialing?
    ensures CountDelivered(dials) == 0 && CountDialing(dials) == 0
  {
    if dials != [] {
      CountsZero(dials[1..]);
    }
  }

  lemma InitInv(s: State)
    requires Init(s)
    ensures Inv(s)
  {
    CountsZero(s.dials);
  }

  lemma DialKeepsAccounts(s: State, a: Action)
    requires AccountsOk(s) && Enabled(s, a) && DialAction(a)
    ensures AccountsOk(AfterDial(s, a))
  {
    var t := AfterDial(s, a);
    forall i | 0 <= i < |t.dials|
      ensures DialOk(t, i)
    {
      assert DialOk(s, i);
    }
    forall i | i in t.made + t.closed
      ensures i < |t.dials|
    {
      assert i in s.made + s.closed || i == a.i;
    }
  }

  lemma LoopKeepsAccounts(s: State, a: Action)
    requires AccountsOk(s) && MainOk(s) && Enabled(s, a) && !DialAction(a)
    ensures AccountsOk(After(s, a))
  {
    hide CountDelivered, OnFailure, OnTimer;
    var t := After(s, a);
    forall i | 0 <= i < |t.dials|
      ensures DialOk(t, i)
    {
      assert DialOk(s, i);
    }
  }

  lemma KeepsAccounts(s: State, a: Action)
    requires AccountsOk(s) && MainOk(s) && Enabled(s, a)
    ensures AccountsOk(After(s, a))
  {
    hide AccountsOk, MainOk, Enabled, AfterDial;
    if DialAction(a) {
      DialKeepsAccounts(s, a);
    } else {
      LoopKeepsAccounts(s, a);
    }
  }

  lemma DialKeepsSlots(s: State, a: Action)
    requires SlotsOk(s) && Enabled(s, a) && DialAction(a)
    ensures SlotsOk(AfterDial(s, a))
  {
    hide CountDialing, CountDelivered;
    CountsUpdate(s.dials, a.i, NextDial(s, a));
  }

  lemma LoopKeepsSlots(s: State, a: Action)
    requires MainOk(s) && SlotsOk(s) && Enabled(s, a) && !DialAction(a)
    ensures SlotsOk(After(s, a))
  {
    hide CountDialing, CountDelivered, OnFailure, OnTimer;
    var dials := s.dials;
    if a.Receive? {
      dials := dials[a.i := Delivered(s.dials[a.i].ok)];
      CountsUpdate(s.dials, a.i, dials[a.i]);
    }
    if !s.main.Returned? && Started(s.main) < |s.dials| {
      CountsUpdate(dials, Started(s.main), Queued);
    }
  }

  lemma KeepsSlots(s: State, a: Action)
    requires MainOk(s) && SlotsOk(s) && Enabled(s, a)
    ensures SlotsOk(After(s, a))
  {
    hide SlotsOk, MainOk, Enabled, AfterDial;
    if DialAction(a) {
      DialKeepsSlots(s, a);
    } else {
      LoopKeepsSlots(s, a);
    }
  }

  predicate LoopAction(a: Action) {
    a.Receive? || a.Tick? || a.SeeParentDone?
  }

  lemma OthersKeepMain(s: State, a: Action)
    requires MainOk(s) && Enabled(s, a) && !LoopAction(a)
    ensures MainOk(After(s, a))
  {
    hide CountDelivered, CountDialing;
    if DialAction(a) {
      CountsUpdate(s.dials, a.i, After(s, a).dials[a.i]);
    }
  }

  lemma TickKeepsMain(s: State)
    requires MainOk(s) && |s.dials| >= 2 && Enabled(s, Tick)
    ensures MainOk(After(s, Tick))
  {
    hide CountDelivered, CountDialing;
    if Started(s.main) < |s.dials| {
      CountsUpdate(s.dials, Started(s.main), Queued);
    }
  }

  lemma SuccessKeepsMain(s: State, i: nat)
    requires MainOk(s) && Enabled(s, Receive(i)) && s.dials[i].ok
    ensures MainOk(After(s, Receive(i)))
  {
    hide CountDelivered, CountDialing;
  }

  lemma FailureKeepsMain(s: State, i: nat)
    requires MainOk(s) && |s.dials| >= 2 && Enabled(s, Receive(i)) && !s.dials[i].ok
    ensures MainOk(After(s, Receive(i)))
  {
    hide CountDelivered, CountDialing;
    var dials := s.dials[i := Delivered(false)];
    CountsUpdate(s.dials, i, Delivered(false));
    CountsBound(dials);
    if Started(s.main) < |s.dials| {
      CountsUpdate(dials, Started(s.main), Queued);
    }
  }

  lemma StepKeepsInv(s: State, a: Action)
    requires Inv(s) && Enabled(s, a)
    ensures Inv(After(s, a))
  {
    KeepsAccounts(s, a);
    KeepsSlots(s, a);
    assert |s.dials| >= 2;
    hide AccountsOk, MainOk, SlotsOk, After;
    if !LoopAction(a) {
      OthersKeepMain(s, a);
    } else if a.Tick? {
      TickKeepsMain(s);
    } else if a.SeeParentDone? {
      ParentDoneKeepsMain(s);
    } else if s.dials[a.i].ok {
      SuccessKeepsMain(s, a.i);
    } else {
      FailureKeepsMain(s, a.i);
    }
  }

  lemma ParentDoneKeepsMain(s: State)
    requires MainOk(s) && Enabled(s, SeeParentDone)
    ensures MainOk(After(s, SeeParentDone))
  {
  }

  // ---- every run ----

  predicate CanRun(s: State, actions: seq<Action>)
    decreases |actions|
  {
    actions == [] || (Enabled(s, actions[0]) && CanRun(After(s, actions[0]), actions[1..]))
  }

  function Run(s: State, actions: seq<Action>): State
    requires CanRun(s, actions)
    decreases |actions|
  {
    if actions == [] then s else Run(After(s, actions[0]), actions[1..])
  }

  lemma {:induction false} RunsKeepInv(s: State, actions: seq<Action>)
    requires Inv(s) && CanRun(s, actions)
    ensures Inv(Run(s, actions))
    decreases |actions|
  {
    hide Inv, Enabled, After;
    if actions != [] {
      StepKeepsInv(s, actions[0]);
      RunsKeepInv(After(s, actions[0]), actions[1..]);
    }
  }

  predicate Ended(d: Dial) {
    d.NotStarted? || d.Delivered? || d.Dropped?
  }

  /** The connection handed to the caller. */
  function Kept(s: State): set<nat> {
    if s.main.Returned? && s.main.result.Connected? then {s.main.result.i} else {}
  }

  /** In every interleaving: an error other than the context's means every dial failed;
      never more dials than slots; and once all dial goroutines ended, each connection
      made is either the one returned or closed, never both and never neither. */
  lemma RaceAccounts(s0: State, actions: seq<Action>)
    requires Init(s0) && CanRun(s0, actions)
    ensures var s := Run(s0, actions);
            && (s.limit > 0 ==> CountDialing(s.dials) <= s.inUse <= s.limit)
            && (s.main == Returned(DialFailed) ==> forall i | 0 <= i < |s.dials| :: s.dials[i] == Delivered(false))
            && (!s.main.Returned? ==> LoopOk(s))
            && Kept(s) * s.closed == {}
            && (s.main.Returned? && (forall i | 0 <= i < |s.dials| :: Ended(s.dials[i])) ==>
                  s.made == Kept(s) + s.closed)
  {
    hide Inv, Init;
    InitInv(s0);
    RunsKeepInv(s0, actions);
    Accounts(Run(s0, actions));
  }

  lemma Accounts(s: State)
    requires Inv(s)
    ensures s.limit > 0 ==> CountDialing(s.dials) <= s.inUse <= s.limit
    ensures s.main == Returned(DialFailed) ==> forall i | 0 <= i < |s.dials| :: s.dials[i] == Delivered(false)
    ensures !s.main.Returned? ==> LoopOk(s)
    ensures Kept(s) * s.closed == {}
    ensures s.main.Returned? && (forall i | 0 <= i < |s.dials| :: Ended(s.dials[i])) ==> s.made == Kept(s) + s.closed
  {
    hide CountDialing, CountDelivered;
    if s.main.Returned? && s.main.result.Connected? {
      assert DialOk(s, s.main.result.i);
    }
    if s.main.Returned? && (forall i | 0 <= i < |s.dials| :: Ended(s.dials[i])) {
      forall i: nat
        ensures i in s.made <==> i in Kept(s) + s.closed
      {
        if i < |s.dials| {
          assert DialOk(s, i);
        } else {
          assert i !in s.made + s.closed;
        }
      }
    }
  }

  predicate Pending(d: Dial) {
    d.Queued? || d.Dialing? || d.Racing? || d.Offering?
  }

  /** Nobody is left waiting: after the race returned a pending dial can always drop its
      result, and a running race has a dial under way unless its context ended. */
  lemma NobodyStuck(s: State)
    requires Inv(s)
    ensures s.main.Returned? ==>
              forall i: nat | i < |s.dials| && s.dials[i].Offering? :: Enabled(s, Drop(i))
    ensures !s.main.Returned? && !s.parentDone ==>
              exists i | 0 <= i < |s.dials| :: Pending(s.dials[i])
  {
    if !s.main.Returned? && !s.parentDone {
      var i := FindPending(s.dials, Started(s.main));
      assert DialOk(s, i);
    }
  }

  lemma {:induction false} FindPending(dials: seq<Dial>, k: nat) returns (i: nat)
    requires CountDelivered(dials) < k <= |dials|
    ensures i < k && !dials[i].Delivered?
  {
    if dials[0].Delivered? {
      var j := FindPending(dials[1..], k - 1);
      i := j + 1;
    } else {
      i := 0;
    }
  }

  /** What each dial can do next, and what the end of the context allows. */
  lemma DialsCanMove(s: State, i: nat, ok: bool)
    requires Inv(s) && i < |s.dials|
    ensures match s.dials[i]
            case Queued =>
              && Enabled(s, Refuse(i)) && Enabled(s, Enter(i))
              && (s.limit == 0 || s.inUse < s.limit ==> Enabled(s, GetSlot(i)))
              && (s.limit > 0 && s.main.Returned? ==> Enabled(s, GiveUp(i)))
            case Dialing => Enabled(s, DialEnds(i, ok))
            case Racing => Enabled(s, Leave(i, ok))
            case Offering(_) => if s.main.Returned? then Enabled(s, Drop(i)) else Enabled(s, Receive(i))
            case _ => true
    ensures Enabled(s, ParentEnds)
    ensures var t := After(s, ParentEnds);
            && (t.main.Returned? || Enabled(t, SeeParentDone))
            && (s.dials[i].Offering? ==> Enabled(t, Drop(i)))
            && (s.dials[i].Queued? && s.limit > 0 ==> Enabled(t, GiveUp(i)))
  {
    hide CountDelivered, CountDialing;
  }

  /** A connection comes from a dial or an inner race that ended well, and from nothing else. */
  lemma MadeIff(s: State, a: Action, i: nat)
    requires Enabled(s, a) && i < |s.dials|
    ensures i in After(s, a).made <==> i in s.made || a == DialEnds(i, true) || a == Leave(i, true)
  {
    hide OnFailure, OnTimer;
  }

  // ---- every dial comes to an end ----

  /** How many more steps a dial can take. */
  function Rank(d: Dial): nat {
    match d
    case NotStarted => 4
    case Queued => 3
    case Dialing => 2
    case Racing => 2
    case Offering(_) => 1
    case _ => 0
  }

  function RankSum(dials: seq<Dial>): nat {
    if dials == [] then 0 else Rank(dials[0]) + RankSum(dials[1..])
  }

  lemma {:induction false} RankUpdate(dials: seq<Dial>, i: nat, d: Dial)
    requires i < |dials|
    ensures RankSum(dials[i := d]) + Rank(dials[i]) == RankSum(dials) + Rank(d)
  {
    if i == 0 {
      assert dials[i := d][1..] == dials[1..];
    } else {
      assert dials[i := d][1..] == dials[1..][i - 1 := d];
      RankUpdate(dials[1..], i - 1, d);
    }
  }

  predicate DialStep(a: Action) {
    DialAction(a) || a.Receive?
  }

  lemma StepDescends(s: State, a: Action)
    requires Inv(s) && Enabled(s, a)
    ensures RankSum(After(s, a).dials) + (if DialStep(a) then 1 else 0) <= RankSum(s.dials)
  {
    hide CountDelivered, CountDialing, RankSum, OnFailure, OnTimer;
    var dials := s.dials;
    if DialStep(a) {
      dials := dials[a.i := if a.Receive? then Delivered(s.dials[a.i].ok) else NextDial(s, a)];
      RankUpdate(s.dials, a.i, dials[a.i]);
    }
    if !s.main.Returned? && Started(s.main) < |s.dials| {
      RankUpdate(dials, Started(s.main), Queued);
    }
  }

  function DialSteps(actions: seq<Action>): nat {
    if actions == [] then 0 else (if DialStep(actions[0]) then 1 else 0) + DialSteps(actions[1..])
  }

  /** No run keeps the dials going: each goes through at most four steps. */
  lemma {:induction false} DialsEnd(s: State, actions: seq<Action>)
    requires Inv(s) && CanRun(s, actions)
    ensures DialSteps(actions) + RankSum(Run(s, actions).dials) <= RankSum(s.dials) <= 4 * |s.dials|
    decreases |actions|
  {
    RankBound(s.dials);
    hide Inv, Enabled, After, RankSum;
    if actions != [] {
      StepKeepsInv(s, actions[0]);
      StepDescends(s, actions[0]);
      DialsEnd(After(s, actions[0]), actions[1..]);
    }
  }

  lemma {:induction false} RankBound(dials: seq<Dial>)
    ensures RankSum(dials) <= 4 * |dials|
  {
    if dials != [] {
      RankBound(dials[1..]);
    }
  }

  // ---- when dials start ----

  predicate FirstUnstarted(dials: seq<Dial>, k: nat) {
    k < |dials| && dials[k].NotStarted? && forall i | 0 <= i < k :: !dials[i].NotStarted?
  }

  predicate SomeUnstarted(dials: seq<Dial>) {
    exists i | 0 <= i < |dials| :: dials[i].NotStarted?
  }

  lemma FirstIsStarted(s: State, k: nat)
    requires Inv(s) && !s.main.Returned? && FirstUnstarted(s.dials, k)
    ensures k == Started(s.main)
  {
    assert Started(s.main) < |s.dials| ==> s.dials[Started(s.main)].NotStarted?;
  }

  /** A tick starts the lowest dial that was not started and nothing else, and the timer runs
      again exactly while dials remain. */
  lemma TickStarts(s: State, k: nat)
    requires Inv(s) && Enabled(s, Tick) && FirstUnstarted(s.dials, k)
    ensures var t := After(s, Tick);
            && !t.main.Returned?
            && t == s.(dials := s.dials[k := Queued], main := t.main)
            && TimerOf(t.main) == if SomeUnstarted(t.dials) then Armed else Off
  {
    hide CountDelivered, CountDialing;
    FirstIsStarted(s, k);
    NextUnstarted(s.dials, k);
  }

  lemma NextUnstarted(dials: seq<Dial>, k: nat)
    requires k < |dials| && forall i | 0 <= i < |dials| :: dials[i].NotStarted? <==> i >= k
    ensures SomeUnstarted(dials[k := Queued]) <==> k + 1 < |dials|
  {
    if k + 1 < |dials| {
      assert dials[k := Queued][k + 1].NotStarted?;
    }
  }

  /** With every dial started a tick only stops the timer. */
  lemma TickIdles(s: State)
    requires Inv(s) && Enabled(s, Tick) && !SomeUnstarted(s.dials)
    ensures var t := After(s, Tick);
            !t.main.Returned? && t == s.(main := t.main) && TimerOf(t.main) == Off
  {
    hide CountDelivered, CountDialing;
    UnstartedIff(s);
  }

  lemma UnstartedIff(s: State)
    requires Inv(s) && !s.main.Returned?
    ensures SomeUnstarted(s.dials) <==> Started(s.main) < |s.dials|
  {
    hide CountDelivered, CountDialing;
    if Started(s.main) < |s.dials| {
      assert s.dials[Started(s.main)].NotStarted?;
    }
  }

  /** Whatever was started before the count k has been received exactly when k were. */
  lemma {:induction false} AllReceived(dials: seq<Dial>, k: nat)
    requires k <= |dials| && forall i | 0 <= i < |dials| :: dials[i].NotStarted? <==> i >= k
    ensures CountDelivered(dials) <= k
    ensures CountDelivered(dials) == k <==> forall i | 0 <= i < k :: dials[i].Delivered?
  {
    if dials != [] {
      var rest := dials[1..];
      var j := if k == 0 then 0 else k - 1;
      AllReceived(rest, j);
      assert forall i | 0 <= i < j :: rest[i] == dials[i + 1];
      assert forall i | 1 <= i < k :: dials[i] == rest[i - 1];
    }
  }

  /** No dial is under way: each was received, or never started. */
  predicate Idle(dials: seq<Dial>) {
    forall i | 0 <= i < |dials| :: dials[i].Delivered? || dials[i].NotStarted?
  }

  lemma IdleIff(s: State, i: nat)
    requires Inv(s) && Enabled(s, Receive(i))
    ensures Idle(s.dials[i := Delivered(false)]) <==> Completed(s.main) + 1 == Started(s.main)
  {
    hide CountDelivered, CountDialing;
    var dials := s.dials[i := Delivered(false)];
    CountsUpdate(s.dials, i, Delivered(false));
    AllReceived(dials, Started(s.main));
    assert i < Started(s.main) by {
      assert !s.dials[i].NotStarted?;
    }
  }

  /** A failed result ends the race if it was the last of all; otherwise it starts the next dial
      exactly if no other is under way. */
  lemma FailureStarts(s: State, i: nat)
    requires Inv(s) && Enabled(s, Receive(i)) && !s.dials[i].ok
    ensures var t, dials := After(s, Receive(i)), s.dials[i := Delivered(false)];
            && (!Idle(dials) ==>
                  && !t.main.Returned? && t == s.(dials := dials, main := t.main)
                  && TimerOf(t.main) == TimerOf(s.main))
            && (Idle(dials) && !SomeUnstarted(dials) ==>
                  t == s.(dials := dials, main := Returned(DialFailed), cancelled := true))
            && forall k: nat | FirstUnstarted(dials, k) && Idle(dials) ::
                 && !t.main.Returned? && t == s.(dials := dials[k := Queued], main := t.main)
                 && TimerOf(t.main) == (if s.main.Sources? then Off
                                        else if SomeUnstarted(t.dials) then Armed else TimerOf(s.main))
  {
    IdleIff(s, i);
    var dials := s.dials[i := Delivered(false)];
    var n := Started(s.main);
    hide CountDelivered, CountDialing, Idle;
    assert forall j | 0 <= j < |dials| :: dials[j].NotStarted? <==> j >= n by {
      assert !s.dials[i].NotStarted?;
    }
    if n < |dials| {
      assert dials[n].NotStarted?;
      NextUnstarted(dials, n);
    }
  }

  /** A connection is returned as soon as it is received, and the context's end likewise. */
  lemma ReturnsAtOnce(s: State, i: nat)
    ensures Enabled(s, Receive(i)) && s.dials[i].ok ==>
              var dials := s.dials[i := Delivered(true)];
              After(s, Receive(i)) == s.(dials := dials, main := Returned(Connected(i)), cancelled := true)
    ensures Enabled(s, SeeParentDone) ==>
              After(s, SeeParentDone) == s.(main := Returned(ContextEnded), cancelled := true)
  {
  }

  /** While dials remain the timer leads to a tick: it ticks now, or fires and then ticks. */
  lemma TimerLeads(s: State)
    requires Inv(s) && !s.main.Returned? && SomeUnstarted(s.dials)
    ensures Enabled(s, Tick) || (Enabled(s, TimerFires) && Enabled(After(s, TimerFires), Tick))
  {
    hide CountDelivered, CountDialing;
  }

  /** What the other steps leave alone. */
  lemma OthersStartNothing(s: State, a: Action, k: nat)
    requires Enabled(s, a) && k < |s.dials| && !a.Tick? && !a.Receive?
    ensures |After(s, a).dials| == |s.dials|
    ensures After(s, a).dials[k].NotStarted? <==> s.dials[k].NotStarted?
    ensures s.main.Returned? ==> After(s, a).main.Returned?
  {
  }

  /** No step takes a start back. */
  lemma StartsStay(s: State, a: Action, k: nat)
    requires Inv(s) && Enabled(s, a) && k < |s.dials|
    ensures |After(s, a).dials| == |s.dials|
    ensures !s.dials[k].NotStarted? ==> !After(s, a).dials[k].NotStarted?
    ensures s.main.Returned? ==> After(s, a).main.Returned?
  {
    hide CountDelivered, CountDialing, OnFailure, OnTimer;
  }

  function Ticks(actions: seq<Action>): nat {
    if actions == [] then 0 else (if actions[0].Tick? then 1 else 0) + Ticks(actions[1..])
  }

  predicate FirstStarted(s: State, m: nat) {
    forall i | 0 <= i < |s.dials| && i < m :: !s.dials[i].NotStarted?
  }

  lemma StepKeepsFirst(s: State, a: Action, m: nat)
    requires Inv(s) && Enabled(s, a) && FirstStarted(s, m)
    ensures FirstStarted(After(s, a), m)
    ensures s.main.Returned? ==> After(s, a).main.Returned?
  {
    assert |s.dials| >= 2;
    StartsStay(s, a, 0);
    hide Inv, After, Enabled;
    forall i | 0 <= i < |After(s, a).dials| && i < m
      ensures !After(s, a).dials[i].NotStarted?
    {
      StartsStay(s, a, i);
    }
  }

  lemma TickAddsOne(s: State, m: nat)
    requires Inv(s) && Enabled(s, Tick) && FirstStarted(s, m)
    ensures FirstStarted(After(s, Tick), m + 1)
  {
    hide After;
    StepKeepsFirst(s, Tick, m);
    hide Inv;
    if m < |s.dials| && s.dials[m].NotStarted? {
      TickStarts(s, m);
    } else {
      StepKeepsFirst(s, Tick, m + 1);
    }
  }

  lemma {:induction false} TicksAdd(s: State, actions: seq<Action>, m: nat)
    requires Inv(s) && CanRun(s, actions) && FirstStarted(s, m)
    ensures FirstStarted(Run(s, actions), m + Ticks(actions))
    decreases |actions|
  {
    hide Inv, Enabled, After, FirstStarted;
    if actions != [] {
      StepKeepsInv(s, actions[0]);
      if actions[0].Tick? {
        TickAddsOne(s, m);
        TicksAdd(After(s, actions[0]), actions[1..], m + 1);
      } else {
        StepKeepsFirst(s, actions[0], m);
        TicksAdd(After(s, actions[0]), actions[1..], m);
      }
    }
  }

  predicate FailureStep(s: State, a: Action)
    requires Enabled(s, a)
  {
    a.Receive? && !s.dials[a.i].ok
  }

  function Failures(s: State, actions: seq<Action>): nat
    requires CanRun(s, actions)
    decreases |actions|
  {
    if actions == [] then 0
    else
      (if FailureStep(s, actions[0]) then 1 else 0)
      + Failures(After(s, actions[0]), actions[1..])
  }

  predicate UnstartedFrom(s: State, m: nat) {
    forall i | m <= i < |s.dials| :: s.dials[i].NotStarted?
  }

  lemma StepStartsOne(s: State, a: Action, m: nat)
    requires Inv(s) && Enabled(s, a) && m > 0 && UnstartedFrom(s, m)
    ensures UnstartedFrom(After(s, a), if a.Tick? || FailureStep(s, a) then m + 1 else m)
  {
    hide CountDelivered, CountDialing;
    if a.Tick? || a.Receive? {
      assert m < |s.dials| ==> s.dials[m].NotStarted?;
    } else {
      hide Inv, After, Enabled;
      forall i | 0 <= i < |s.dials|
        ensures |After(s, a).dials| == |s.dials|
        ensures After(s, a).dials[i].NotStarted? <==> s.dials[i].NotStarted?
      {
        OthersStartNothing(s, a, i);
      }
      assert |After(s, a).dials| == |s.dials| by { OthersStartNothing(s, a, 0); }
    }
  }

  lemma {:induction false} StartsAdd(s: State, actions: seq<Action>, m: nat)
    requires Inv(s) && CanRun(s, actions) && m > 0 && UnstartedFrom(s, m)
    ensures UnstartedFrom(Run(s, actions), m + Ticks(actions) + Failures(s, actions))
    decreases |actions|
  {
    hide Inv, Enabled, After, UnstartedFrom;
    if actions != [] {
      var a := actions[0];
      StepKeepsInv(s, a);
      StepStartsOne(s, a, m);
      StartsAdd(After(s, a), actions[1..], if a.Tick? || FailureStep(s, a) then m + 1 else m);
    }
  }

  /** Dials are staggered: a tick or a failed result starts at most one, nothing else any. */
  lemma StartsAreStaggered(s0: State, actions: seq<Action>)
    requires Init(s0) && CanRun(s0, actions)
    ensures var s := Run(s0, actions);
            forall i | 0 <= i < |s.dials| && i > Ticks(actions) + Failures(s0, actions) :: s.dials[i].NotStarted?
  {
    InitInv(s0);
    assert UnstartedFrom(s0, 1);
    StartsAdd(s0, actions, 1);
  }

  /** In every run k ticks have started the first k + 1 dials, or all of them. */
  lemma TicksStart(s0: State, actions: seq<Action>)
    requires Init(s0) && CanRun(s0, actions)
    ensures var s := Run(s0, actions);
            forall i | 0 <= i < |s.dials| && i <= Ticks(actions) :: !s.dials[i].NotStarted?
  {
    InitInv(s0);
    assert FirstStarted(s0, 1);
    TicksAdd(s0, actions, 1);
  }

  // ---- the two loops are one ----

  /** The same race with the loop over two addresses in place of the one over two sources. The
      source loop stops its timer with the fallback started; the address loop may leave its
      own running, to no effect. */
  predicate SameRace(s: State, t: State) {
    && t == s.(main := t.main)
    && if s.main.Returned? then t.main == s.main
       else
         && |s.dials| == 2 && s.main.Sources? && t.main.Addresses?
         && Started(s.main) == Started(t.main) && Completed(s.main) == Completed(t.main) < Started(t.main)
         && (if s.main.fallbackStarted then s.main.delay == Off else s.main.delay == t.main.timer)
  }

  /** A tick of the address loop's timer that has nothing left to start. */
  predicate IdleTimer(t: State, a: Action) {
    (a.TimerFires? || a.Tick?) && t.main.Addresses? && t.main.started == 2
  }

  lemma SameDialSteps(s: State, t: State, a: Action)
    requires SameRace(s, t) && DialAction(a)
    ensures Enabled(s, a) <==> Enabled(t, a)
    ensures Enabled(s, a) ==> SameRace(After(s, a), After(t, a))
  {
  }

  lemma SameLoopSteps(s: State, t: State, a: Action)
    requires SameRace(s, t) && !DialAction(a) && (!s.main.Returned? ==> LoopOk(s))
    ensures Enabled(s, a) ==> Enabled(t, a) && SameRace(After(s, a), After(t, a))
    ensures Enabled(t, a) ==> if IdleTimer(t, a) then SameRace(s, After(t, a)) else Enabled(s, a)
  {
    hide CountDelivered;
    if a.Receive? && Enabled(s, a) && !s.dials[a.i].ok {
      SameFailure(s, t, a.i);
    }
  }

  /** Each loop can do what the other does, up to idle timer steps. */
  lemma SameSteps(s: State, t: State, a: Action)
    requires SameRace(s, t) && (!s.main.Returned? ==> LoopOk(s))
    ensures Enabled(s, a) ==> Enabled(t, a) && SameRace(After(s, a), After(t, a))
    ensures Enabled(t, a) ==> if IdleTimer(t, a) then SameRace(s, After(t, a)) else Enabled(s, a)
  {
    hide SameRace, LoopOk, After, Enabled;
    if DialAction(a) {
      SameDialSteps(s, t, a);
    } else {
      SameLoopSteps(s, t, a);
    }
  }

  lemma SameFailure(s: State, t: State, i: nat)
    requires SameRace(s, t) && Enabled(s, Receive(i)) && !s.dials[i].ok && LoopOk(s)
    ensures SameRace(After(s, Receive(i)), After(t, Receive(i)))
  {
    hide CountDelivered;
  }

  /** Every run of the source loop is a run of the address loop over two addresses, with the
      same dials, connections and result. */
  lemma {:induction false} SourcesRaceIsAddressRace(s: State, t: State, actions: seq<Action>)
    requires Inv(s) && SameRace(s, t) && CanRun(s, actions)
    ensures CanRun(t, actions) && SameRace(Run(s, actions), Run(t, actions))
    decreases |actions|
  {
    if actions != [] {
      SameSteps(s, t, actions[0]);
      StepKeepsInv(s, actions[0]);
      hide Inv, SameRace, Enabled, After;
      SourcesRaceIsAddressRace(After(s, actions[0]), After(t, actions[0]), actions[1..]);
    }
  }

  /** The actions of an address run without its idle timer steps. */
  function Essential(t: State, actions: seq<Action>): seq<Action>
    requires CanRun(t, actions)
    decreases |actions|
  {
    if actions == [] then []
    else
      var rest := Essential(After(t, actions[0]), actions[1..]);
      if IdleTimer(t, actions[0]) then rest else [actions[0]] + rest
  }

  /** And every run of the address loop over two addresses is, without idle timer steps, a run
      of the source loop. */
  lemma {:induction false} AddressRaceIsSourcesRace(s: State, t: State, actions: seq<Action>)
    requires Inv(s) && SameRace(s, t) && CanRun(t, actions)
    ensures CanRun(s, Essential(t, actions))
    ensures SameRace(Run(s, Essential(t, actions)), Run(t, actions))
    decreases |actions|
  {
    if actions != [] {
      var a, u := actions[0], After(t, actions[0]);
      SameSteps(s, t, a);
      if IdleTimer(t, a) {
        hide Inv, SameRace, Enabled, After;
        AddressRaceIsSourcesRace(s, u, actions[1..]);
      } else {
        StepKeepsInv(s, a);
        hide Inv, SameRace, Enabled, After;
        AddressRaceIsSourcesRace(After(s, a), u, actions[1..]);
        var rest := Essential(u, actions[1..]);
        assert ([a] + rest)[0] == a && ([a] + rest)[1..] == rest;
      }
    }
  }
}
