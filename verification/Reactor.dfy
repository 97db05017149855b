/** The epoll reactor as an interleaving of its workers with associations that open,
    register, deregister and close sockets. Descriptors are reused, workers may hold
    events for sockets long gone, and EPOLL_CTL_ADD may fail. */
module Reactor {
  import opened Wrappers

  type Fd = nat
  type RegId = nat

  /** Where register or deregister of one registration stands. */
  datatype Phase =
    | Inserted    // in the map, not yet in the interest list
    | AddFailed   // EPOLL_CTL_ADD failed, still in the map
    | Failed      // register returned an error
    | Active      // register returned nil
    | Unmapped    // deregister removed it from the map
    | Deleted     // and from the interest list
    | Done        // deregister returned

  /** The blocking goroutine that serves a socket whose registration failed. */
  datatype Goroutine = NotStarted | Pumps | Ended

  /** `stale` is history: whether a worker held an event of the descriptor when the
      registration was inserted. */
  datatype Reg = Reg(fd: Fd, phase: Phase, owner: Option<nat>, dead: bool, stopped: bool,
                     stale: bool, fallback: Goroutine)

  datatype Event = Readable(fd: Fd) | Wake

  datatype Stage = Pumping | Rearming | Finished

  datatype Worker =
    | Gathering(events: seq<Event>)                      // inside EpollWait
    | Scanning(todo: seq<Event>)                         // working through its events
    | Found(reg: RegId, rest: seq<Event>)                // looked up, lock not yet taken
    | Running(served: RegId, stage: Stage, left: seq<Event>) // in the handler, holding the lock
    | Skipping(skipped: RegId, after: seq<Event>)        // holding the lock of a dead registration
    | Gone

  /** Open sockets with their registration, the reactor's map, the kernel's interest list
      (true when armed), all registrations ever made, and the workers. */
  datatype State = State(
    sockets: map<Fd, Option<RegId>>, regs: map<Fd, RegId>, epoll: map<Fd, bool>,
    info: seq<Reg>, workers: seq<Worker>, closed: bool)

  datatype Action =
    | Open(fd: Fd) | Close(fd: Fd)
    | Insert(fd: Fd) | Add(r: RegId) | AddFails(r: RegId) | Withdraw(r: RegId)
    | Remove(r: RegId) | Delete(r: RegId) | Kill(r: RegId)
    | Collect(w: nat, fd: Fd) | CollectWake(w: nat) | Deliver(w: nat)
    | Scan(w: nat) | Lock(w: nat) | Pumped(w: nat, more: bool) | Rearm(w: nat) | Unlock(w: nat)
    | StartFallback(r: RegId) | EndFallback(r: RegId)
    | CloseReactor

  predicate At(s: State, r: RegId, phase: Phase) {
    r < |s.info| && s.info[r].phase == phase
  }

  predicate Enabled(s: State, a: Action) {
    match a
    case Open(fd) => fd !in s.sockets
    case Close(fd) =>
      && fd in s.sockets
      && (s.sockets[fd].Some? ==> At(s, s.sockets[fd].value, Done) || At(s, s.sockets[fd].value, Failed))
    case Insert(fd) => fd in s.sockets && s.sockets[fd] == None
    case Add(r) => At(s, r, Inserted) && s.info[r].fd !in s.epoll
    case AddFails(r) => At(s, r, Inserted)
    case Withdraw(r) => At(s, r, AddFailed)
    case Remove(r) => At(s, r, Active)
    case Delete(r) => At(s, r, Unmapped)
    case Kill(r) => At(s, r, Deleted) && s.info[r].owner == None
    case Collect(w, fd) =>
      w < |s.workers| && s.workers[w].Gathering? && fd in s.epoll && s.epoll[fd]
    case CollectWake(w) => w < |s.workers| && s.workers[w].Gathering?
    case Deliver(w) => w < |s.workers| && s.workers[w].Gathering?
    case Scan(w) => w < |s.workers| && s.workers[w].Scanning?
    case Lock(w) =>
      && w < |s.workers| && s.workers[w].Found?
      && s.workers[w].reg < |s.info| && s.info[s.workers[w].reg].owner == None
    case Pumped(w, _) =>
      && w < |s.workers| && s.workers[w].Running? && s.workers[w].stage == Pumping
      && s.workers[w].served < |s.info|
    case Rearm(w) =>
      && w < |s.workers| && s.workers[w].Running? && s.workers[w].stage == Rearming
      && s.workers[w].served < |s.info|
    case Unlock(w) =>
      && w < |s.workers|
      && ((s.workers[w].Running? && s.workers[w].stage == Finished) || s.workers[w].Skipping?)
      && Held(s.workers[w]) < |s.info|
    case StartFallback(r) =>
      At(s, r, Failed) && s.info[r].fallback == NotStarted && s.info[r].fd in s.sockets && s.sockets[s.info[r].fd] == Some(r)
    case EndFallback(r) => r < |s.info| && s.info[r].fallback == Pumps
    case CloseReactor => true
  }

  /** The registration whose lock a worker holds. */
  function Held(w: Worker): RegId
    requires w.Running? || w.Skipping?
  {
    if w.Running? then w.served else w.skipped
  }

  function SetPhase(s: State, r: RegId, phase: Phase): State
    requires r < |s.info|
  {
    s.(info := s.info[r := s.info[r].(phase := phase)])
  }

  /** One pass of the worker's event loop up to the lookup. */
  function ScanNext(s: State, todo: seq<Event>): Worker {
    if todo == [] then Gathering([])
    else if todo[0] == Wake then if s.closed then Gone else Scanning(todo[1..])
    else if todo[0].fd in s.regs then Found(s.regs[todo[0].fd], todo[1..])
    else Scanning(todo[1..])
  }

  /** The events a worker still has to look at. */
  function Backlog(w: Worker): seq<Event> {
    match w
    case Gathering(events) => events
    case Scanning(todo) => todo
    case Found(_, rest) => rest
    case Running(_, _, left) => left
    case Skipping(_, after) => after
    case Gone => []
  }

  /** Some worker has yet to look at an event of the descriptor. */
  predicate HeldSomewhere(s: State, fd: Fd) {
    exists w | 0 <= w < |s.workers| :: Readable(fd) in Backlog(s.workers[w])
  }

  predicate WorkerAction(a: Action) {
    a.Collect? || a.CollectWake? || a.Deliver? || a.Scan? || a.Lock? || a.Pumped? || a.Rearm? || a.Unlock?
  }

  /** Where a worker's step takes it. */
  function NextWorker(s: State, a: Action): Worker
    requires Enabled(s, a) && WorkerAction(a)
  {
    var v := s.workers[a.w];
    match a
    case Collect(_, fd) => Gathering(v.events + [Readable(fd)])
    case CollectWake(_) => Gathering(v.events + [Wake])
    case Deliver(_) => Scanning(v.events)
    case Scan(_) => ScanNext(s, v.todo)
    case Lock(_) => if s.info[v.reg].dead then Skipping(v.reg, v.rest) else Running(v.reg, Pumping, v.rest)
    case Pumped(_, more) => v.(stage := if more then Rearming else Finished)
    case Rearm(_) => v.(stage := Finished)
    case Unlock(_) => Scanning(if v.Running? then v.left else v.after)
  }

  /** Locks taken and returned, and the handler that will not be rearmed. */
  function NextInfo(s: State, a: Action): seq<Reg>
    requires Enabled(s, a) && WorkerAction(a)
  {
    var v := s.workers[a.w];
    match a
    case Lock(w) => s.info[v.reg := s.info[v.reg].(owner := Some(w))]
    case Pumped(_, more) => if more then s.info else s.info[v.served := s.info[v.served].(stopped := true)]
    case Unlock(_) => s.info[Held(v) := s.info[Held(v)].(owner := None)]
    case _ => s.info
  }

  /** An event disarms its descriptor, rearming arms it again. */
  function NextEpoll(s: State, a: Action): map<Fd, bool>
    requires Enabled(s, a) && WorkerAction(a)
  {
    match a
    case Collect(_, fd) => s.epoll[fd := false]
    case Rearm(w) =>
      var fd := s.info[s.workers[w].served].fd;
      if fd in s.epoll then s.epoll[fd := true] else s.epoll
    case _ => s.epoll
  }

  function AfterRegistration(s: State, a: Action): State
    requires Enabled(s, a) && !WorkerAction(a)
  {
    match a
    case Open(fd) => s.(sockets := s.sockets[fd := None])
    case Close(fd) => s.(sockets := s.sockets - {fd}, epoll := s.epoll - {fd})
    case Insert(fd) =>
      s.(sockets := s.sockets[fd := Some(|s.info|)], regs := s.regs[fd := |s.info|],
         info := s.info + [Reg(fd, Inserted, None, false, false, HeldSomewhere(s, fd), NotStarted)])
    case Add(r) => SetPhase(s, r, Active).(epoll := s.epoll[s.info[r].fd := true])
    case AddFails(r) => SetPhase(s, r, AddFailed)
    case Withdraw(r) => SetPhase(s, r, Failed).(regs := s.regs - {s.info[r].fd})
    case Remove(r) => SetPhase(s, r, Unmapped).(regs := s.regs - {s.info[r].fd})
    case Delete(r) => SetPhase(s, r, Deleted).(epoll := s.epoll - {s.info[r].fd})
    case Kill(r) => s.(info := s.info[r := s.info[r].(phase := Done, dead := true)])
    case StartFallback(r) => s.(info := s.info[r := s.info[r].(fallback := Pumps)])
    case EndFallback(r) => s.(info := s.info[r := s.info[r].(fallback := Ended)])
    case CloseReactor => s.(closed := true)
  }

  function After(s: State, a: Action): State
    requires Enabled(s, a)
  {
    if WorkerAction(a) then
      s.(workers := s.workers[a.w := NextWorker(s, a)], info := NextInfo(s, a), epoll := NextEpoll(s, a))
    else AfterRegistration(s, a)
  }

  predicate Init(s: State) {
    && s.sockets == map[] && s.regs == map[] && s.epoll == map[] && s.info == [] && !s.closed
    && forall w | 0 <= w < |s.workers| :: s.workers[w] == Gathering([])
  }

  // ---- the invariant ----

  predicate Mapped(phase: Phase) {
    phase == Inserted || phase == AddFailed || phase == Active
  }

  predicate Watched(phase: Phase) {
    phase == Active || phase == Unmapped
  }

  /** A registration's own socket is open until its deregister returned or it failed. */
  predicate Occupies(phase: Phase) {
    phase != Done && phase != Failed
  }

  predicate RegOk(s: State, r: RegId)
    requires r < |s.info|
  {
    var i := s.info[r];
    && (Occupies(i.phase) ==> i.fd in s.sockets && s.sockets[i.fd] == Some(r))
    && (Mapped(i.phase) ==> i.fd in s.regs && s.regs[i.fd] == r)
    && (Watched(i.phase) ==> i.fd in s.epoll)
    && (i.dead <==> i.phase == Done)
  }

  /** The map and the interest list only name the current registration of an open socket. */
  predicate TablesOk(s: State) {
    && (forall r | 0 <= r < |s.info| :: RegOk(s, r))
    && (forall fd | fd in s.regs :: s.regs[fd] < |s.info| && s.info[s.regs[fd]].fd == fd && Mapped(s.info[s.regs[fd]].phase))
    && (forall fd | fd in s.sockets && s.sockets[fd].Some? ::
          s.sockets[fd].value < |s.info| && s.info[s.sockets[fd].value].fd == fd)
    && (forall fd | fd in s.epoll ::
          fd in s.sockets && s.sockets[fd].Some? && s.sockets[fd].value < |s.info|
          && Watched(s.info[s.sockets[fd].value].phase))
  }

  predicate Holds(w: Worker, r: RegId) {
    (w.Running? && w.served == r) || (w.Skipping? && w.skipped == r)
  }

  predicate WorkerOk(s: State, w: nat)
    requires w < |s.workers|
  {
    match s.workers[w]
    case Running(r, _, _) => r < |s.info| && s.info[r].owner == Some(w) && !s.info[r].dead
    case Skipping(r, _) => r < |s.info| && s.info[r].owner == Some(w)
    case Found(r, _) => r < |s.info|
    case _ => true
  }

  predicate OwnerOk(s: State, r: RegId)
    requires r < |s.info|
  {
    var owner := s.info[r].owner;
    owner.Some? ==> owner.value < |s.workers| && Holds(s.workers[owner.value], r)
  }

  /** A registration's lock is held by exactly the worker that is inside it. */
  predicate LocksOk(s: State) {
    && (forall r | 0 <= r < |s.info| :: OwnerOk(s, r))
    && (forall w | 0 <= w < |s.workers| :: WorkerOk(s, w))
  }

  /** The worker will run r's handler, or is running it and has yet to rearm. */
  predicate Attends(w: Worker, fd: Fd, r: RegId) {
    || Readable(fd) in Backlog(w)
    || (w.Found? && w.reg == r)
    || (w.Running? && w.served == r && w.stage != Finished)
  }

  /** A live registration is armed or some worker attends to it: no readiness is lost. */
  ghost predicate Served(s: State, r: RegId)
    requires r < |s.info|
  {
    var fd := s.info[r].fd;
    (fd in s.epoll && s.epoll[fd]) || exists w :: 0 <= w < |s.workers| && Attends(s.workers[w], fd, r)
  }

  ghost predicate WakeupsOk(s: State) {
    !s.closed ==>
      forall r | 0 <= r < |s.info| && s.info[r].phase == Active && !s.info[r].stopped :: Served(s, r)
  }

  /** The worker has found the registration, or holds its lock. */
  predicate Visits(w: Worker, r: RegId) {
    (w.Found? && w.reg == r) || Holds(w, r)
  }

  /** Not watched yet, or never: no event of this registration's own can exist. */
  predicate Unwatched(phase: Phase) {
    phase == Inserted || phase == AddFailed || phase == Failed
  }

  /** Unless an older event was around at its insertion, no worker comes near a registration
      before EPOLL_CTL_ADD succeeded, nor after it failed. */
  predicate QuietOk(s: State, r: RegId)
    requires r < |s.info|
  {
    var i := s.info[r];
    && (i.fallback != NotStarted ==> i.phase == Failed)
    && (Unwatched(i.phase) && !i.stale ==> forall w | 0 <= w < |s.workers| :: !Visits(s.workers[w], r))
    && (Unwatched(i.phase) && i.phase != Failed && !i.stale ==> !HeldSomewhere(s, i.fd))
  }

  predicate StaleOk(s: State) {
    forall r | 0 <= r < |s.info| :: QuietOk(s, r)
  }

  ghost predicate Inv(s: State) {
    TablesOk(s) && LocksOk(s) && WakeupsOk(s) && StaleOk(s)
  }

  lemma InitInv(s: State)
    requires Init(s)
    ensures Inv(s)
  {
  }

  // ---- tables ----

  /** A socket that no registration in the tables uses is registered. */
  lemma InsertedTables(s: State, t: State, fd: Fd, i: Reg)
    requires TablesOk(s) && fd in s.sockets && s.sockets[fd] == None
    requires i.fd == fd && i.phase == Inserted && !i.dead
    requires t.info == s.info + [i] && t.epoll == s.epoll
    requires t.sockets == s.sockets[fd := Some(|s.info|)] && t.regs == s.regs[fd := |s.info|]
    ensures TablesOk(t)
  {
    forall r | 0 <= r < |t.info|
      ensures RegOk(t, r)
    {
      assert r < |s.info| ==> RegOk(s, r);
    }
  }

  lemma InsertKeepsTables(s: State, fd: Fd)
    requires TablesOk(s) && Enabled(s, Insert(fd))
    ensures TablesOk(After(s, Insert(fd)))
  {
    hide TablesOk;
    var t := After(s, Insert(fd));
    InsertedTables(s, t, fd, t.info[|s.info|]);
  }

  /** A socket is opened, or closed with its registration over. */
  lemma OtherSocketTables(s: State, t: State, fd: Fd)
    requires TablesOk(s) && t.info == s.info && t.regs == s.regs
    requires fd in s.sockets && s.sockets[fd].Some? ==>
               s.sockets[fd].value < |s.info| && !Occupies(s.info[s.sockets[fd].value].phase)
    requires t.sockets == s.sockets - {fd} || (fd !in s.sockets && t.sockets == s.sockets[fd := None])
    requires t.epoll == s.epoll - {fd}
    ensures TablesOk(t)
  {
    forall r | 0 <= r < |t.info|
      ensures RegOk(t, r)
    {
      assert RegOk(s, r);
    }
  }

  lemma OpenCloseKeepsTables(s: State, a: Action)
    requires TablesOk(s) && Enabled(s, a) && (a.Open? || a.Close? || a.CloseReactor?)
    ensures TablesOk(After(s, a))
  {
    var t := After(s, a);
    if a.CloseReactor? {
      SameTablesOk(s, t);
    } else {
      assert a.Open? ==> a.fd !in s.epoll;
      hide TablesOk;
      assert t.epoll == s.epoll - {a.fd};
      OtherSocketTables(s, t, a.fd);
    }
  }

  lemma SocketKeepsTables(s: State, a: Action)
    requires TablesOk(s) && Enabled(s, a) && (a.Open? || a.Close? || a.Insert? || a.CloseReactor?)
    ensures TablesOk(After(s, a))
  {
    hide TablesOk, Enabled, After;
    if a.Insert? {
      InsertKeepsTables(s, a.fd);
    } else {
      OpenCloseKeepsTables(s, a);
    }
  }

  /** t is s with registration r, whose socket is open, in another phase and the tables
      changed for its descriptor to match. */
  ghost predicate PhaseMove(s: State, r: RegId, t: State)
    requires r < |s.info|
  {
    var fd := s.info[r].fd;
    && t.sockets == s.sockets && |t.info| == |s.info|
    && (forall q | 0 <= q < |s.info| && q != r :: t.info[q] == s.info[q])
    && t.info[r].fd == fd && Occupies(s.info[r].phase)
    && (t.info[r].dead <==> t.info[r].phase == Done)
    && (forall f | f in t.regs :: f in s.regs && t.regs[f] == s.regs[f])
    && (forall f | f in s.regs && f != fd :: f in t.regs)
    && (fd in t.regs ==> Mapped(t.info[r].phase)) && (Mapped(t.info[r].phase) ==> fd in t.regs)
    && (Mapped(t.info[r].phase) ==> Mapped(s.info[r].phase))
    && (forall f | f != fd :: f in t.epoll <==> f in s.epoll)
    && (fd in t.epoll <==> Watched(t.info[r].phase))
  }

  lemma PhaseMoveKeepsTables(s: State, r: RegId, t: State)
    requires TablesOk(s) && r < |s.info| && PhaseMove(s, r, t)
    ensures TablesOk(t)
  {
    assert RegOk(s, r);
    forall q | 0 <= q < |t.info|
      ensures RegOk(t, q)
    {
      assert RegOk(s, q);
    }
  }

  /** While its socket is open, the tables hold a descriptor exactly as its phase says. */
  lemma OwnEntries(s: State, r: RegId)
    requires TablesOk(s) && r < |s.info| && Occupies(s.info[r].phase)
    ensures s.info[r].fd in s.sockets && s.sockets[s.info[r].fd] == Some(r)
    ensures s.info[r].fd in s.regs <==> Mapped(s.info[r].phase)
    ensures s.info[r].fd in s.epoll <==> Watched(s.info[r].phase)
    ensures s.info[r].fd in s.regs ==> s.regs[s.info[r].fd] == r
    ensures s.info[r].dead <==> s.info[r].phase == Done
  {
    var fd := s.info[r].fd;
    assert RegOk(s, r);
    if fd in s.regs {
      assert RegOk(s, s.regs[fd]);
    }
  }

  lemma RegisterIsPhaseMove(s: State, a: Action, r: RegId)
    requires TablesOk(s) && Enabled(s, a) && (a == Add(r) || a == AddFails(r) || a == Withdraw(r))
    ensures PhaseMove(s, r, After(s, a))
  {
    hide TablesOk;
    OwnEntries(s, r);
  }

  lemma DeregisterIsPhaseMove(s: State, a: Action, r: RegId)
    requires TablesOk(s) && Enabled(s, a) && (a == Remove(r) || a == Delete(r) || a == Kill(r))
    ensures PhaseMove(s, r, After(s, a))
  {
    hide TablesOk;
    OwnEntries(s, r);
  }

  /** Workers change locks, stop flags and arming, never a table entry. */
  predicate SameTables(s: State, t: State) {
    && t.sockets == s.sockets && t.regs == s.regs && t.epoll.Keys == s.epoll.Keys && |t.info| == |s.info|
    && forall r | 0 <= r < |s.info| ::
         t.info[r].fd == s.info[r].fd && t.info[r].phase == s.info[r].phase && t.info[r].dead == s.info[r].dead
  }

  lemma SameTablesOk(s: State, t: State)
    requires TablesOk(s) && SameTables(s, t)
    ensures TablesOk(t)
  {
    forall r | 0 <= r < |t.info|
      ensures RegOk(t, r)
    {
      assert RegOk(s, r);
    }
    forall fd | fd in t.epoll
      ensures fd in t.sockets && t.sockets[fd].Some? && t.sockets[fd].value < |t.info|
      ensures Watched(t.info[t.sockets[fd].value].phase)
    {
      assert fd in s.epoll.Keys;
    }
  }

  lemma WorkersLeaveTables(s: State, a: Action)
    requires Enabled(s, a) && WorkerAction(a)
    ensures SameTables(s, After(s, a))
  {
  }

  lemma FallbackLeavesTables(s: State, a: Action)
    requires Enabled(s, a) && (a.StartFallback? || a.EndFallback?)
    ensures SameTables(s, After(s, a))
  {
  }

  lemma KeepsTables(s: State, a: Action)
    requires TablesOk(s) && Enabled(s, a)
    ensures TablesOk(After(s, a))
  {
    hide TablesOk, After, SameTables, PhaseMove;
    if WorkerAction(a) {
      WorkersLeaveTables(s, a);
      SameTablesOk(s, After(s, a));
    } else if a.Open? || a.Close? || a.Insert? || a.CloseReactor? {
      SocketKeepsTables(s, a);
    } else if a.StartFallback? || a.EndFallback? {
      FallbackLeavesTables(s, a);
      SameTablesOk(s, After(s, a));
    } else {
      if a.Add? || a.AddFails? || a.Withdraw? {
        RegisterIsPhaseMove(s, a, a.r);
      } else {
        DeregisterIsPhaseMove(s, a, a.r);
      }
      PhaseMoveKeepsTables(s, a.r, After(s, a));
    }
  }

  // ---- locks ----

  lemma RegistrationsKeepLocks(s: State, a: Action)
    requires LocksOk(s) && TablesOk(s) && Enabled(s, a) && !WorkerAction(a)
    ensures LocksOk(After(s, a))
  {
    hide TablesOk;
    var t := After(s, a);
    assert |t.info| >= |s.info| && t.workers == s.workers;
    assert forall r | 0 <= r < |s.info| :: t.info[r].owner == s.info[r].owner;
    assert forall r | 0 <= r < |s.info| :: t.info[r].dead != s.info[r].dead ==> s.info[r].owner == None;
    assert forall r | |s.info| <= r < |t.info| :: t.info[r].owner == None;
    SameOwners(s, t);
  }

  lemma SameOwners(s: State, t: State)
    requires LocksOk(s) && |t.info| >= |s.info| && t.workers == s.workers
    requires forall r | 0 <= r < |s.info| :: t.info[r].owner == s.info[r].owner
    requires forall r | 0 <= r < |s.info| :: t.info[r].dead != s.info[r].dead ==> s.info[r].owner == None
    requires forall r | |s.info| <= r < |t.info| :: t.info[r].owner == None
    ensures LocksOk(t)
  {
    forall r | 0 <= r < |t.info|
      ensures OwnerOk(t, r)
    {
      assert r < |s.info| ==> OwnerOk(s, r);
    }
    forall w | 0 <= w < |t.workers|
      ensures WorkerOk(t, w)
    {
      assert WorkerOk(s, w);
    }
  }

  /** A worker that holds the same lock before and after, with owners unchanged. */
  lemma WorkerMoveKeepsLocks(s: State, w: nat, v: Worker, t: State)
    requires LocksOk(s) && w < |s.workers| && t.workers == s.workers[w := v] && |t.info| == |s.info|
    requires forall r | 0 <= r < |s.info| :: t.info[r].owner == s.info[r].owner && t.info[r].dead == s.info[r].dead
    requires forall r :: Holds(v, r) <==> Holds(s.workers[w], r)
    requires WorkerOk(t, w)
    ensures LocksOk(t)
  {
    forall r | 0 <= r < |t.info|
      ensures OwnerOk(t, r)
    {
      assert OwnerOk(s, r);
    }
    forall x | 0 <= x < |t.workers|
      ensures WorkerOk(t, x)
    {
      assert WorkerOk(s, x);
    }
  }

  lemma EventsKeepLocks(s: State, a: Action)
    requires LocksOk(s) && Enabled(s, a) && (a.Collect? || a.CollectWake? || a.Deliver?)
    ensures LocksOk(After(s, a))
  {
    hide LocksOk;
    WorkerMoveKeepsLocks(s, a.w, After(s, a).workers[a.w], After(s, a));
  }

  lemma ScanKeepsLocks(s: State, w: nat)
    requires LocksOk(s) && TablesOk(s) && Enabled(s, Scan(w))
    ensures LocksOk(After(s, Scan(w)))
  {
    hide LocksOk;
    WorkerMoveKeepsLocks(s, w, After(s, Scan(w)).workers[w], After(s, Scan(w)));
  }

  lemma HandlerKeepsLocks(s: State, a: Action)
    requires LocksOk(s) && Enabled(s, a) && (a.Pumped? || a.Rearm?)
    ensures LocksOk(After(s, a))
  {
    assert WorkerOk(s, a.w);
    hide LocksOk;
    WorkerMoveKeepsLocks(s, a.w, After(s, a).workers[a.w], After(s, a));
  }

  lemma LockKeepsLocks(s: State, w: nat)
    requires LocksOk(s) && Enabled(s, Lock(w))
    ensures LocksOk(After(s, Lock(w)))
  {
    var t := After(s, Lock(w));
    forall r | 0 <= r < |t.info|
      ensures OwnerOk(t, r)
    {
      assert OwnerOk(s, r);
    }
    forall x | 0 <= x < |t.workers|
      ensures WorkerOk(t, x)
    {
      assert WorkerOk(s, x);
    }
  }

  lemma UnlockKeepsLocks(s: State, w: nat)
    requires LocksOk(s) && Enabled(s, Unlock(w))
    ensures LocksOk(After(s, Unlock(w)))
  {
    var t := After(s, Unlock(w));
    assert WorkerOk(s, w);
    forall r | 0 <= r < |t.info|
      ensures OwnerOk(t, r)
    {
      assert OwnerOk(s, r);
    }
    forall x | 0 <= x < |t.workers|
      ensures WorkerOk(t, x)
    {
      assert WorkerOk(s, x);
    }
  }

  lemma KeepsLocks(s: State, a: Action)
    requires LocksOk(s) && TablesOk(s) && Enabled(s, a)
    ensures LocksOk(After(s, a))
  {
    hide LocksOk, TablesOk, After;
    if !WorkerAction(a) {
      RegistrationsKeepLocks(s, a);
    } else if a.Lock? {
      LockKeepsLocks(s, a.w);
    } else if a.Unlock? {
      UnlockKeepsLocks(s, a.w);
    } else if a.Scan? {
      ScanKeepsLocks(s, a.w);
    } else if a.Pumped? || a.Rearm? {
      HandlerKeepsLocks(s, a);
    } else {
      EventsKeepLocks(s, a);
    }
  }

  // ---- no readiness is lost ----

  predicate Live(s: State, r: RegId) {
    r < |s.info| && s.info[r].phase == Active && !s.info[r].stopped
  }

  lemma ServedByWorker(s: State, r: RegId, w: nat)
    requires r < |s.info| && w < |s.workers| && Attends(s.workers[w], s.info[r].fd, r)
    ensures Served(s, r)
  {
  }

  /** Opening, registering and deregistering sockets leaves other live registrations alone. */
  lemma RegistrationsKeepServed(s: State, a: Action, r: RegId)
    requires TablesOk(s) && Enabled(s, a) && !WorkerAction(a)
    requires Live(After(s, a), r) && (Live(s, r) ==> Served(s, r))
    ensures Served(After(s, a), r)
  {
    var t := After(s, a);
    if a != Add(r) {
      assert Live(s, r);
      OwnEntries(s, r);
      hide TablesOk;
      var fd := s.info[r].fd;
      if fd in s.epoll && s.epoll[fd] {
        assert fd in t.epoll && t.epoll[fd] by {
          if a.Delete? {
            OtherFd(s, r, a.r);
          }
        }
      } else {
        var w :| 0 <= w < |s.workers| && Attends(s.workers[w], fd, r);
        ServedByWorker(t, r, w);
      }
    }
  }

  lemma OtherFd(s: State, r: RegId, q: RegId)
    requires TablesOk(s) && q < |s.info| && r < |s.info|
    requires Occupies(s.info[q].phase) && Occupies(s.info[r].phase) && q != r
    ensures s.info[q].fd != s.info[r].fd
  {
    OwnEntries(s, q);
    OwnEntries(s, r);
  }

  /** Looking an event up keeps attending to its registration. */
  lemma ScanKeepsServed(s: State, w: nat, r: RegId)
    requires TablesOk(s) && Enabled(s, Scan(w)) && Live(s, r) && !s.closed
    requires Attends(s.workers[w], s.info[r].fd, r)
    ensures Attends(After(s, Scan(w)).workers[w], s.info[r].fd, r)
  {
    OwnEntries(s, r);
    hide TablesOk;
    var todo := s.workers[w].todo;
    assert todo == [todo[0]] + todo[1..];
  }

  /** A worker keeps attending through every other step but the rearming itself. */
  lemma MoveKeepsAttending(s: State, a: Action, r: RegId)
    requires Enabled(s, a) && WorkerAction(a) && !a.Scan? && Live(After(s, a), r) && r < |s.info|
    requires Attends(s.workers[a.w], s.info[r].fd, r) && !(a.Rearm? && s.workers[a.w].served == r)
    requires a.Lock? ==> s.workers[a.w].reg == r ==> !s.info[r].dead
    ensures a.w < |After(s, a).workers| && Attends(After(s, a).workers[a.w], s.info[r].fd, r)
  {
  }

  /** The worker that attended r either still does or has just rearmed it. */
  lemma OwnStepKeepsServed(s: State, a: Action, r: RegId)
    requires TablesOk(s) && Enabled(s, a) && WorkerAction(a)
    requires Live(s, r) && Live(After(s, a), r) && !s.closed
    requires Attends(s.workers[a.w], s.info[r].fd, r)
    ensures Served(After(s, a), r)
  {
    OwnEntries(s, r);
    WorkerChanges(s, a, r);
    var t, fd := After(s, a), s.info[r].fd;
    if a.Rearm? && s.workers[a.w].served == r {
      assert fd in t.epoll && t.epoll[fd];
    } else {
      hide TablesOk, After, Attends;
      if a.Scan? {
        ScanKeepsServed(s, a.w, r);
      } else {
        MoveKeepsAttending(s, a, r);
      }
      ServedByWorker(t, r, a.w);
    }
  }

  /** A worker's step leaves what other workers attend to, and disarms only what it takes. */
  lemma WorkersKeepServed(s: State, a: Action, r: RegId)
    requires TablesOk(s) && Enabled(s, a) && WorkerAction(a)
    requires Live(s, r) && Live(After(s, a), r) && !s.closed && Served(s, r)
    ensures Served(After(s, a), r)
  {
    hide TablesOk;
    var t, fd := After(s, a), s.info[r].fd;
    if a.Collect? && a.fd == fd {
      assert Readable(fd) in Backlog(t.workers[a.w]);
      ServedByWorker(t, r, a.w);
    } else if fd in s.epoll && s.epoll[fd] {
      assert fd in t.epoll && t.epoll[fd];
    } else {
      var w :| 0 <= w < |s.workers| && Attends(s.workers[w], fd, r);
      if w == a.w {
        OwnStepKeepsServed(s, a, r);
      } else {
        assert t.workers[w] == s.workers[w];
        ServedByWorker(t, r, w);
      }
    }
  }

  lemma KeepsWakeups(s: State, a: Action)
    requires Inv(s) && Enabled(s, a)
    ensures WakeupsOk(After(s, a))
  {
    hide TablesOk, LocksOk, Served, After;
    var t := After(s, a);
    if !t.closed {
      StaysOpen(s, a);
      forall r | 0 <= r < |t.info| && t.info[r].phase == Active && !t.info[r].stopped
        ensures Served(t, r)
      {
        if WorkerAction(a) {
          WorkersChangeNoPhase(s, a, r);
          WorkersKeepServed(s, a, r);
        } else {
          RegistrationsKeepServed(s, a, r);
        }
      }
    }
  }

  lemma StaysOpen(s: State, a: Action)
    requires Enabled(s, a) && !After(s, a).closed
    ensures !s.closed
  {
  }

  lemma WorkersChangeNoPhase(s: State, a: Action, r: RegId)
    requires Enabled(s, a) && WorkerAction(a) && Live(After(s, a), r)
    ensures Live(s, r)
  {
  }

  // ---- stale events ----

  /** What a worker's step may change, seen from one registration. */
  predicate SameButWorker(s: State, t: State, w: nat, r: RegId) {
    && w < |s.workers| == |t.workers| && t.workers == s.workers[w := t.workers[w]]
    && r < |s.info| == |t.info|
    && t.info[r].(owner := None, stopped := false) == s.info[r].(owner := None, stopped := false)
  }

  lemma WorkerChanges(s: State, a: Action, r: RegId)
    requires Enabled(s, a) && WorkerAction(a) && r < |s.info|
    ensures SameButWorker(s, After(s, a), a.w, r)
  {
  }

  /** A step brings in events of watched descriptors only. */
  lemma BacklogGrowth(s: State, a: Action, fd: Fd)
    requires Enabled(s, a) && WorkerAction(a) && a.w < |After(s, a).workers|
    requires Readable(fd) in Backlog(After(s, a).workers[a.w])
    ensures Readable(fd) in Backlog(s.workers[a.w]) || fd in s.epoll
  {
  }

  /** A step leads to a registration only through an event of its descriptor. */
  lemma VisitStarts(s: State, a: Action, r: RegId)
    requires Enabled(s, a) && WorkerAction(a) && a.w < |After(s, a).workers|
    requires Visits(After(s, a).workers[a.w], r) && !Visits(s.workers[a.w], r)
    ensures exists fd :: fd in s.regs && s.regs[fd] == r && Readable(fd) in Backlog(s.workers[a.w])
  {
    assert a.Scan?;
    var fd := s.workers[a.w].todo[0].fd;
    assert s.regs[fd] == r && Readable(fd) in Backlog(s.workers[a.w]);
  }

  lemma WorkerKeepsQuiet(s: State, a: Action, r: RegId)
    requires TablesOk(s) && Enabled(s, a) && WorkerAction(a) && r < |s.info| && QuietOk(s, r)
    ensures r < |After(s, a).info| && QuietOk(After(s, a), r)
  {
    var t, i := After(s, a), s.info[r];
    WorkerChanges(s, a, r);
    hide After, Enabled;
    if Unwatched(i.phase) && !i.stale {
      if i.phase != Failed {
        OwnEntries(s, r);
        if Readable(i.fd) in Backlog(t.workers[a.w]) {
          BacklogGrowth(s, a, i.fd);
        }
      }
      if Visits(t.workers[a.w], r) {
        VisitStarts(s, a, r);
      }
    }
  }

  lemma RegistrationKeepsQuiet(s: State, a: Action, r: RegId)
    requires TablesOk(s) && LocksOk(s) && Enabled(s, a) && !WorkerAction(a)
    requires r < |After(s, a).info| && (r < |s.info| ==> QuietOk(s, r))
    ensures QuietOk(After(s, a), r)
  {
    var t := After(s, a);
    assert t.workers == s.workers;
    if r == |s.info| {
      forall w | 0 <= w < |s.workers|
        ensures !Visits(s.workers[w], r)
      {
        assert WorkerOk(s, w);
      }
    }
  }

  lemma KeepsStale(s: State, a: Action)
    requires Inv(s) && Enabled(s, a)
    ensures StaleOk(After(s, a))
  {
    hide TablesOk, LocksOk, WakeupsOk, QuietOk;
    var t := After(s, a);
    forall r | 0 <= r < |t.info|
      ensures QuietOk(t, r)
    {
      if WorkerAction(a) {
        WorkerKeepsQuiet(s, a, r);
      } else {
        RegistrationKeepsQuiet(s, a, r);
      }
    }
  }

  lemma StepKeepsInv(s: State, a: Action)
    requires Inv(s) && Enabled(s, a)
    ensures Inv(After(s, a))
  {
    hide TablesOk, LocksOk, WakeupsOk, StaleOk, After;
    KeepsTables(s, a);
    KeepsLocks(s, a);
    KeepsWakeups(s, a);
    KeepsStale(s, a);
  }

  // ---- every run ----

  /** Each action of the run is enabled where it happens. */
  predicate CanRun(s: State, actions: seq<Action>)
    decreases |actions|
  {
    actions == [] || (Enabled(s, actions[0]) && CanRun(After(s, actions[0]), actions[1..]))
  }

  function Run(s: State, actions: seq<Action>): State
    requires CanRun(s, actions)
    decreases |actions|
  {
    if actions == [] then s else Run(After(s, actions[0]), actions[1..])
  }

  lemma {:induction false} RunsKeepInv(s: State, actions: seq<Action>)
    requires Inv(s) && CanRun(s, actions)
    ensures Inv(Run(s, actions))
    decreases |actions|
  {
    hide Inv, Enabled, After;
    if actions != [] {
      StepKeepsInv(s, actions[0]);
      RunsKeepInv(After(s, actions[0]), actions[1..]);
    }
  }

  /** Registering failed, and a worker held an older event of the descriptor before it. */
  predicate FailedStale(s: State, r: RegId) {
    At(s, r, Failed) && s.info[r].stale
  }

  /** A handler runs in at most one worker; none runs after its deregister returned, and
      taking the lock can no longer start it; a socket is only closed with its handler
      stopped, unless its registration failed with a stale event around; a live
      registration is armed or attended. */
  ghost predicate Safe(s: State) {
    && (forall v, w | 0 <= v < |s.workers| && 0 <= w < |s.workers| && s.workers[v].Running?
                      && s.workers[w].Running? && s.workers[v].served == s.workers[w].served :: v == w)
    && (forall w | 0 <= w < |s.workers| && s.workers[w].Running? :: !At(s, s.workers[w].served, Done))
    && (forall w: nat | Enabled(s, Lock(w)) && At(s, s.workers[w].reg, Done) ::
          !After(s, Lock(w)).workers[w].Running?)
    && (forall fd: Fd, w | Enabled(s, Close(fd)) && s.sockets[fd].Some? && !FailedStale(s, s.sockets[fd].value)
                           && 0 <= w < |s.workers| && s.workers[w].Running? ::
          s.workers[w].served != s.sockets[fd].value)
    && (!s.closed ==> forall r: RegId | Live(s, r) :: Served(s, r))
  }

  lemma InvIsSafe(s: State)
    requires Inv(s)
    ensures Safe(s)
  {
    forall w | 0 <= w < |s.workers| && s.workers[w].Running?
      ensures s.workers[w].served < |s.info| && s.info[s.workers[w].served].owner == Some(w)
      ensures !At(s, s.workers[w].served, Done)
    {
      assert WorkerOk(s, w);
      assert RegOk(s, s.workers[w].served);
    }
    forall fd: Fd, w | Enabled(s, Close(fd)) && s.sockets[fd].Some? && !FailedStale(s, s.sockets[fd].value)
                       && 0 <= w < |s.workers| && s.workers[w].Running?
      ensures s.workers[w].served != s.sockets[fd].value
    {
      assert QuietOk(s, s.sockets[fd].value);
    }
    forall w: nat | Enabled(s, Lock(w)) && At(s, s.workers[w].reg, Done)
      ensures !After(s, Lock(w)).workers[w].Running?
    {
      assert RegOk(s, s.workers[w].reg);
    }
  }

  lemma RunsAreSafe(s: State, actions: seq<Action>)
    requires Init(s) && CanRun(s, actions)
    ensures Safe(Run(s, actions))
  {
    hide Init, Inv, Safe;
    InitInv(s);
    RunsKeepInv(s, actions);
    InvIsSafe(Run(s, actions));
  }

  // ---- a registration that failed ----

  /** A worker is inside r's pump. */
  predicate HandlerPumps(s: State, r: RegId) {
    exists w | 0 <= w < |s.workers| :: s.workers[w].Running? && s.workers[w].served == r && s.workers[w].stage == Pumping
  }

  /** A worker and the fallback goroutine are in the same socket's pump, and so in its reader. */
  predicate TwoPumps(s: State, r: RegId) {
    r < |s.info| && s.info[r].fallback == Pumps && HandlerPumps(s, r)
  }

  lemma FallbackEnds(s: State, r: RegId)
    requires Enabled(s, EndFallback(r))
    ensures !TwoPumps(After(s, EndFallback(r)), r) && After(s, EndFallback(r)).workers == s.workers
    ensures After(s, EndFallback(r)).closed == s.closed
  {
  }

  /** In every run: the handler of a registration that is not watched, failed ones included,
      is running only if a worker held an older event of the descriptor at its insertion; and
      only then, after a failure, can two pumps be in one reader. */
  lemma FailureNeedsStaleEvent(s0: State, actions: seq<Action>, r: RegId)
    requires Init(s0) && CanRun(s0, actions)
    requires r < |Run(s0, actions).info|
    ensures var s := Run(s0, actions);
            && (Unwatched(s.info[r].phase) && (exists w | 0 <= w < |s.workers| :: Holds(s.workers[w], r)) ==> s.info[r].stale)
            && (TwoPumps(s, r) ==> s.info[r].phase == Failed && s.info[r].stale)
  {
    InitInv(s0);
    RunsKeepInv(s0, actions);
    hide CanRun, Run, TablesOk, LocksOk, WakeupsOk;
    var s := Run(s0, actions);
    assert QuietOk(s, r);
    if w :| 0 <= w < |s.workers| && Holds(s.workers[w], r) {
      assert Visits(s.workers[w], r);
    }
    if HandlerPumps(s, r) {
      var w :| 0 <= w < |s.workers| && s.workers[w].Running? && s.workers[w].served == r && s.workers[w].stage == Pumping;
      assert Visits(s.workers[w], r);
    }
  }

  predicate Reaches(s: State, actions: seq<Action>, t: State) {
    CanRun(s, actions) && Run(s, actions) == t
  }

  lemma {:induction false} ReachesThen(s: State, actions: seq<Action>, t: State, a: Action, u: State)
    requires Reaches(s, actions, t) && Enabled(t, a) && After(t, a) == u
    ensures Reaches(s, actions + [a], u)
    decreases |actions|
  {
    hide Enabled, After;
    var all := actions + [a];
    if actions == [] {
      assert all[0] == a && all[1..] == [];
      assert s == t && CanRun(u, all[1..]) && Run(u, all[1..]) == u;
      assert Enabled(s, a) && After(s, a) == u;
    } else {
      assert all[0] == actions[0] && all[1..] == actions[1..] + [a];
      ReachesThen(After(s, actions[0]), actions[1..], t, a, u);
    }
  }

  lemma {:induction false} ReachesOn(s: State, first: seq<Action>, t: State, more: seq<Action>, u: State)
    requires Reaches(s, first, t) && Reaches(t, more, u)
    ensures Reaches(s, first + more, u)
    decreases |first|
  {
    hide Enabled, After;
    if first == [] {
      assert first + more == more;
    } else {
      assert (first + more)[0] == first[0] && (first + more)[1..] == first[1..] + more;
      ReachesOn(After(s, first[0]), first[1..], t, more, u);
    }
  }

  lemma Then(s: State, before: seq<Action>, t: State, a: Action) returns (actions: seq<Action>, u: State)
    requires Reaches(s, before, t) && Enabled(t, a)
    ensures Reaches(s, actions, u) && u == After(t, a)
  {
    ReachesThen(s, before, t, a, After(t, a));
    actions, u := before + [a], After(t, a);
  }

  lemma StaleEventStartsHandler(s: State, w: nat, fd: Fd) returns (actions: seq<Action>, t: State)
    requires Enabled(s, Insert(fd)) && w < |s.workers| && s.workers[w].Scanning?
    requires s.workers[w].todo != [] && s.workers[w].todo[0] == Readable(fd)
    ensures Reaches(s, actions, t) && |t.info| == |s.info| + 1 && |t.workers| == |s.workers|
    ensures At(t, |s.info|, Inserted) && t.info[|s.info|].fd == fd && t.info[|s.info|].fallback == NotStarted
    ensures fd in t.sockets && t.sockets[fd] == Some(|s.info|)
    ensures t.workers[w] == Running(|s.info|, Pumping, s.workers[w].todo[1..])
  {
    var r := |s.info|;
    actions, t := [], s;
    assert Reaches(s, actions, t);
    actions, t := Then(s, actions, t, Insert(fd));
    assert t.regs[fd] == r && t.workers == s.workers && t.info[r].owner == None && !t.info[r].dead;
    actions, t := Then(s, actions, t, Scan(w));
    assert t.workers[w] == Found(r, s.workers[w].todo[1..]);
    actions, t := Then(s, actions, t, Lock(w));
  }

  /** From every state in which a worker is about to look up an old event of a descriptor that
      is about to be registered: registering may fail while the handler runs, and then the
      fallback goroutine joins it in the pump. */
  lemma StaleEventBreaksIn(s: State, w: nat, fd: Fd) returns (actions: seq<Action>, t: State)
    requires Enabled(s, Insert(fd)) && w < |s.workers| && s.workers[w].Scanning?
    requires s.workers[w].todo != [] && s.workers[w].todo[0] == Readable(fd)
    ensures Reaches(s, actions, t) && |t.info| == |s.info| + 1 && t.info[|s.info|].fd == fd
    ensures At(t, |s.info|, Failed) && TwoPumps(t, |s.info|) && Enabled(t, Close(fd))
  {
    var r := |s.info|;
    actions, t := StaleEventStartsHandler(s, w, fd);
    actions, t := Then(s, actions, t, AddFails(r));
    actions, t := Then(s, actions, t, Withdraw(r));
    actions, t := Then(s, actions, t, StartFallback(r));
    assert t.workers[w] == Running(r, Pumping, s.workers[w].todo[1..]);
  }

  // ---- any stale event will do ----

  /** The same sockets, and every worker but w where it was. */
  ghost predicate OnlyMoved(s: State, t: State, w: nat) {
    && Inv(t) && t.closed == s.closed && t.sockets == s.sockets
    && w < |s.workers| == |t.workers| && t.workers == s.workers[w := t.workers[w]]
  }

  lemma InvThen(s: State, before: seq<Action>, t: State, a: Action) returns (actions: seq<Action>, u: State)
    requires Reaches(s, before, t) && Enabled(t, a) && Inv(t)
    ensures Reaches(s, actions, u) && u == After(t, a) && Inv(u)
  {
    StepKeepsInv(t, a);
    hide Inv;
    actions, u := Then(s, before, t, a);
  }

  lemma Unlocks(s: State, v: nat) returns (actions: seq<Action>, t: State)
    requires Inv(s) && v < |s.workers|
    requires (s.workers[v].Running? && s.workers[v].stage == Finished) || s.workers[v].Skipping?
    ensures Reaches(s, actions, t) && OnlyMoved(s, t, v)
    ensures t.workers[v] == Scanning(Backlog(s.workers[v]))
    ensures Held(s.workers[v]) < |t.info| && t.info[Held(s.workers[v])].owner == None
  {
    assert WorkerOk(s, v);
    assert Reaches(s, [], s);
    hide TablesOk, LocksOk, WakeupsOk, StaleOk;
    actions, t := InvThen(s, [], s, Unlock(v));
  }

  /** A worker inside a lock can finish: pump, rearm, unlock. */
  lemma {:induction false} Finishes(s: State, v: nat) returns (actions: seq<Action>, t: State)
    requires Inv(s) && v < |s.workers| && (s.workers[v].Running? || s.workers[v].Skipping?)
    ensures Reaches(s, actions, t) && OnlyMoved(s, t, v)
    ensures t.workers[v] == Scanning(Backlog(s.workers[v]))
    ensures Held(s.workers[v]) < |t.info| && t.info[Held(s.workers[v])].owner == None
    decreases if s.workers[v].Running? then
                if s.workers[v].stage == Pumping then 2 else if s.workers[v].stage == Rearming then 1 else 0
              else 0
  {
    assert WorkerOk(s, v);
    hide TablesOk, LocksOk, WakeupsOk, StaleOk;
    if s.workers[v].Skipping? || s.workers[v].stage == Stage.Finished {
      actions, t := Unlocks(s, v);
    } else {
      assert Reaches(s, [], s);
      var a := if s.workers[v].stage == Pumping then Pumped(v, true) else Rearm(v);
      var first, u := InvThen(s, [], s, a);
      assert OnlyMoved(s, u, v) && Held(u.workers[v]) == Held(s.workers[v]) && Backlog(u.workers[v]) == Backlog(s.workers[v]);
      var more;
      more, t := Finishes(u, v);
      hide After;
      ReachesOn(s, first, u, more, t);
      actions := first + more;
    }
  }

  predicate GoneStay(s: State, t: State) {
    |t.workers| == |s.workers| && forall w | 0 <= w < |s.workers| && s.workers[w].Gone? :: t.workers[w].Gone?
  }

  /** Whoever holds a registration's lock can be brought to release it. */
  lemma FreesLock(s: State, w: nat) returns (actions: seq<Action>, t: State)
    requires Inv(s) && w < |s.workers| && s.workers[w].Found?
    ensures Reaches(s, actions, t) && Inv(t) && t.closed == s.closed && t.sockets == s.sockets && GoneStay(s, t)
    ensures t.workers[w] == s.workers[w] && Enabled(t, Lock(w))
  {
    var q := s.workers[w].reg;
    assert WorkerOk(s, w);
    if s.info[q].owner == None {
      actions, t := [], s;
      assert Reaches(s, [], s);
    } else {
      var v := s.info[q].owner.value;
      assert OwnerOk(s, q);
      hide Inv;
      actions, t := Finishes(s, v);
    }
  }

  /** An open reactor can always bring a worker to any event it holds. */
  lemma {:induction false} BringsUp(s: State, w: nat, fd: Fd) returns (actions: seq<Action>, t: State)
    requires Inv(s) && !s.closed && w < |s.workers| && Readable(fd) in Backlog(s.workers[w])
    ensures Reaches(s, actions, t) && Inv(t) && !t.closed && t.sockets == s.sockets && |t.workers| == |s.workers|
    ensures t.workers[w].Scanning? && t.workers[w].todo != [] && t.workers[w].todo[0] == Readable(fd)
    decreases |Backlog(s.workers[w])|,
              if s.workers[w].Found? then 3 else if s.workers[w].Scanning? then 0 else 1
  {
    hide Inv, After, Reaches;
    var v := s.workers[w];
    if v.Scanning? && v.todo[0] == Readable(fd) {
      actions, t := [], s;
      Nowhere(s);
    } else {
      var first, u := NextMove(s, w, fd);
      var more;
      more, t := BringsUp(u, w, fd);
      ReachesOn(s, first, u, more, t);
      actions := first + more;
    }
  }

  lemma Nowhere(s: State)
    ensures Reaches(s, [], s)
  {
  }

  /** One move of the worker towards the event: delivery, a lookup, a lock or a whole handler. */
  lemma NextMove(s: State, w: nat, fd: Fd) returns (actions: seq<Action>, t: State)
    requires Inv(s) && !s.closed && w < |s.workers| && Readable(fd) in Backlog(s.workers[w])
    requires !(s.workers[w].Scanning? && s.workers[w].todo[0] == Readable(fd))
    ensures Reaches(s, actions, t) && Inv(t) && !t.closed && t.sockets == s.sockets && |t.workers| == |s.workers|
    ensures Readable(fd) in Backlog(t.workers[w])
    ensures if s.workers[w].Scanning? then |Backlog(t.workers[w])| < |Backlog(s.workers[w])|
            else |Backlog(t.workers[w])| == |Backlog(s.workers[w])|
                 && (if s.workers[w].Found? then !t.workers[w].Found? else t.workers[w].Scanning?)
  {
    var v := s.workers[w];
    hide Inv, Reaches, Enabled, After;
    if v.Running? || v.Skipping? {
      actions, t := Finishes(s, w);
    } else if v.Found? {
      actions, t := TakesLock(s, w);
    } else {
      actions, t := LooksOn(s, w, fd);
    }
  }

  lemma TakesLock(s: State, w: nat) returns (actions: seq<Action>, t: State)
    requires Inv(s) && w < |s.workers| && s.workers[w].Found?
    ensures Reaches(s, actions, t) && Inv(t) && t.closed == s.closed && t.sockets == s.sockets && GoneStay(s, t)
    ensures (t.workers[w].Running? || t.workers[w].Skipping?) && Backlog(t.workers[w]) == Backlog(s.workers[w])
  {
    hide Inv, Reaches;
    var u;
    actions, u := FreesLock(s, w);
    actions, t := InvThen(s, actions, u, Lock(w));
  }

  lemma LooksOn(s: State, w: nat, fd: Fd) returns (actions: seq<Action>, t: State)
    requires Inv(s) && !s.closed && w < |s.workers| && (s.workers[w].Scanning? || s.workers[w].Gathering?)
    requires Readable(fd) in Backlog(s.workers[w])
    requires s.workers[w].Scanning? ==> s.workers[w].todo[0] != Readable(fd)
    ensures Reaches(s, actions, t) && Inv(t) && !t.closed && t.sockets == s.sockets && |t.workers| == |s.workers|
    ensures Readable(fd) in Backlog(t.workers[w])
    ensures if s.workers[w].Scanning? then |Backlog(t.workers[w])| < |Backlog(s.workers[w])|
            else t.workers[w].Scanning? && |Backlog(t.workers[w])| == |Backlog(s.workers[w])|
  {
    hide Inv, Reaches;
    Nowhere(s);
    if s.workers[w].Scanning? {
      var todo := s.workers[w].todo;
      assert todo == [todo[0]] + todo[1..];
      actions, t := InvThen(s, [], s, Scan(w));
    } else {
      actions, t := InvThen(s, [], s, Deliver(w));
    }
  }

  /** So, from every reachable state of an open reactor in which some worker holds an event of
      a descriptor that is about to be registered, two pumps can end up in one reader. */
  lemma AnyStaleEventBreaksIn(s: State, fd: Fd) returns (actions: seq<Action>, t: State, r: RegId)
    requires Inv(s) && !s.closed && Enabled(s, Insert(fd)) && HeldSomewhere(s, fd)
    ensures Reaches(s, actions, t) && At(t, r, Failed) && t.info[r].fd == fd && TwoPumps(t, r)
  {
    var w :| 0 <= w < |s.workers| && Readable(fd) in Backlog(s.workers[w]);
    hide Inv;
    var first, u := BringsUp(s, w, fd);
    var more;
    more, t := StaleEventBreaksIn(u, w, fd);
    ReachesOn(s, first, u, more, t);
    actions, r := first + more, |u.info|;
  }

  // ---- closing ----

  /** A worker that looks at nothing sees the wake-up event and leaves. */
  lemma WakesUp(s: State, w: nat) returns (actions: seq<Action>, t: State)
    requires Inv(s) && s.closed && w < |s.workers| && s.workers[w] == Scanning([])
    ensures Reaches(s, actions, t) && Inv(t) && t.closed && GoneStay(s, t) && t.workers[w].Gone?
  {
    Nowhere(s);
    hide Inv, Reaches;
    actions, t := InvThen(s, [], s, Scan(w));
    actions, t := InvThen(s, actions, t, CollectWake(w));
    actions, t := InvThen(s, actions, t, Deliver(w));
    assert t.workers[w] == Scanning([Wake]);
    actions, t := InvThen(s, actions, t, Scan(w));
  }

  /** One move of a worker of a closed reactor on its way out. */
  lemma OneMoveOut(s: State, w: nat) returns (actions: seq<Action>, t: State)
    requires Inv(s) && s.closed && w < |s.workers| && !s.workers[w].Gone? && s.workers[w] != Scanning([])
    ensures Reaches(s, actions, t) && Inv(t) && t.closed && GoneStay(s, t)
    ensures var v, u := s.workers[w], t.workers[w];
            || u.Gone? || |Backlog(u)| < |Backlog(v)|
            || (|Backlog(u)| == |Backlog(v)|
                && ((v.Found? && (u.Running? || u.Skipping?)) || (!v.Found? && !v.Scanning? && u.Scanning?)))
  {
    var v := s.workers[w];
    hide Inv, Reaches;
    Nowhere(s);
    if v.Running? || v.Skipping? {
      hide After;
      actions, t := Finishes(s, w);
      assert OnlyMoved(s, t, w);
    } else if v.Found? {
      hide After;
      actions, t := TakesLock(s, w);
    } else {
      actions, t := InvThen(s, [], s, if v.Scanning? then Scan(w) else Deliver(w));
    }
  }

  lemma {:induction false} OneExits(s: State, w: nat) returns (actions: seq<Action>, t: State)
    requires Inv(s) && s.closed && w < |s.workers|
    ensures Reaches(s, actions, t) && Inv(t) && t.closed && GoneStay(s, t) && t.workers[w].Gone?
    decreases |Backlog(s.workers[w])|,
              if s.workers[w].Found? then 2 else if s.workers[w].Scanning? then 0 else 1
  {
    hide Inv, After, Reaches, Backlog;
    if s.workers[w].Gone? {
      actions, t := [], s;
      Nowhere(s);
    } else if s.workers[w] == Scanning([]) {
      actions, t := WakesUp(s, w);
    } else {
      actions, t := OneMoveOut(s, w);
      if !t.workers[w].Gone? {
        var more, u := OneExits(t, w);
        ReachesOn(s, actions, t, more, u);
        actions, t := actions + more, u;
      }
    }
  }

  /** From every reachable state of a closed reactor all its workers can exit, so the wait in
      close can end. */
  lemma {:induction false} AllExit(s: State, k: nat) returns (actions: seq<Action>, t: State)
    requires Inv(s) && s.closed && k <= |s.workers|
    ensures Reaches(s, actions, t) && Inv(t) && t.closed && GoneStay(s, t)
    ensures forall w | 0 <= w < k :: t.workers[w].Gone?
  {
    hide Inv, After, Reaches;
    if k == 0 {
      actions, t := [], s;
      Nowhere(s);
    } else {
      var first, u := AllExit(s, k - 1);
      var more;
      more, t := OneExits(u, k - 1);
      ReachesOn(s, first, u, more, t);
      actions := first + more;
    }
  }

  /** So the reactor can be closed from every reachable state. */
  lemma CloseCanReturn(s: State) returns (actions: seq<Action>, t: State)
    requires Inv(s)
    ensures Reaches(s, actions, t) && t.closed && |t.workers| == |s.workers|
    ensures forall w | 0 <= w < |t.workers| :: t.workers[w].Gone?
  {
    Nowhere(s);
    hide Inv, Reaches;
    var first, u := InvThen(s, [], s, CloseReactor);
    var more;
    more, t := AllExit(u, |u.workers|);
    ReachesOn(s, first, u, more, t);
    actions := first + more;
  }

  // ---- what stops a handler and a worker ----

  /** A registration stops being served exactly when its own handler ends without asking to be
      rearmed. */
  lemma StoppedIff(s: State, a: Action, r: RegId)
    requires Enabled(s, a) && r < |s.info|
    ensures r < |After(s, a).info|
    ensures After(s, a).info[r].stopped
       <==> s.info[r].stopped || (a.Pumped? && !a.more && s.workers[a.w].served == r)
  {
    hide NextWorker, NextEpoll, HeldSomewhere;
    if WorkerAction(a) {
      hide AfterRegistration;
    } else {
      hide NextInfo;
    }
  }

  /** A worker leaves exactly when it comes to a wake-up event of a closed reactor. */
  lemma GoneIff(s: State, a: Action, w: nat)
    requires Enabled(s, a) && w < |s.workers|
    ensures |After(s, a).workers| == |s.workers|
    ensures After(s, a).workers[w].Gone?
       <==> s.workers[w].Gone? || (s.closed && a == Scan(w) && s.workers[w].todo != [] && s.workers[w].todo[0] == Wake)
  {
  }

  /** One event per arming: a descriptor is not collected again before a rearm. */
  lemma OneShot(s: State, w: nat, fd: Fd, v: nat)
    requires Enabled(s, Collect(w, fd))
    ensures !Enabled(After(s, Collect(w, fd)), Collect(v, fd))
  {
  }

  /** A handler that asks for more is rearmed, unless its socket has been taken away. */
  lemma Rearms(s: State, w: nat)
    requires Inv(s) && Enabled(s, Pumped(w, true))
    ensures var t := After(s, Pumped(w, true));
            && Enabled(t, Rearm(w))
            && var u, r := After(t, Rearm(w)), s.workers[w].served;
               && Enabled(u, Unlock(w))
               && (s.info[r].phase == Active ==> s.info[r].fd in u.epoll && u.epoll[s.info[r].fd])
  {
    assert RegOk(s, s.workers[w].served);
  }

  const START := State(map[], map[], map[], [], [Gathering([])], false)

  lemma FirstLife() returns (actions: seq<Action>, s: State)
    ensures Reaches(START, actions, s)
    ensures s == State(map[3 := Some(0)], map[], map[], [Reg(3, Done, None, true, false, false, NotStarted)], [Scanning([Readable(3)])], false)
  {
    actions, s := [], START;
    var t := s.(sockets := map[3 := None]);
    ReachesThen(START, actions, s, Open(3), t);
    actions, s := actions + [Open(3)], t;
    t := State(map[3 := Some(0)], map[3 := 0], map[], [Reg(3, Inserted, None, false, false, false, NotStarted)], [Gathering([])], false);
    ReachesThen(START, actions, s, Insert(3), t);
    actions, s := actions + [Insert(3)], t;
    t := State(map[3 := Some(0)], map[3 := 0], map[3 := true], [Reg(3, Active, None, false, false, false, NotStarted)], [Gathering([])], false);
    ReachesThen(START, actions, s, Add(0), t);
    actions, s := actions + [Add(0)], t;
    t := t.(epoll := map[3 := false], workers := [Gathering([Readable(3)])]);
    assert [] + [Readable(3)] == [Readable(3)];
    ReachesThen(START, actions, s, Collect(0, 3), t);
    actions, s := actions + [Collect(0, 3)], t;
    t := t.(workers := [Scanning([Readable(3)])]);
    ReachesThen(START, actions, s, Deliver(0), t);
    actions, s := actions + [Deliver(0)], t;
    actions, s := Deregistered(actions, s);
  }

  lemma Deregistered(before: seq<Action>, s: State) returns (actions: seq<Action>, u: State)
    requires Reaches(START, before, s)
    requires s == State(map[3 := Some(0)], map[3 := 0], map[3 := false], [Reg(3, Active, None, false, false, false, NotStarted)], [Scanning([Readable(3)])], false)
    ensures Reaches(START, actions, u)
    ensures u == State(map[3 := Some(0)], map[], map[], [Reg(3, Done, None, true, false, false, NotStarted)], [Scanning([Readable(3)])], false)
  {
    var t := s.(regs := map[], info := [Reg(3, Unmapped, None, false, false, false, NotStarted)]);
    ReachesThen(START, before, s, Remove(0), t);
    actions, u := before + [Remove(0)], t;
    t := t.(epoll := map[], info := [Reg(3, Deleted, None, false, false, false, NotStarted)]);
    ReachesThen(START, actions, u, Delete(0), t);
    actions, u := actions + [Delete(0)], t;
    t := t.(info := [Reg(3, Done, None, true, false, false, NotStarted)]);
    ReachesThen(START, actions, u, Kill(0), t);
    actions, u := actions + [Kill(0)], t;
  }

  /** A run from the start that ends with two pumps in one reader: socket 3's event outlives
      its first registration, and registering its successor fails. */
  lemma FailedRegistrationMayRun() returns (actions: seq<Action>, s: State)
    ensures Init(START) && Reaches(START, actions, s)
    ensures At(s, 1, Failed) && TwoPumps(s, 1) && Enabled(s, Close(3))
  {
    actions, s := FirstLife();
    actions, s := Then(START, actions, s, Close(3));
    actions, s := Then(START, actions, s, Open(3));
    assert |s.info| == 1;
    var more, t := StaleEventBreaksIn(s, 0, 3);
    ReachesOn(START, actions, s, more, t);
    actions, s := actions + more, t;
  }
}
