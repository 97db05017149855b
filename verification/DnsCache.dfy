/** The bounded, merging DNS cache: its locked sections on the cache's own fields, and
    every interleaving of callers, resolver calls, cancellation and the clock. */
module DnsCache {
  import opened Wrappers

  type Key = string
  type CallId = nat

  datatype Outcome = Resolved(addrs: seq<nat>) | ResolverError | Cancelled

  /** `call` is history: the resolver call the entry came from. */
  datatype Entry = Entry(outcome: Outcome, expiresAt: int, call: CallId)

  datatype Config = Config(ttl: int, negativeTtl: int, maxEntries: int, maxConcurrent: int)

  /** newDNSCache allows at least one lookup at a time. */
  function LookupSlots(c: Config): nat {
    if c.maxConcurrent < 1 then 1 else c.maxConcurrent
  }

  function TtlFor(c: Config, o: Outcome): int {
    if o.Resolved? then c.ttl else c.negativeTtl
  }

  // ---- the locked sections ----

  function Lower(ch: char): char {
    if 'A' <= ch <= 'Z' then (ch as int - 'A' as int + 'a' as int) as char else ch
  }

  function LowerAll(s: string): string {
    if s == "" then "" else [Lower(s[0])] + LowerAll(s[1..])
  }

  /** Lower case (ASCII), without one trailing dot. */
  function Normalize(host: string): Key {
    LowerAll(if host != "" && host[|host| - 1] == '.' then host[..|host| - 1] else host)
  }

  predicate Fresh(entries: map<Key, Entry>, key: Key, now: int) {
    key in entries && now < entries[key].expiresAt
  }

  datatype Slow = Hit(entry: Entry) | Join(call: CallId) | Lead

  /** What Lookup decides under the write lock. */
  function Decide(entries: map<Key, Entry>, inflight: map<Key, CallId>, key: Key, now: int): Slow {
    if Fresh(entries, key, now) then Hit(entries[key])
    else if key in inflight then Join(inflight[key])
    else Lead
  }

  function Live(entries: map<Key, Entry>, now: int): map<Key, Entry> {
    map k | k in entries && now < entries[k].expiresAt :: entries[k]
  }

  /** evictLocked: nothing while there is room, else all expired entries, else also one
      arbitrary entry. */
  ghost predicate Evicted(entries: map<Key, Entry>, maxEntries: int, now: int, kept: map<Key, Entry>) {
    if |entries| < maxEntries then kept == entries
    else if |Live(entries, now)| < maxEntries then kept == Live(entries, now)
    else exists victim :: victim in Live(entries, now) && kept == Live(entries, now) - {victim}
  }

  class Cache {
    const config: Config
    var entries: map<Key, Entry>
    var inflight: map<Key, CallId>

    constructor (config: Config)
      ensures this.config == config && entries == map[] && inflight == map[]
    {
      this.config := config;
      entries, inflight := map[], map[];
    }

    method LookupCached(host: string, now: int) returns (addrs: Option<seq<nat>>)
      ensures addrs == CachedAddrs(entries, Normalize(host), now)
    {
      var key := Normalize(host);
      if key !in entries || !entries[key].outcome.Resolved? || entries[key].outcome.addrs == [] {
        return None;
      }
      if now >= entries[key].expiresAt {
        return None;
      }
      return Some(entries[key].outcome.addrs);
    }

    /** The write-locked part of Lookup before resolving; `call` names a new call. */
    method Enter(key: Key, now: int, call: CallId) returns (d: Slow)
      modifies this
      ensures d == old(Decide(entries, inflight, key, now))
      ensures entries == if d.Hit? then old(entries) else old(entries) - {key}
      ensures inflight == if d.Lead? then old(inflight)[key := call] else old(inflight)
    {
      if key in entries {
        if now < entries[key].expiresAt {
          return Hit(entries[key]);
        }
        entries := entries - {key};
      }
      if key in inflight {
        return Join(inflight[key]);
      }
      inflight := inflight[key := call];
      return Lead;
    }

    method EvictLocked(now: int)
      requires config.maxEntries > 0
      modifies this`entries
      ensures Evicted(old(entries), config.maxEntries, now, entries)
    {
      if |entries| < config.maxEntries {
        return;
      }
      var todo := entries.Keys;
      while todo != {}
        invariant todo <= old(entries).Keys
        invariant entries == map k | k in old(entries) && (k in todo || now < old(entries)[k].expiresAt) :: old(entries)[k]
        decreases |todo|
      {
        var key :| key in todo;
        if now >= entries[key].expiresAt {
          entries := entries - {key};
        }
        todo := todo - {key};
      }
      assert entries == Live(old(entries), now);
      if |entries| < config.maxEntries {
        return;
      }
      var victim :| victim in entries.Keys;
      entries := entries - {victim};
    }

    /** The write-locked part of Lookup after resolving. */
    method Publish(key: Key, outcome: Outcome, cancelled: bool, start: int, now: int, call: CallId)
      modifies this
      ensures inflight == old(inflight) - {key}
      ensures Published(config, old(entries), key, outcome, cancelled, start, now, call, entries)
      ensures !cancelled && config.maxEntries > 0 && outcome.Resolved? && config.ttl > 0 ==>
                key in entries && entries[key] == Entry(outcome, now + config.ttl, call)
      ensures !cancelled && config.maxEntries > 0 && !outcome.Resolved? && config.negativeTtl > 0 ==>
                key in entries && entries[key] == Entry(outcome, now + config.negativeTtl, call)
    {
      hide Evicted;
      inflight := inflight - {key};
      if !cancelled {
        var ttl := if outcome.Resolved? then config.ttl else config.negativeTtl;
        if ttl > 0 && config.maxEntries > 0 {
          EvictLocked(start);
          ghost var kept := entries;
          entries := entries[key := Entry(outcome, now + ttl, call)];
          assert Evicted(old(entries), config.maxEntries, start, kept);
        }
      }
    }
  }

  function CachedAddrs(entries: map<Key, Entry>, key: Key, now: int): Option<seq<nat>> {
    if Fresh(entries, key, now) && entries[key].outcome.Resolved? && entries[key].outcome.addrs != []
    then Some(entries[key].outcome.addrs) else None
  }

  /** Caching a result evicts first; nothing is cached for a cancelled caller, a zero
      lifetime or a cache without room. */
  ghost predicate Published(c: Config, entries: map<Key, Entry>, key: Key, o: Outcome, cancelled: bool,
                            start: int, now: int, call: CallId, entries': map<Key, Entry>)
  {
    if cancelled || TtlFor(c, o) <= 0 || c.maxEntries <= 0 then entries' == entries
    else exists kept :: Evicted(entries, c.maxEntries, start, kept)
                        && entries' == kept[key := Entry(o, now + TtlFor(c, o), call)]
  }

  // ---- properties of one section ----

  /** A LookupCached hit is exactly a Lookup fast-path answer with addresses. */
  lemma CachedHitIsLookup(entries: map<Key, Entry>, inflight: map<Key, CallId>, key: Key, now: int, addrs: seq<nat>)
    ensures CachedAddrs(entries, key, now) == Some(addrs)
       <==> addrs != [] && Decide(entries, inflight, key, now).Hit?
            && Decide(entries, inflight, key, now).entry.outcome == Resolved(addrs)
  {
  }

  /** A live caller's result is served for its configured lifetime, addresses for `ttl` and a
      failure for `negativeTtl`, and no longer. */
  lemma PublishedIsServed(c: Config, before: map<Key, Entry>, key: Key, o: Outcome, start: int, now: int,
                          call: CallId, entries: map<Key, Entry>, inflight: map<Key, CallId>, at: int)
    requires Published(c, before, key, o, false, start, now, call, entries) && c.maxEntries > 0
    ensures o.Resolved? && c.ttl > 0 ==>
              && CachedAddrs(entries, key, at) == (if at < now + c.ttl && o.addrs != [] then Some(o.addrs) else None)
              && (Decide(entries, inflight, key, at).Hit? <==> at < now + c.ttl)
              && (at < now + c.ttl ==> Decide(entries, inflight, key, at).entry.outcome == o)
    ensures o.ResolverError? && c.negativeTtl > 0 ==>
              && CachedAddrs(entries, key, at) == None
              && (Decide(entries, inflight, key, at).Hit? <==> at < now + c.negativeTtl)
              && (at < now + c.negativeTtl ==> Decide(entries, inflight, key, at).entry.outcome == o)
  {
    hide Evicted;
  }

  /** Nothing changes for a caller that was cancelled, a lifetime that is not positive, or a
      cache without room; and other keys are never added or altered. */
  lemma PublishedIsNarrow(c: Config, before: map<Key, Entry>, key: Key, o: Outcome, cancelled: bool, start: int,
                          now: int, call: CallId, entries: map<Key, Entry>)
    requires Published(c, before, key, o, cancelled, start, now, call, entries)
    ensures cancelled || c.maxEntries <= 0 || (o.Resolved? && c.ttl <= 0) || (!o.Resolved? && c.negativeTtl <= 0) ==>
              entries == before
    ensures forall k | k in entries && k != key :: k in before && entries[k] == before[k]
    ensures |before| < c.maxEntries ==> forall k | k in before && k != key :: k in entries
  {
  }

  // ---- names ----

  /** The same letter up to ASCII case. */
  predicate SameLetter(a: char, b: char) {
    || a == b
    || ('A' <= a <= 'Z' && b as int == a as int + 32)
    || ('A' <= b <= 'Z' && a as int == b as int + 32)
  }

  predicate SameIgnoringCase(g: string, h: string) {
    |g| == |h| && forall i | 0 <= i < |g| :: SameLetter(g[i], h[i])
  }

  lemma {:induction false} LowerAllAt(s: string)
    ensures |LowerAll(s)| == |s| && forall i | 0 <= i < |s| :: LowerAll(s)[i] == Lower(s[i])
  {
    if s != "" {
      LowerAllAt(s[1..]);
    }
  }

  lemma LowerSameIff(g: string, h: string)
    ensures LowerAll(g) == LowerAll(h) <==> SameIgnoringCase(g, h)
  {
    LowerAllAt(g);
    LowerAllAt(h);
    hide LowerAll;
    if SameIgnoringCase(g, h) {
      assert LowerAll(g) == LowerAll(h);
    }
    if LowerAll(g) == LowerAll(h) {
      forall i | 0 <= i < |g|
        ensures SameLetter(g[i], h[i])
      {
        assert Lower(g[i]) == LowerAll(g)[i] == LowerAll(h)[i] == Lower(h[i]);
      }
    }
  }

  predicate EndsInDot(h: string) {
    h != "" && h[|h| - 1] == '.'
  }

  /** Names get one key exactly if they agree up to case once a single trailing dot is dropped. */
  lemma SameKeyIff(g: string, h: string)
    requires !EndsInDot(g) && !EndsInDot(h)
    ensures Normalize(g) == Normalize(h) <==> SameIgnoringCase(g, h)
    ensures Normalize(g + ".") == Normalize(g)
    ensures Normalize(g + "..") == Normalize(g) + "."
  {
    LowerSameIff(g, h);
    assert (g + ".")[..|g|] == g && (g + "..")[..|g| + 1] == g + ".";
    LowerAllAt(g);
    LowerAllAt(g + ".");
    assert LowerAll(g + ".") == LowerAll(g) + ".";
  }

  /** A key is its own key, unless the name ended in two dots. */
  lemma KeyIsStableIff(h: string)
    ensures Normalize(Normalize(h)) == Normalize(h) <==> !(|h| >= 2 && h[|h| - 1] == '.' && h[|h| - 2] == '.')
  {
    var k := Normalize(h);
    LowerAllAt(h);
    LowerAllAt(if EndsInDot(h) then h[..|h| - 1] else h);
    LowerAllAt(if EndsInDot(k) then k[..|k| - 1] else k);
    hide LowerAll;
    if !EndsInDot(k) {
      assert LowerAll(k) == k;
    }
  }

  lemma SubmapSmaller(a: map<Key, Entry>, b: map<Key, Entry>)
    requires a.Keys <= b.Keys
    ensures |a| <= |b|
  {
    SubsetSmaller(a.Keys, b.Keys);
  }

  lemma {:induction false} SubsetSmaller(a: set<Key>, b: set<Key>)
    requires a <= b
    ensures |a| <= |b|
  {
    if a != {} {
      var x :| x in a;
      SubsetSmaller(a - {x}, b - {x});
    }
  }

  lemma RemoveOne(m: map<Key, Entry>, k: Key)
    requires k in m
    ensures |m - {k}| == |m| - 1
  {
    assert (m - {k}).Keys == m.Keys - {k};
  }

  /** Eviction makes room, invents nothing, and removes at most one entry that was not yet
      expired at the inserter's start time. */
  lemma EvictionIsBounded(entries: map<Key, Entry>, maxEntries: int, now: int, kept: map<Key, Entry>)
    requires Evicted(entries, maxEntries, now, kept) && maxEntries > 0 && |entries| <= maxEntries
    ensures |kept| < maxEntries
    ensures forall k | k in kept :: k in entries && kept[k] == entries[k]
    ensures |Live(entries, now).Keys - kept.Keys| <= 1
    ensures |entries| < maxEntries ==> kept == entries
    ensures |entries| >= maxEntries ==> forall k | k in kept :: now < entries[k].expiresAt
  {
    var live := Live(entries, now);
    SubmapSmaller(live, entries);
    if |entries| < maxEntries {
      assert live.Keys - kept.Keys == {};
    } else if |live| < maxEntries {
      assert live.Keys - kept.Keys == {};
    } else {
      var victim :| victim in live && kept == live - {victim};
      RemoveOne(live, victim);
      assert live.Keys - kept.Keys == {victim};
    }
  }

  lemma InsertSize(m: map<Key, Entry>, k: Key, e: Entry)
    ensures |m[k := e]| <= |m| + 1
  {
    assert m[k := e].Keys == m.Keys + {k};
  }

  // ---- callers and resolver calls ----

  datatype CallPhase =
    | AwaitingSlot
    | Resolving
    | Finished(outcome: Outcome, since: int)          // resolver returned, result not yet published
    | Announced(result: Outcome, at: int, since: int) // published, waiters released

  /** `leader` and `abandoned` are history: the caller that leads the call, and whether it
      left through its own context, waiting for a slot or inside the resolver. */
  datatype Call = Call(key: Key, leader: nat, abandoned: bool, phase: CallPhase)

  /** An answer, with the call it came from when there was one. */
  datatype Answer = Answer(outcome: Outcome, source: Option<CallId>)

  datatype CallerAt =
    | Checking                     // start time taken, before the read lock
    | Missed                       // between the read and the write lock
    | Leading(own: CallId)
    | Waiting(other: CallId)
    | Answered(answer: Answer)

  datatype Caller = Caller(key: Key, start: int, cancelled: bool, pc: CallerAt)

  datatype State = State(
    config: Config, clock: int, entries: map<Key, Entry>, inflight: map<Key, CallId>,
    slotsInUse: nat, calls: seq<Call>, callers: seq<Caller>)

  datatype Action =
    | ClockAdvances(to: int)
    | Start(host: string)
    | Cancel(c: nat)
    | FastPath(c: nat)
    | SlowPath(c: nat)
    | TakeSlot(c: nat)
    | GiveUpSlot(c: nat)
    | ResolverReturns(c: nat, outcome: Outcome)
    | PublishResult(c: nat, kept: map<Key, Entry>)
    | WaiterReleased(c: nat)
    | WaiterGivesUp(c: nat)

  predicate LeadsAt(s: State, c: nat, phase: CallPhase) {
    && c < |s.callers| && s.callers[c].pc.Leading?
    && s.callers[c].pc.own < |s.calls| && s.calls[s.callers[c].pc.own].phase == phase
  }

  ghost predicate Enabled(s: State, a: Action) {
    match a
    case ClockAdvances(to) => to >= s.clock
    case Start(_) => true
    case Cancel(c) => c < |s.callers|
    case FastPath(c) => c < |s.callers| && s.callers[c].pc.Checking?
    case SlowPath(c) => c < |s.callers| && s.callers[c].pc.Missed?
    case TakeSlot(c) => LeadsAt(s, c, AwaitingSlot) && s.slotsInUse < LookupSlots(s.config)
    case GiveUpSlot(c) => LeadsAt(s, c, AwaitingSlot) && s.callers[c].cancelled
    case ResolverReturns(c, o) =>
      LeadsAt(s, c, Resolving) && (o == Cancelled ==> s.callers[c].cancelled) && s.slotsInUse > 0
    case PublishResult(c, kept) =>
      && c < |s.callers| && s.callers[c].pc.Leading? && s.callers[c].pc.own < |s.calls|
      && s.calls[s.callers[c].pc.own].phase.Finished?
      && (Caches(s, c, s.calls[s.callers[c].pc.own].phase.outcome) ==>
            Evicted(s.entries, s.config.maxEntries, s.callers[c].start, kept))
    case WaiterReleased(c) =>
      && c < |s.callers| && s.callers[c].pc.Waiting? && s.callers[c].pc.other < |s.calls|
      && s.calls[s.callers[c].pc.other].phase.Announced?
    case WaiterGivesUp(c) => c < |s.callers| && s.callers[c].pc.Waiting? && s.callers[c].cancelled
  }

  function SetPc(s: State, c: nat, pc: CallerAt): State
    requires c < |s.callers|
  {
    s.(callers := s.callers[c := s.callers[c].(pc := pc)])
  }

  function SetPhase(s: State, id: CallId, phase: CallPhase): State
    requires id < |s.calls|
  {
    s.(calls := s.calls[id := s.calls[id].(phase := phase)])
  }

  function Finish(s: State, id: CallId, o: Outcome): State
    requires id < |s.calls|
  {
    s.(calls := s.calls[id := s.calls[id].(phase := Finished(o, s.clock), abandoned := o == Cancelled)])
  }

  function FromEntry(e: Entry): CallerAt {
    Answered(Answer(e.outcome, Some(e.call)))
  }

  /** Whether a leader's result goes into the cache. */
  predicate Caches(s: State, c: nat, o: Outcome)
    requires c < |s.callers|
  {
    !s.callers[c].cancelled && TtlFor(s.config, o) > 0 && s.config.maxEntries > 0
  }

  ghost function After(s: State, a: Action): State
    requires Enabled(s, a)
  {
    match a
    case ClockAdvances(to) => s.(clock := to)
    case Start(host) => s.(callers := s.callers + [Caller(Normalize(host), s.clock, false, Checking)])
    case Cancel(c) => s.(callers := s.callers[c := s.callers[c].(cancelled := true)])
    case FastPath(c) =>
      var i := s.callers[c];
      SetPc(s, c, if Fresh(s.entries, i.key, i.start) then FromEntry(s.entries[i.key]) else Missed)
    case SlowPath(c) =>
      var i := s.callers[c];
      (match Decide(s.entries, s.inflight, i.key, i.start)
       case Hit(e) => SetPc(s, c, FromEntry(e))
       case Join(id) => SetPc(s, c, Waiting(id)).(entries := s.entries - {i.key})
       case Lead => SetPc(s, c, Leading(|s.calls|)).(
                      entries := s.entries - {i.key}, inflight := s.inflight[i.key := |s.calls|],
                      calls := s.calls + [Call(i.key, c, false, AwaitingSlot)]))
    case TakeSlot(c) => SetPhase(s, s.callers[c].pc.own, Resolving).(slotsInUse := s.slotsInUse + 1)
    case GiveUpSlot(c) => Finish(s, s.callers[c].pc.own, Cancelled)
    case ResolverReturns(c, o) =>
      Finish(s, s.callers[c].pc.own, o).(slotsInUse := s.slotsInUse - 1)
    case PublishResult(c, kept) =>
      var id := s.callers[c].pc.own;
      var key, o := s.calls[id].key, s.calls[id].phase.outcome;
      var t := SetPc(SetPhase(s, id, Announced(o, s.clock, s.calls[id].phase.since)), c, Answered(Answer(o, Some(id))));
      t.(inflight := s.inflight - {key},
         entries := if Caches(s, c, o) then kept[key := Entry(o, s.clock + TtlFor(s.config, o), id)] else s.entries)
    case WaiterReleased(c) =>
      var id := s.callers[c].pc.other;
      SetPc(s, c, Answered(Answer(s.calls[id].phase.result, Some(id))))
    case WaiterGivesUp(c) => SetPc(s, c, Answered(Answer(Cancelled, None)))
  }

  /** What a publication does to the cache. */
  lemma PublishEffect(s: State, c: nat, kept: map<Key, Entry>)
    requires Enabled(s, PublishResult(c, kept))
    ensures var id, t := s.callers[c].pc.own, After(s, PublishResult(c, kept));
            var key, o := s.calls[id].key, s.calls[id].phase.outcome;
            && t.inflight == s.inflight - {key}
            && t.entries == if Caches(s, c, o) then kept[key := Entry(o, s.clock + TtlFor(s.config, o), id)] else s.entries
  {
    hide Evicted;
  }

  /** The steps are the cache's locked sections. */
  lemma PublishIsSection(s: State, c: nat, kept: map<Key, Entry>)
    requires Enabled(s, PublishResult(c, kept))
    ensures var id, t := s.callers[c].pc.own, After(s, PublishResult(c, kept));
            && t.inflight == s.inflight - {s.calls[id].key}
            && Published(s.config, s.entries, s.calls[id].key, s.calls[id].phase.outcome, s.callers[c].cancelled,
                         s.callers[c].start, s.clock, id, t.entries)
  {
    hide Evicted, After;
    PublishEffect(s, c, kept);
    assert Caches(s, c, s.calls[s.callers[c].pc.own].phase.outcome) ==>
        Evicted(s.entries, s.config.maxEntries, s.callers[c].start, kept);
  }

  lemma SlowPathIsSection(s: State, c: nat)
    requires Enabled(s, SlowPath(c))
    ensures var i, t := s.callers[c], After(s, SlowPath(c));
            var d := Decide(s.entries, s.inflight, i.key, i.start);
            && |t.callers| == |s.callers|
            && t.entries == (if d.Hit? then s.entries else s.entries - {i.key})
            && t.inflight == (if d.Lead? then s.inflight[i.key := |s.calls|] else s.inflight)
            && t.callers[c].pc == match d
                                  case Hit(e) => Answered(Answer(e.outcome, Some(e.call)))
                                  case Join(id) => Waiting(id)
                                  case Lead => Leading(|s.calls|)
  {
    hide Evicted, Decide;
  }

  predicate Init(s: State) {
    s.entries == map[] && s.inflight == map[] && s.slotsInUse == 0 && s.calls == [] && s.callers == []
  }

  // ---- the invariant ----

  function CountResolving(calls: seq<Call>): nat {
    if calls == [] then 0 else (if calls[0].phase.Resolving? then 1 else 0) + CountResolving(calls[1..])
  }

  lemma {:induction false} CountUpdate(calls: seq<Call>, id: CallId, call: Call)
    requires id < |calls|
    ensures CountResolving(calls[id := call]) + (if calls[id].phase.Resolving? then 1 else 0)
         == CountResolving(calls) + (if call.phase.Resolving? then 1 else 0)
  {
    if id == 0 {
      assert calls[id := call][1..] == calls[1..];
    } else {
      assert calls[id := call][1..] == calls[1..][id - 1 := call];
      CountUpdate(calls[1..], id - 1, call);
    }
  }

  lemma {:induction false} CountAppend(calls: seq<Call>, call: Call)
    ensures CountResolving(calls + [call]) == CountResolving(calls) + (if call.phase.Resolving? then 1 else 0)
  {
    if calls == [] {
      assert calls + [call] == [call] && [call][1..] == [];
    } else {
      assert (calls + [call])[0] == calls[0] && (calls + [call])[1..] == calls[1..] + [call];
      CountAppend(calls[1..], call);
    }
  }

  /** Running resolver calls hold the lookup slots, and never exceed them. */
  predicate SlotsOk(s: State) {
    s.slotsInUse == CountResolving(s.calls) <= LookupSlots(s.config)
  }

  predicate CallOk(s: State, id: CallId)
    requires id < |s.calls|
  {
    var call := s.calls[id];
    && (call.phase.Finished? ==> call.phase.since <= s.clock)
    && if call.phase.Announced? then call.phase.since <= call.phase.at <= s.clock
       else call.key in s.inflight && s.inflight[call.key] == id
  }

  /** In flight means: an unpublished call, and no cached entry for the key. */
  predicate FlightsOk(s: State) {
    && (forall id | 0 <= id < |s.calls| :: CallOk(s, id))
    && (forall k | k in s.inflight ::
          s.inflight[k] < |s.calls| && s.calls[s.inflight[k]].key == k && !s.calls[s.inflight[k]].phase.Announced?)
    && s.entries.Keys !! s.inflight.Keys
  }

  /** An entry is a published resolver answer for its key, valid for its lifetime. */
  predicate EntryOk(s: State, k: Key, e: Entry) {
    && e.call < |s.calls| && s.calls[e.call].key == k && e.outcome != Cancelled
    && s.calls[e.call].phase.Announced? && s.calls[e.call].phase.result == e.outcome
    && e.expiresAt == s.calls[e.call].phase.at + TtlFor(s.config, e.outcome) && TtlFor(s.config, e.outcome) > 0
  }

  predicate EntriesOk(s: State) {
    && (forall k | k in s.entries :: EntryOk(s, k, s.entries[k]))
    && |s.entries| <= (if s.config.maxEntries > 0 then s.config.maxEntries else 0)
  }

  /** The answer is that call's result for the caller's key, published after the caller
      started or less than its lifetime before. */
  predicate AnswerOk(s: State, i: Caller, answer: Answer) {
    if answer.source == None then answer.outcome == Cancelled
    else
      var id := answer.source.value;
      && id < |s.calls| && s.calls[id].key == i.key
      && s.calls[id].phase.Announced? && s.calls[id].phase.result == answer.outcome
      && (i.start <= s.calls[id].phase.at
          || (answer.outcome != Cancelled && i.start < s.calls[id].phase.at + TtlFor(s.config, answer.outcome)))
  }

  predicate CallerOk(s: State, c: nat)
    requires c < |s.callers|
  {
    var i := s.callers[c];
    && i.start <= s.clock
    && match i.pc
       case Leading(id) =>
         && id < |s.calls| && s.calls[id].key == i.key && !s.calls[id].phase.Announced?
         && (s.calls[id].phase.Finished? && s.calls[id].phase.outcome == Cancelled ==> i.cancelled)
       case Waiting(id) =>
         && id < |s.calls| && s.calls[id].key == i.key
         && (s.calls[id].phase.Announced? ==> i.start <= s.calls[id].phase.at)
       case Answered(answer) => AnswerOk(s, i, answer)
       case _ => true
  }

  /** Every caller is where its call allows, and each call has one leader. */
  predicate CallersOk(s: State) {
    && (forall c | 0 <= c < |s.callers| :: CallerOk(s, c))
    && (forall c, d | 0 <= c < |s.callers| && 0 <= d < |s.callers| && s.callers[c].pc.Leading?
                      && s.callers[d].pc == s.callers[c].pc :: c == d)
  }

  /** Who leads a call, and that it ends in a cancellation exactly when its leader, whose
      context had ended, abandoned it. */
  predicate LedOk(s: State, id: CallId)
    requires id < |s.calls|
  {
    var call := s.calls[id];
    && call.leader < |s.callers|
    && (!call.phase.Announced? ==> s.callers[call.leader].pc == Leading(id))
    && (call.abandoned ==> s.callers[call.leader].cancelled)
    && match call.phase
       case Finished(o, _) => call.abandoned <==> o == Cancelled
       case Announced(o, _, _) => call.abandoned <==> o == Cancelled
       case _ => !call.abandoned
  }

  predicate GaveUpOk(s: State, c: nat)
    requires c < |s.callers|
  {
    s.callers[c].pc.Answered? && s.callers[c].pc.answer.source == None ==> s.callers[c].cancelled
  }

  predicate CancelsOk(s: State) {
    && (forall id | 0 <= id < |s.calls| :: LedOk(s, id))
    && (forall c | 0 <= c < |s.callers| :: GaveUpOk(s, c))
  }

  predicate Inv(s: State) {
    SlotsOk(s) && FlightsOk(s) && EntriesOk(s) && CallersOk(s) && CancelsOk(s)
  }

  lemma InitInv(s: State)
    requires Init(s)
    ensures Inv(s)
  {
  }

  // ---- one step ----

  lemma KeepsSlots(s: State, a: Action)
    requires SlotsOk(s) && Enabled(s, a)
    ensures SlotsOk(After(s, a))
  {
    hide CountResolving;
    if a.TakeSlot? || a.GiveUpSlot? || a.ResolverReturns? || a.PublishResult? {
      var id := s.callers[a.c].pc.own;
      CountUpdate(s.calls, id, After(s, a).calls[id]);
    } else if a.SlowPath? {
      CountAppend(s.calls, Call(s.callers[a.c].key, a.c, false, AwaitingSlot));
    }
  }

  /** Calls only move forward: an announced call stays as it is, the others keep their key. */
  predicate CallsAdvance(s: State, t: State) {
    && |s.calls| <= |t.calls| && s.config == t.config && s.clock <= t.clock
    && forall id | 0 <= id < |s.calls| ::
         t.calls[id].key == s.calls[id].key && (s.calls[id].phase.Announced? ==> t.calls[id] == s.calls[id])
  }

  lemma StepAdvancesCalls(s: State, a: Action)
    requires Enabled(s, a)
    ensures CallsAdvance(s, After(s, a))
  {
  }

  lemma QuietKeepsFlights(s: State, a: Action)
    requires FlightsOk(s) && Enabled(s, a) && !a.SlowPath? && !a.PublishResult?
    ensures FlightsOk(After(s, a))
  {
    var t := After(s, a);
    forall id | 0 <= id < |t.calls|
      ensures CallOk(t, id)
    {
      assert CallOk(s, id);
    }
  }

  lemma SlowPathKeepsFlights(s: State, c: nat)
    requires FlightsOk(s) && Enabled(s, SlowPath(c))
    ensures FlightsOk(After(s, SlowPath(c)))
  {
    var t := After(s, SlowPath(c));
    forall id | 0 <= id < |t.calls|
      ensures CallOk(t, id)
    {
      assert id < |s.calls| ==> CallOk(s, id);
    }
  }

  lemma PublishKeepsFlights(s: State, c: nat, kept: map<Key, Entry>)
    requires FlightsOk(s) && Enabled(s, PublishResult(c, kept))
    ensures FlightsOk(After(s, PublishResult(c, kept)))
  {
    var t, own := After(s, PublishResult(c, kept)), s.callers[c].pc.own;
    assert CallOk(s, own);
    assert Caches(s, c, s.calls[own].phase.outcome) ==> kept.Keys <= s.entries.Keys;
    forall id | 0 <= id < |t.calls|
      ensures CallOk(t, id)
    {
      assert CallOk(s, id);
    }
  }

  lemma KeepsFlights(s: State, a: Action)
    requires FlightsOk(s) && Enabled(s, a)
    ensures FlightsOk(After(s, a))
  {
    hide FlightsOk, Enabled, After;
    if a.SlowPath? {
      SlowPathKeepsFlights(s, a.c);
    } else if a.PublishResult? {
      PublishKeepsFlights(s, a.c, a.kept);
    } else {
      QuietKeepsFlights(s, a);
    }
  }

  /** Entries stay backed by their calls as calls advance. */
  lemma AdvanceKeepsEntry(s: State, t: State, k: Key, e: Entry)
    requires EntryOk(s, k, e) && CallsAdvance(s, t)
    ensures EntryOk(t, k, e)
  {
  }

  /** t keeps some of the entries of s. */
  predicate KeepsSome(s: State, t: State) {
    forall k | k in t.entries :: k in s.entries && t.entries[k] == s.entries[k]
  }

  lemma KeptEntriesOk(s: State, t: State)
    requires EntriesOk(s) && CallsAdvance(s, t) && KeepsSome(s, t)
    ensures EntriesOk(t)
  {
    assert t.entries.Keys <= s.entries.Keys;
    SubmapSmaller(t.entries, s.entries);
    hide EntryOk;
    forall k | k in t.entries
      ensures EntryOk(t, k, t.entries[k])
    {
      AdvanceKeepsEntry(s, t, k, s.entries[k]);
    }
  }

  lemma AddedEntryOk(s: State, t: State, now: int, kept: map<Key, Entry>, k: Key, e: Entry)
    requires EntriesOk(s) && CallsAdvance(s, t) && s.config.maxEntries > 0
    requires Evicted(s.entries, s.config.maxEntries, now, kept) && t.entries == kept[k := e] && EntryOk(t, k, e)
    ensures EntriesOk(t)
  {
    EvictionIsBounded(s.entries, s.config.maxEntries, now, kept);
    InsertSize(kept, k, e);
    hide EntryOk, Evicted;
    forall q | q in t.entries
      ensures EntryOk(t, q, t.entries[q])
    {
      if q != k {
        AdvanceKeepsEntry(s, t, q, s.entries[q]);
      }
    }
  }

  lemma QuietKeepsSome(s: State, a: Action)
    requires Enabled(s, a) && !Adds(s, a)
    ensures KeepsSome(s, After(s, a))
  {
  }

  lemma NewEntryOk(s: State, c: nat, kept: map<Key, Entry>)
    requires Enabled(s, PublishResult(c, kept)) && CallerOk(s, c)
    requires Caches(s, c, s.calls[s.callers[c].pc.own].phase.outcome)
    ensures var own := s.callers[c].pc.own;
            var e := Entry(s.calls[own].phase.outcome, s.clock + TtlFor(s.config, s.calls[own].phase.outcome), own);
            && After(s, PublishResult(c, kept)).entries == kept[s.calls[own].key := e]
            && EntryOk(After(s, PublishResult(c, kept)), s.calls[own].key, e)
  {
  }

  lemma CachingKeepsEntries(s: State, c: nat, kept: map<Key, Entry>)
    requires EntriesOk(s) && CallersOk(s) && Enabled(s, PublishResult(c, kept))
    requires Caches(s, c, s.calls[s.callers[c].pc.own].phase.outcome)
    ensures EntriesOk(After(s, PublishResult(c, kept)))
  {
    hide After, EntriesOk, CallerOk, CallsAdvance, Evicted, EntryOk;
    var own := s.callers[c].pc.own;
    var o := s.calls[own].phase.outcome;
    assert CallerOk(s, c);
    StepAdvancesCalls(s, PublishResult(c, kept));
    NewEntryOk(s, c, kept);
    AddedEntryOk(s, After(s, PublishResult(c, kept)), s.callers[c].start, kept, s.calls[own].key,
                 Entry(o, s.clock + TtlFor(s.config, o), own));
  }

  predicate Adds(s: State, a: Action) {
    && a.PublishResult? && a.c < |s.callers| && s.callers[a.c].pc.Leading? && s.callers[a.c].pc.own < |s.calls|
    && s.calls[s.callers[a.c].pc.own].phase.Finished?
    && Caches(s, a.c, s.calls[s.callers[a.c].pc.own].phase.outcome)
  }

  lemma KeepsEntries(s: State, a: Action)
    requires EntriesOk(s) && CallersOk(s) && Enabled(s, a)
    ensures EntriesOk(After(s, a))
  {
    if Adds(s, a) {
      CachingKeepsEntries(s, a.c, a.kept);
    } else {
      StepAdvancesCalls(s, a);
      QuietKeepsSome(s, a);
      hide After, Enabled, EntriesOk, CallsAdvance, KeepsSome;
      KeptEntriesOk(s, After(s, a));
    }
  }

  // ---- callers ----

  /** A step of someone else: the caller and the call it leads are untouched, and a call
      it waits for may be announced now. */
  predicate Undisturbed(s: State, t: State, c: nat)
    requires c < |s.callers|
  {
    && c < |t.callers| && t.callers[c].(cancelled := false) == s.callers[c].(cancelled := false)
    && (s.callers[c].cancelled ==> t.callers[c].cancelled)
    && (s.callers[c].pc.Leading? && s.callers[c].pc.own < |s.calls| ==>
          s.callers[c].pc.own < |t.calls| && t.calls[s.callers[c].pc.own] == s.calls[s.callers[c].pc.own])
    && (forall id | 0 <= id < |s.calls| && id < |t.calls| && t.calls[id].phase.Announced? ::
          s.calls[id].phase.Announced? || t.calls[id].phase.at == t.clock)
  }

  lemma UndisturbedCallerOk(s: State, t: State, c: nat)
    requires c < |s.callers| && CallerOk(s, c) && CallsAdvance(s, t) && Undisturbed(s, t, c)
    ensures CallerOk(t, c)
  {
  }

  /** The caller whose step it is, if any. */
  predicate Acts(a: Action, c: nat) {
    !a.ClockAdvances? && !a.Start? && !a.Cancel? && a.c == c
  }

  /** The actions that move a leader's call to its next phase. */
  predicate MovesCall(a: Action) {
    a.TakeSlot? || a.GiveUpSlot? || a.ResolverReturns? || a.PublishResult?
  }

  lemma LeadersUndisturbed(s: State, a: Action, c: nat)
    requires CallersOk(s) && Enabled(s, a) && c < |s.callers| && !Acts(a, c) && MovesCall(a)
    ensures Undisturbed(s, After(s, a), c)
  {
    hide CallerOk, Evicted;
    var own := s.callers[a.c].pc.own;
    assert s.callers[c].pc.Leading? ==> s.callers[c].pc.own != own;
  }

  lemma OthersUndisturbed(s: State, a: Action, c: nat)
    requires CallersOk(s) && Enabled(s, a) && c < |s.callers| && !Acts(a, c)
    ensures Undisturbed(s, After(s, a), c)
  {
    if MovesCall(a) {
      LeadersUndisturbed(s, a, c);
    } else {
      assert CallerOk(s, c);
    }
  }

  lemma EntryAnswers(s: State, i: Caller)
    requires EntriesOk(s) && Fresh(s.entries, i.key, i.start)
    ensures FromEntry(s.entries[i.key]).Answered? && AnswerOk(s, i, FromEntry(s.entries[i.key]).answer)
  {
    assert EntryOk(s, i.key, s.entries[i.key]);
  }

  lemma HitOk(s: State, a: Action, c: nat)
    requires EntriesOk(s) && c < |s.callers| && CallerOk(s, c) && Enabled(s, a)
    requires a == FastPath(c) || a == SlowPath(c)
    requires Fresh(s.entries, s.callers[c].key, s.callers[c].start)
    ensures c < |After(s, a).callers| && CallerOk(After(s, a), c)
  {
    EntryAnswers(s, s.callers[c]);
    hide EntriesOk, Evicted, Normalize;
  }

  lemma MissOk(s: State, a: Action, c: nat)
    requires c < |s.callers| && CallerOk(s, c) && Enabled(s, a) && (a == FastPath(c) || a == SlowPath(c))
    requires !Fresh(s.entries, s.callers[c].key, s.callers[c].start)
    requires var key := s.callers[c].key;
             key in s.inflight ==>
               && s.inflight[key] < |s.calls| && s.calls[s.inflight[key]].key == key
               && !s.calls[s.inflight[key]].phase.Announced?
    ensures c < |After(s, a).callers| && CallerOk(After(s, a), c)
  {
    hide Fresh, Evicted, Normalize, TtlFor;
  }

  lemma MoverOk(s: State, a: Action, c: nat)
    requires c < |s.callers| && CallerOk(s, c) && Enabled(s, a) && Acts(a, c) && !a.FastPath? && !a.SlowPath?
    ensures c < |After(s, a).callers| && CallerOk(After(s, a), c)
  {
    hide Evicted, Normalize;
  }

  lemma ActorOk(s: State, a: Action, c: nat)
    requires Inv(s) && Enabled(s, a) && Acts(a, c)
    ensures c < |After(s, a).callers| && CallerOk(After(s, a), c)
  {
    assert CallerOk(s, c);
    hide SlotsOk, EntriesOk, CancelsOk, CallOk, CallerOk, After, Fresh;
    if !a.FastPath? && !a.SlowPath? {
      MoverOk(s, a, c);
    } else if Fresh(s.entries, s.callers[c].key, s.callers[c].start) {
      HitOk(s, a, c);
    } else {
      MissOk(s, a, c);
    }
  }

  lemma OneLeaderKept(s: State, a: Action)
    requires CallersOk(s) && Enabled(s, a)
    ensures forall c, d | 0 <= c < |After(s, a).callers| && 0 <= d < |After(s, a).callers|
                          && After(s, a).callers[c].pc.Leading?
                          && After(s, a).callers[d].pc == After(s, a).callers[c].pc :: c == d
  {
    var t := After(s, a);
    hide Evicted, Normalize, Fresh, TtlFor, AnswerOk;
    forall c, d | 0 <= c < |t.callers| && 0 <= d < |t.callers| && t.callers[c].pc.Leading?
                  && t.callers[d].pc == t.callers[c].pc
      ensures c == d
    {
      assert c < |s.callers| ==> CallerOk(s, c);
      assert d < |s.callers| ==> CallerOk(s, d);
    }
  }

  lemma KeepsCallers(s: State, a: Action)
    requires Inv(s) && Enabled(s, a)
    ensures CallersOk(After(s, a))
  {
    var t := After(s, a);
    OneLeaderKept(s, a);
    StepAdvancesCalls(s, a);
    NoCallerLost(s, a);
    hide After, Enabled, CallerOk, CallsAdvance, Undisturbed, SlotsOk, FlightsOk, EntriesOk;
    forall c | 0 <= c < |t.callers|
      ensures CallerOk(t, c)
    {
      if Acts(a, c) {
        ActorOk(s, a, c);
      } else if c < |s.callers| {
        OthersUndisturbed(s, a, c);
        UndisturbedCallerOk(s, t, c);
      }
    }
  }

  /** Callers only join, and a new one is at its start. */
  lemma NoCallerLost(s: State, a: Action)
    requires Enabled(s, a)
    ensures |After(s, a).callers| >= |s.callers|
    ensures forall c | |s.callers| <= c < |After(s, a).callers| :: CallerOk(After(s, a), c)
  {
  }

  // ---- cancellations ----

  lemma MovedCallIsLed(s: State, a: Action, id: CallId)
    requires CallersOk(s) && Enabled(s, a) && MovesCall(a) && id < |s.calls| && LedOk(s, id)
    ensures LedOk(After(s, a), id)
  {
    hide Evicted, Decide, Normalize, TtlFor, Fresh, CallerOk;
  }

  lemma OtherStepIsLed(s: State, a: Action, id: CallId)
    requires Enabled(s, a) && !MovesCall(a) && id < |s.calls| && LedOk(s, id)
    ensures LedOk(After(s, a), id)
  {
    hide Evicted, Normalize, TtlFor, Fresh;
  }

  lemma LeaderKept(s: State, a: Action, id: CallId)
    requires CallersOk(s) && CancelsOk(s) && Enabled(s, a) && id < |s.calls|
    ensures LedOk(After(s, a), id)
  {
    assert LedOk(s, id);
    hide LedOk, Enabled, After, CallersOk;
    if MovesCall(a) {
      MovedCallIsLed(s, a, id);
    } else {
      OtherStepIsLed(s, a, id);
    }
  }

  lemma KeepsCancels(s: State, a: Action)
    requires CallersOk(s) && CancelsOk(s) && Enabled(s, a)
    ensures CancelsOk(After(s, a))
  {
    var t := After(s, a);
    forall id | 0 <= id < |t.calls|
      ensures LedOk(t, id)
    {
      if id < |s.calls| {
        LeaderKept(s, a, id);
      }
    }
    forall c | 0 <= c < |t.callers|
      ensures GaveUpOk(t, c)
    {
      assert c < |s.callers| ==> GaveUpOk(s, c);
    }
  }

  lemma StepKeepsInv(s: State, a: Action)
    requires Inv(s) && Enabled(s, a)
    ensures Inv(After(s, a))
  {
    KeepsCallers(s, a);
    KeepsSlots(s, a);
    KeepsFlights(s, a);
    KeepsEntries(s, a);
    KeepsCancels(s, a);
  }

  // ---- every run ----

  ghost predicate CanRun(s: State, actions: seq<Action>)
    decreases |actions|
  {
    actions == [] || (Enabled(s, actions[0]) && CanRun(After(s, actions[0]), actions[1..]))
  }

  ghost function Run(s: State, actions: seq<Action>): State
    requires CanRun(s, actions)
    decreases |actions|
  {
    if actions == [] then s else Run(After(s, actions[0]), actions[1..])
  }

  lemma {:induction false} RunsKeepInv(s: State, actions: seq<Action>)
    requires Inv(s) && CanRun(s, actions)
    ensures Inv(Run(s, actions))
    decreases |actions|
  {
    hide Inv, Enabled, After;
    if actions != [] {
      StepKeepsInv(s, actions[0]);
      RunsKeepInv(After(s, actions[0]), actions[1..]);
    }
  }

  /** In every reachable state: cached and in-flight keys are disjoint, one call per key
      is unpublished at most, running calls fit the slots, entries fit the bound. */
  lemma CacheBounds(s0: State, actions: seq<Action>)
    requires Init(s0) && CanRun(s0, actions)
    ensures var s := Run(s0, actions);
            && s.entries.Keys !! s.inflight.Keys
            && (forall i, j | 0 <= i < |s.calls| && 0 <= j < |s.calls| && s.calls[i].key == s.calls[j].key
                              && !s.calls[i].phase.Announced? && !s.calls[j].phase.Announced? :: i == j)
            && (CountResolving(s.calls) <= 1 || CountResolving(s.calls) <= s.config.maxConcurrent)
            && |s.entries| <= (if s.config.maxEntries > 0 then s.config.maxEntries else 0)
  {
    InitInv(s0);
    RunsKeepInv(s0, actions);
    var s := Run(s0, actions);
    forall i, j | 0 <= i < |s.calls| && 0 <= j < |s.calls| && s.calls[i].key == s.calls[j].key
                  && !s.calls[i].phase.Announced? && !s.calls[j].phase.Announced?
      ensures i == j
    {
      assert CallOk(s, i) && CallOk(s, j);
    }
  }

  /** Every answer that is not a cancellation is the published result of a resolver call
      for the same normalized name, published after the caller started or less than the
      applicable lifetime before it started: `ttl` for addresses, `negativeTtl` for a failure. */
  lemma AnswersAreTimely(s0: State, actions: seq<Action>, c: nat)
    requires Init(s0) && CanRun(s0, actions)
    requires c < |Run(s0, actions).callers| && Run(s0, actions).callers[c].pc.Answered?
    ensures var s := Run(s0, actions);
            AnswerOk(s, s.callers[c], s.callers[c].pc.answer)
    ensures var s := Run(s0, actions);
            var i, answer := s.callers[c], s.callers[c].pc.answer;
            answer.outcome != Cancelled ==>
              && answer.source.Some? && answer.source.value < |s.calls|
              && var call := s.calls[answer.source.value];
                 && call.key == i.key && call.phase.Announced? && call.phase.result == answer.outcome
                 && (answer.outcome.Resolved? ==> i.start <= call.phase.at || i.start < call.phase.at + s.config.ttl)
                 && (answer.outcome.ResolverError? ==>
                       i.start <= call.phase.at || i.start < call.phase.at + s.config.negativeTtl)
  {
    InitInv(s0);
    RunsKeepInv(s0, actions);
    assert CallerOk(Run(s0, actions), c);
    hide Run, CanRun;
  }

  /** A caller that starts after a publication for its name is answered from it until the
      lifetime is over, and from then on goes to the slow path. */
  lemma NextCallerIsAnswered(s: State, c: nat, kept: map<Key, Entry>, to: int, host: string)
    requires Enabled(s, PublishResult(c, kept)) && !s.callers[c].cancelled && s.config.maxEntries > 0
    requires to >= s.clock && Normalize(host) == s.calls[s.callers[c].pc.own].key
    ensures var id := s.callers[c].pc.own;
            var o := s.calls[id].phase.outcome;
            var t := After(After(After(s, PublishResult(c, kept)), ClockAdvances(to)), Start(host));
            && Enabled(t, FastPath(|s.callers|))
            && var next := After(t, FastPath(|s.callers|)).callers;
               && |next| == |s.callers| + 1
               && (o.Resolved? && s.config.ttl > 0 ==>
                     next[|s.callers|].pc
                     == if to < s.clock + s.config.ttl then Answered(Answer(o, Some(id))) else Missed)
               && (o.ResolverError? && s.config.negativeTtl > 0 ==>
                     next[|s.callers|].pc
                     == if to < s.clock + s.config.negativeTtl then Answered(Answer(o, Some(id))) else Missed)
  {
    hide Normalize, Evicted;
  }

  /** A finished call can always be published, whatever the configured size. */
  lemma CanPublish(s: State, c: nat) returns (kept: map<Key, Entry>)
    requires Inv(s) && c < |s.callers| && s.callers[c].pc.Leading?
    requires s.callers[c].pc.own < |s.calls| && s.calls[s.callers[c].pc.own].phase.Finished?
    ensures Enabled(s, PublishResult(c, kept))
  {
    var live := Live(s.entries, s.callers[c].start);
    if |s.entries| < s.config.maxEntries {
      kept := s.entries;
    } else if |live| < s.config.maxEntries || live == map[] {
      kept := live;
    } else {
      var victim :| victim in live;
      kept := live - {victim};
    }
  }

  // ---- cancelled answers ----

  /** The caller gave up itself, or the call it led or joined was abandoned by its leader. */
  predicate CutShort(s: State, answer: Answer) {
    match answer.source
    case None => true
    case Some(id) => id < |s.calls| && s.calls[id].abandoned
  }

  /** In every run an answer is a cancellation exactly when the caller gave up or the call's
      leader abandoned it, and only someone whose own context has ended does either. So a
      live leader is never answered with a cancellation, and a live caller that is joined a
      call whose leader's context ended. */
  lemma CancelledAnswerIff(s0: State, actions: seq<Action>, c: nat)
    requires Init(s0) && CanRun(s0, actions)
    requires c < |Run(s0, actions).callers| && Run(s0, actions).callers[c].pc.Answered?
    ensures var s := Run(s0, actions);
            var answer := s.callers[c].pc.answer;
            && (answer.outcome == Cancelled <==> CutShort(s, answer))
            && (answer.source == None ==> s.callers[c].cancelled)
            && (answer.source.Some? ==>
                  && answer.source.value < |s.calls| && s.calls[answer.source.value].leader < |s.callers|
                  && (s.calls[answer.source.value].abandoned ==> s.callers[s.calls[answer.source.value].leader].cancelled))
            && (answer.outcome == Cancelled && !s.callers[c].cancelled ==>
                  answer.source.Some? && s.calls[answer.source.value].leader != c)
  {
    AnswersAreTimely(s0, actions, c);
    InitInv(s0);
    RunsKeepInv(s0, actions);
    var s := Run(s0, actions);
    assert GaveUpOk(s, c);
    hide CanRun, Run;
    if s.callers[c].pc.answer.source.Some? {
      assert LedOk(s, s.callers[c].pc.answer.source.value);
    }
  }

  ghost predicate Reaches(s: State, actions: seq<Action>, t: State) {
    CanRun(s, actions) && Run(s, actions) == t
  }

  lemma {:induction false} ReachesThen(s: State, actions: seq<Action>, t: State, a: Action)
    requires Reaches(s, actions, t) && Enabled(t, a)
    ensures Reaches(s, actions + [a], After(t, a))
    decreases |actions|
  {
    hide Enabled, After;
    var all, u := actions + [a], After(t, a);
    if actions == [] {
      assert all[0] == a && all[1..] == [];
      assert s == t && CanRun(u, all[1..]) && Run(u, all[1..]) == u;
      assert Enabled(s, a) && After(s, a) == u;
    } else {
      assert all[0] == actions[0] && all[1..] == actions[1..] + [a];
      ReachesThen(After(s, actions[0]), actions[1..], t, a);
    }
  }

  /** The leader leaves through its context, from the slot queue or from the resolver. */
  lemma LeaderAbandons(s: State, id: CallId) returns (a: Action)
    requires Inv(s) && id < |s.calls| && (s.calls[id].phase.AwaitingSlot? || s.calls[id].phase.Resolving?)
    requires s.calls[id].leader < |s.callers| && s.callers[s.calls[id].leader].cancelled
    ensures Enabled(s, a) && After(s, a).callers == s.callers && |After(s, a).calls| == |s.calls|
    ensures After(s, a).calls[id] == s.calls[id].(phase := Finished(Cancelled, s.clock), abandoned := true)
  {
    var l := s.calls[id].leader;
    assert LedOk(s, id);
    if s.calls[id].phase.AwaitingSlot? {
      a := GiveUpSlot(l);
    } else {
      CountAtLeast(s.calls, id);
      a := ResolverReturns(l, Cancelled);
    }
  }

  lemma {:induction false} CountAtLeast(calls: seq<Call>, id: CallId)
    requires id < |calls| && calls[id].phase.Resolving?
    ensures CountResolving(calls) > 0
  {
    if id > 0 {
      CountAtLeast(calls[1..], id - 1);
    }
  }

  /** The converse, from every reachable state: while a call is unfinished and its leader's
      context has ended, any live waiter may be answered with that cancellation. */
  lemma LiveWaiterMayBeCancelled(s: State, c: nat) returns (actions: seq<Action>, t: State)
    requires Inv(s) && c < |s.callers| && s.callers[c].pc.Waiting? && s.callers[c].pc.other < |s.calls|
    requires var call := s.calls[s.callers[c].pc.other];
             && (call.phase.AwaitingSlot? || call.phase.Resolving?)
             && call.leader < |s.callers| && s.callers[call.leader].cancelled
    ensures Reaches(s, actions, t) && c < |t.callers|
    ensures t.callers[c] == s.callers[c].(pc := Answered(Answer(Cancelled, Some(s.callers[c].pc.other))))
  {
    var id := s.callers[c].pc.other;
    var l := s.calls[id].leader;
    assert LedOk(s, id);
    var a := LeaderAbandons(s, id);
    var u := After(s, a);
    assert Reaches(s, [], s);
    ReachesThen(s, [], s, a);
    assert [] + [a] == [a];
    assert Enabled(u, PublishResult(l, map[]));
    var v := After(u, PublishResult(l, map[]));
    ReachesThen(s, [a], u, PublishResult(l, map[]));
    assert v.callers[c] == s.callers[c] && v.calls[id].phase.Announced? && v.calls[id].phase.result == Cancelled;
    assert Enabled(v, WaiterReleased(c));
    t := After(v, WaiterReleased(c));
    ReachesThen(s, [a] + [PublishResult(l, map[])], v, WaiterReleased(c));
    actions := [a] + [PublishResult(l, map[])] + [WaiterReleased(c)];
  }

  // ---- measured from the resolver's return ----

  /** The resolver returned after the caller started, or less than the lifetime before. */
  predicate TimelyFromReturn(since: int, ttl: int, start: int) {
    start <= since || start < since + ttl
  }

  /** An answer published in the instant its resolver returned meets the stricter promise. */
  lemma PromptAnswersAreTimely(s0: State, actions: seq<Action>, c: nat)
    requires Init(s0) && CanRun(s0, actions)
    requires var s := Run(s0, actions);
             && c < |s.callers| && s.callers[c].pc.Answered? && s.callers[c].pc.answer.outcome != Cancelled
    ensures var s := Run(s0, actions);
            var answer := s.callers[c].pc.answer;
            && answer.source.Some? && answer.source.value < |s.calls|
            && var phase := s.calls[answer.source.value].phase;
               && phase.Announced?
               && (phase.at == phase.since ==>
                     TimelyFromReturn(phase.since, TtlFor(s.config, answer.outcome), s.callers[c].start))
  {
    AnswersAreTimely(s0, actions, c);
    hide CanRun, Run;
  }

  /** Every hit on an entry meets it exactly when the entry was published in that instant. */
  lemma EntryTimelyIffPrompt(s: State, k: Key)
    requires Inv(s) && k in s.entries
    ensures var e := s.entries[k];
            && e.call < |s.calls| && s.calls[e.call].phase.Announced?
            && var phase := s.calls[e.call].phase;
               (forall start | start < e.expiresAt :: TimelyFromReturn(phase.since, TtlFor(s.config, e.outcome), start))
               <==> phase.at == phase.since
  {
    var e := s.entries[k];
    assert EntryOk(s, k, e);
    var phase := s.calls[e.call].phase;
    assert CallOk(s, e.call);
    if phase.at > phase.since {
      assert !TimelyFromReturn(phase.since, TtlFor(s.config, e.outcome), e.expiresAt - 1);
    }
  }

  const START := State(Config(5, 5, 1, 1), 0, map[], map[], 0, [], [])

  /** The first caller's resolver has returned at time 0, and the lock comes at time 10. */
  lemma SlowLeader(k: Key) returns (actions: seq<Action>, s: State)
    requires k == Normalize("a")
    ensures Reaches(START, actions, s)
    ensures s == State(START.config, 10, map[], map[k := 0], 0, [Call(k, 0, false, Finished(Resolved([1]), 0))],
                       [Caller(k, 0, false, Leading(0))])
  {
    hide Normalize;
    actions, s := [], START;
    ReachesThen(START, actions, s, Start("a"));
    actions, s := actions + [Start("a")], After(s, Start("a"));
    assert s.callers == [Caller(k, 0, false, Checking)];
    ReachesThen(START, actions, s, FastPath(0));
    actions, s := actions + [FastPath(0)], After(s, FastPath(0));
    assert s.callers == [Caller(k, 0, false, Missed)];
    ReachesThen(START, actions, s, SlowPath(0));
    actions, s := actions + [SlowPath(0)], After(s, SlowPath(0));
    assert s == State(START.config, 0, map[], map[k := 0], 0, [Call(k, 0, false, AwaitingSlot)], [Caller(k, 0, false, Leading(0))]);
    ReachesThen(START, actions, s, TakeSlot(0));
    actions, s := actions + [TakeSlot(0)], After(s, TakeSlot(0));
    assert s.calls == [Call(k, 0, false, Resolving)];
    ReachesThen(START, actions, s, ResolverReturns(0, Resolved([1])));
    actions, s := actions + [ResolverReturns(0, Resolved([1]))], After(s, ResolverReturns(0, Resolved([1])));
    assert s.calls == [Call(k, 0, false, Finished(Resolved([1]), 0))];
    ReachesThen(START, actions, s, ClockAdvances(10));
    actions, s := actions + [ClockAdvances(10)], After(s, ClockAdvances(10));
  }

  /** With a lifetime of 5, a caller that starts at time 12 is answered with what the
      resolver returned at time 0. */
  lemma LateAnswer() returns (actions: seq<Action>, s: State)
    ensures Init(START) && Reaches(START, actions, s)
    ensures |s.callers| == 2 && s.callers[1].pc == Answered(Answer(Resolved([1]), Some(0)))
    ensures |s.calls| == 1 && s.calls[0].phase.Announced?
    ensures !TimelyFromReturn(s.calls[0].phase.since, TtlFor(s.config, Resolved([1])), s.callers[1].start)
  {
    var k := Normalize("a");
    actions, s := SlowLeader(k);
    hide Normalize;
    ReachesThen(START, actions, s, PublishResult(0, map[]));
    actions, s := actions + [PublishResult(0, map[])], After(s, PublishResult(0, map[]));
    assert s.entries == map[k := Entry(Resolved([1]), 15, 0)] && s.calls == [Call(k, 0, false, Announced(Resolved([1]), 10, 0))];
    ReachesThen(START, actions, s, ClockAdvances(12));
    actions, s := actions + [ClockAdvances(12)], After(s, ClockAdvances(12));
    ReachesThen(START, actions, s, Start("a"));
    actions, s := actions + [Start("a")], After(s, Start("a"));
    assert |s.callers| == 2 && s.callers[1] == Caller(k, 12, false, Checking);
    ReachesThen(START, actions, s, FastPath(1));
    actions, s := actions + [FastPath(1)], After(s, FastPath(1));
  }

  /** Two callers of one name: the second joined the first's call, whose context has ended. */
  lemma JoinedCall(k: Key) returns (actions: seq<Action>, s: State)
    requires k == Normalize("a")
    ensures Reaches(START, actions, s)
    ensures s == State(START.config, 0, map[], map[k := 0], 0, [Call(k, 0, false, AwaitingSlot)],
                       [Caller(k, 0, true, Leading(0)), Caller(k, 0, false, Waiting(0))])
  {
    hide Normalize;
    actions, s := [], START;
    ReachesThen(START, actions, s, Start("a"));
    actions, s := actions + [Start("a")], After(s, Start("a"));
    assert s.callers == [Caller(k, 0, false, Checking)];
    ReachesThen(START, actions, s, FastPath(0));
    actions, s := actions + [FastPath(0)], After(s, FastPath(0));
    assert s.callers == [Caller(k, 0, false, Missed)];
    ReachesThen(START, actions, s, SlowPath(0));
    actions, s := actions + [SlowPath(0)], After(s, SlowPath(0));
    assert s == State(START.config, 0, map[], map[k := 0], 0, [Call(k, 0, false, AwaitingSlot)], [Caller(k, 0, false, Leading(0))]);
    actions, s := SecondCaller(k, actions, s);
    ReachesThen(START, actions, s, Cancel(0));
    actions, s := actions + [Cancel(0)], After(s, Cancel(0));
  }

  lemma SecondCaller(k: Key, before: seq<Action>, b: State) returns (actions: seq<Action>, s: State)
    requires k == Normalize("a") && Reaches(START, before, b)
    requires b == State(START.config, 0, map[], map[k := 0], 0, [Call(k, 0, false, AwaitingSlot)], [Caller(k, 0, false, Leading(0))])
    ensures Reaches(START, actions, s)
    ensures s == b.(callers := [Caller(k, 0, false, Leading(0)), Caller(k, 0, false, Waiting(0))])
  {
    hide Normalize;
    ReachesThen(START, before, b, Start("a"));
    actions, s := before + [Start("a")], After(b, Start("a"));
    assert s.callers == [Caller(k, 0, false, Leading(0)), Caller(k, 0, false, Checking)];
    ReachesThen(START, actions, s, FastPath(1));
    actions, s := actions + [FastPath(1)], After(s, FastPath(1));
    assert s.callers == [Caller(k, 0, false, Leading(0)), Caller(k, 0, false, Missed)];
    ReachesThen(START, actions, s, SlowPath(1));
    actions, s := actions + [SlowPath(1)], After(s, SlowPath(1));
  }

  lemma {:induction false} ReachesOn(s: State, first: seq<Action>, t: State, more: seq<Action>, u: State)
    requires Reaches(s, first, t) && Reaches(t, more, u)
    ensures Reaches(s, first + more, u)
    decreases |first|
  {
    hide Enabled, After;
    if first == [] {
      assert first + more == more;
    } else {
      assert (first + more)[0] == first[0] && (first + more)[1..] == first[1..] + more;
      ReachesOn(After(s, first[0]), first[1..], t, more, u);
    }
  }

  /** A run in which a caller with a live context is answered with a cancellation. */
  lemma LiveCallerCancelled() returns (actions: seq<Action>, s: State)
    ensures Init(START) && Reaches(START, actions, s)
    ensures |s.callers| > 1 && !s.callers[1].cancelled && s.callers[1].pc == Answered(Answer(Cancelled, Some(0)))
  {
    var first, t := JoinedCall(Normalize("a"));
    hide Normalize;
    InitInv(START);
    RunsKeepInv(START, first);
    var more, u := LiveWaiterMayBeCancelled(t, 1);
    ReachesOn(START, first, t, more, u);
    actions, s := first + more, u;
  }
}
