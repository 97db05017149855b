/** The HTTP transport pool: a map with use stamps that keeps the most recently used
    extensions, proved against a plain recency list. */
module TransportPool {
  import opened SourceAddress

  const MAX_ENTRIES: nat := 128

  /** Transports are named by the order in which they were made. */
  type Transport = nat

  datatype Entry = Entry(transport: Transport, lastUsed: nat)

  // ---- the recency list ----

  function Without(xs: seq<Extension>, k: Extension): seq<Extension> {
    if xs == [] then []
    else if xs[0] == k then Without(xs[1..], k)
    else [xs[0]] + Without(xs[1..], k)
  }

  function Take(xs: seq<Extension>, n: nat): seq<Extension> {
    if |xs| <= n then xs else xs[..n]
  }

  /** Move or add k to the front, keeping at most MAX_ENTRIES. */
  function Touch(order: seq<Extension>, k: Extension): seq<Extension> {
    Take([k] + Without(order, k), MAX_ENTRIES)
  }

  /** All extensions of a request history, most recently requested first. */
  function Recent(history: seq<Extension>): seq<Extension> {
    if history == [] then []
    else
      var last := |history| - 1;
      [history[last]] + Without(Recent(history[..last]), history[last])
  }

  /** The order the pool is in after a history of requests. */
  function OrderAfter(history: seq<Extension>): seq<Extension> {
    if history == [] then []
    else Touch(OrderAfter(history[..|history| - 1]), history[|history| - 1])
  }

  predicate NoDuplicates(xs: seq<Extension>) {
    forall i, j | 0 <= i < j < |xs| :: xs[i] != xs[j]
  }

  lemma {:induction false} WithoutMembers(xs: seq<Extension>, k: Extension)
    ensures forall x :: x in Without(xs, k) <==> x in xs && x != k
    ensures |Without(xs, k)| <= |xs|
    ensures NoDuplicates(xs) ==> NoDuplicates(Without(xs, k))
  {
    if xs != [] {
      WithoutMembers(xs[1..], k);
      var rest := Without(xs[1..], k);
      assert forall x :: x in xs <==> x == xs[0] || x in xs[1..];
      if NoDuplicates(xs) && xs[0] != k {
        forall i, j | 0 <= i < j < |[xs[0]] + rest|
          ensures ([xs[0]] + rest)[i] != ([xs[0]] + rest)[j]
        {
          assert rest[j - 1] in rest;
        }
      }
    }
  }

  lemma {:induction false} WithoutAbsent(xs: seq<Extension>, k: Extension)
    requires k !in xs
    ensures Without(xs, k) == xs
  {
    if xs != [] {
      WithoutAbsent(xs[1..], k);
    }
  }

  lemma {:induction false} WithoutOnce(xs: seq<Extension>, i: nat)
    requires NoDuplicates(xs) && i < |xs|
    ensures Without(xs, xs[i]) == xs[..i] + xs[i + 1..]
  {
    if i == 0 {
      WithoutAbsent(xs[1..], xs[0]);
    } else {
      assert xs[1..][i - 1] == xs[i];
      WithoutOnce(xs[1..], i - 1);
      assert xs[..i] + xs[i + 1..] == [xs[0]] + (xs[1..][..i - 1] + xs[1..][i..]);
    }
  }

  lemma RecentDistinct(history: seq<Extension>)
    ensures NoDuplicates(Recent(history))
    ensures forall x :: x in Recent(history) <==> x in history
  {
    if history != [] {
      var last := |history| - 1;
      RecentDistinct(history[..last]);
      var rest := Recent(history[..last]);
      WithoutMembers(rest, history[last]);
      var head := [history[last]];
      forall i, j | 0 <= i < j < |Recent(history)|
        ensures Recent(history)[i] != Recent(history)[j]
      {
        assert Without(rest, history[last])[j - 1] in Without(rest, history[last]);
      }
      assert history == history[..last] + [history[last]];
    }
  }

  /** Cutting to n before or after moving an element to the front is the same. */
  lemma TakeTouch(xs: seq<Extension>, k: Extension, n: nat)
    requires NoDuplicates(xs) && n >= 1
    ensures Take([k] + Without(Take(xs, n), k), n) == Take([k] + Without(xs, k), n)
  {
    if |xs| > n {
      if i :| 0 <= i < n && xs[i] == k {
        TakeTouchNear(xs, i, n);
      } else {
        WithoutAbsent(xs[..n], k);
        TakeTouchFar(xs, k, n);
      }
    }
  }

  lemma TakeTouchNear(xs: seq<Extension>, i: nat, n: nat)
    requires NoDuplicates(xs) && i < n < |xs|
    ensures Take([xs[i]] + Without(xs[..n], xs[i]), n) == Take([xs[i]] + Without(xs, xs[i]), n)
  {
    hide Without, Take;
    WithoutOnce(xs, i);
    WithoutOnceCut(xs, i, n);
    FrontOfJoin(xs[i], xs[..i], xs[i + 1..], n);
  }

  lemma WithoutOnceCut(xs: seq<Extension>, i: nat, n: nat)
    requires NoDuplicates(xs) && i < n < |xs|
    ensures Without(xs[..n], xs[i]) == xs[..i] + xs[i + 1..][..n - i - 1]
  {
    assert xs[..n][i] == xs[i] && NoDuplicates(xs[..n]);
    WithoutOnce(xs[..n], i);
    assert xs[..n][..i] == xs[..i] && xs[..n][i + 1..] == xs[i + 1..][..n - i - 1];
  }

  lemma FrontOfJoin(k: Extension, a: seq<Extension>, b: seq<Extension>, n: nat)
    requires |a| < n <= |a| + |b|
    ensures Take([k] + (a + b[..n - |a| - 1]), n) == Take([k] + (a + b), n)
  {
    assert ([k] + (a + b))[..n] == [k] + (a + b[..n - |a| - 1]);
  }

  /** Elements before position n are untouched by removing a later one. */
  lemma TakeTouchFar(xs: seq<Extension>, k: Extension, n: nat)
    requires NoDuplicates(xs) && 1 <= n < |xs| && k !in xs[..n]
    ensures Take([k] + xs[..n], n) == Take([k] + Without(xs, k), n)
  {
    WithoutFar(xs, k, n);
    hide Without, NoDuplicates;
    FrontOfCons(k, Without(xs, k), n);
    FrontOfCons(k, xs[..n], n);
    assert xs[..n][..n - 1] == xs[..n - 1];
  }

  lemma WithoutFar(xs: seq<Extension>, k: Extension, n: nat)
    requires NoDuplicates(xs) && 1 <= n < |xs| && k !in xs[..n]
    ensures |Without(xs, k)| >= n && Without(xs, k)[..n - 1] == xs[..n - 1]
  {
    if k in xs {
      assert xs == xs[..n] + xs[n..];
      var i :| 0 <= i < |xs[n..]| && xs[n..][i] == k;
      WithoutOnce(xs, n + i);
      hide Without, NoDuplicates;
      CutKeepsFront(xs, n + i, n);
    } else {
      WithoutAbsent(xs, k);
    }
  }

  lemma CutKeepsFront(xs: seq<Extension>, i: nat, n: nat)
    requires 1 <= n <= i < |xs|
    ensures |xs[..i] + xs[i + 1..]| >= n && (xs[..i] + xs[i + 1..])[..n - 1] == xs[..n - 1]
  {
  }

  lemma FrontOfCons(k: Extension, ys: seq<Extension>, n: nat)
    requires 1 <= n <= |ys|
    ensures Take([k] + ys, n) == [k] + ys[..n - 1]
  {
    assert ([k] + ys)[..n] == [k] + ys[..n - 1];
  }

  /** After any requests the pool's order is the 128 most recently requested
      distinct extensions. */
  lemma {:induction false} OrderIsMostRecent(history: seq<Extension>)
    ensures OrderAfter(history) == Take(Recent(history), 128)
  {
    if history != [] {
      var last := |history| - 1;
      OrderIsMostRecent(history[..last]);
      RecentDistinct(history[..last]);
      TakeTouch(Recent(history[..last]), history[last], MAX_ENTRIES);
    }
  }

  /** Where k was last requested. */
  function LastRequest(history: seq<Extension>, k: Extension): (i: nat)
    requires k in history
    ensures i < |history| && history[i] == k
  {
    if history[|history| - 1] == k then |history| - 1
    else LastRequest(history[..|history| - 1], k)
  }

  /** Past the head, the list holds earlier requests for other extensions. */
  lemma RecentTail(history: seq<Extension>, i: nat)
    requires 0 < i < |Recent(history)|
    ensures var last := |history| - 1;
            var x := Recent(history)[i];
            && x != history[last] && x in history[..last] && x in history
            && LastRequest(history, x) == LastRequest(history[..last], x)
            && x == Without(Recent(history[..last]), history[last])[i - 1]
  {
    var last := |history| - 1;
    var rest := Without(Recent(history[..last]), history[last]);
    RecentDistinct(history[..last]);
    WithoutMembers(Recent(history[..last]), history[last]);
    assert Recent(history)[i] == rest[i - 1] && rest[i - 1] in rest;
  }

  /** The list is by time of last request, latest first. */
  lemma {:induction false} RecentByLastRequest(history: seq<Extension>, i: nat, j: nat)
    requires i < j < |Recent(history)|
    ensures Recent(history)[i] in history && Recent(history)[j] in history
    ensures LastRequest(history, Recent(history)[i]) > LastRequest(history, Recent(history)[j])
  {
    hide Without;
    var last := |history| - 1;
    RecentTail(history, j);
    if i > 0 {
      RecentTail(history, i);
      hide Recent;
      var p, q := WithoutPositions(Recent(history[..last]), history[last], i - 1, j - 1);
      RecentByLastRequest(history[..last], p, q);
    }
  }

  /** Removing an element keeps the others in order. */
  lemma {:induction false} WithoutPositions(xs: seq<Extension>, k: Extension, i: nat, j: nat) returns (p: nat, q: nat)
    requires i < j < |Without(xs, k)|
    ensures p < q < |xs| && xs[p] == Without(xs, k)[i] && xs[q] == Without(xs, k)[j]
  {
    if xs[0] == k {
      p, q := WithoutPositions(xs[1..], k, i, j);
      p, q := p + 1, q + 1;
    } else if i == 0 {
      WithoutMembers(xs[1..], k);
      assert Without(xs, k)[j] == Without(xs[1..], k)[j - 1];
      assert Without(xs, k)[j] in Without(xs[1..], k);
      p := 0;
      q :| 0 <= q < |xs[1..]| && xs[1..][q] == Without(xs, k)[j];
      q := q + 1;
    } else {
      p, q := WithoutPositions(xs[1..], k, i - 1, j - 1);
      p, q := p + 1, q + 1;
    }
  }

  // ---- the pool ----

  /** Stamps along a recency list: strictly decreasing, none in the future. */
  ghost predicate Stamped(entries: map<Extension, Entry>, order: seq<Extension>, clock: nat) {
    && (forall k :: k in entries <==> k in order)
    && (forall k | k in entries :: entries[k].lastUsed <= clock)
    && (forall i, j | 0 <= i < j < |order| :: entries[order[i]].lastUsed > entries[order[j]].lastUsed)
  }

  /** Moving one element of a duplicate-free list to the front. */
  lemma MoveToFront(order: seq<Extension>, i: nat)
    requires NoDuplicates(order) && i < |order|
    ensures var moved := [order[i]] + (order[..i] + order[i + 1..]);
            && NoDuplicates(moved) && |moved| == |order|
            && (forall x :: x in moved <==> x in order)
            && (forall j | 0 < j < |moved| :: moved[j] == order[if j <= i then j - 1 else j])
  {
    assert order == order[..i] + [order[i]] + order[i + 1..];
  }

  /** Using a resident extension moves it to the front. */
  lemma TouchResident(entries: map<Extension, Entry>, order: seq<Extension>, clock: nat, k: Extension)
    requires Stamped(entries, order, clock) && NoDuplicates(order) && |order| <= MAX_ENTRIES && k in entries
    ensures var order' := Touch(order, k);
            && NoDuplicates(order') && |order'| == |order|
            && Stamped(entries[k := entries[k].(lastUsed := clock + 1)], order', clock + 1)
  {
    var i :| 0 <= i < |order| && order[i] == k;
    WithoutOnce(order, i);
    MoveToFront(order, i);
    hide Without;
    var moved := [k] + (order[..i] + order[i + 1..]);
    assert Touch(order, k) == moved;
    StampFront(entries, order, moved, i, clock);
  }

  lemma StampFront(entries: map<Extension, Entry>, order: seq<Extension>, moved: seq<Extension>, i: nat, clock: nat)
    requires Stamped(entries, order, clock) && i < |order| == |moved| && moved[0] == order[i] && NoDuplicates(moved)
    requires forall x :: x in moved <==> x in order
    requires forall j | 0 < j < |moved| :: moved[j] == order[if j <= i then j - 1 else j]
    ensures order[i] in entries
    ensures Stamped(entries[order[i] := entries[order[i]].(lastUsed := clock + 1)], moved, clock + 1)
  {
    assert order[i] in entries;
    var entries' := entries[order[i] := entries[order[i]].(lastUsed := clock + 1)];
    forall p, q | 0 <= p < q < |moved|
      ensures entries'[moved[p]].lastUsed > entries'[moved[q]].lastUsed
    {
      assert moved[q] != moved[0] && moved[q] in order;
      var q' := if q <= i then q - 1 else q;
      assert entries'[moved[q]] == entries[order[q']];
      if p > 0 {
        assert moved[p] != moved[0] && moved[p] in order;
        var p' := if p <= i then p - 1 else p;
        assert entries'[moved[p]] == entries[order[p']];
      }
    }
  }

  /** Adding a new extension while there is room. */
  lemma TouchNew(entries: map<Extension, Entry>, order: seq<Extension>, clock: nat, k: Extension, t: Transport)
    requires Stamped(entries, order, clock) && NoDuplicates(order) && |order| < MAX_ENTRIES && k !in entries
    ensures var order' := [k] + order;
            && NoDuplicates(order') && order' == Touch(order, k)
            && Stamped(entries[k := Entry(t, clock + 1)], order', clock + 1)
  {
    WithoutAbsent(order, k);
  }

  /** Dropping the tail of the list makes room. */
  lemma DropOldest(entries: map<Extension, Entry>, order: seq<Extension>, clock: nat)
    requires Stamped(entries, order, clock) && NoDuplicates(order) && order != []
    ensures var last := |order| - 1;
            NoDuplicates(order[..last]) && Stamped(entries - {order[last]}, order[..last], clock)
  {
    var last := |order| - 1;
    assert order == order[..last] + [order[last]];
  }

  lemma TouchFull(order: seq<Extension>, k: Extension)
    requires |order| == MAX_ENTRIES && k !in order
    ensures Touch(order, k) == [k] + order[..MAX_ENTRIES - 1]
  {
    WithoutAbsent(order, k);
  }

  lemma OldestIsLast(entries: map<Extension, Entry>, order: seq<Extension>, clock: nat, k: Extension)
    requires Stamped(entries, order, clock) && k in entries
    requires forall x | x in entries :: entries[k].lastUsed <= entries[x].lastUsed
    ensures order != [] && k == order[|order| - 1]
  {
    assert k in order;
    var i :| 0 <= i < |order| && order[i] == k;
    assert order[|order| - 1] in entries;
  }

  class Pool {
    const defaultTransport: Transport
    var entries: map<Extension, Entry>
    var clock: nat
    var made: nat
    /** Every request so far for an extension. */
    ghost var history: seq<Extension>

    ghost predicate Valid()
      reads this
    {
      var order := OrderAfter(history);
      && |order| <= MAX_ENTRIES && NoDuplicates(order) && Stamped(entries, order, clock)
      && NoExtension !in entries
    }

    constructor ()
      ensures Valid() && history == [] && entries == map[]
    {
      defaultTransport := 0;
      entries, clock, made, history := map[], 0, 1, [];
    }

    /** The entry that was used longest ago is the end of the recency list. */
    method Oldest() returns (k: Extension)
      requires Valid() && entries != map[]
      ensures var order := OrderAfter(history); order != [] && k == order[|order| - 1]
    {
      ghost var order := OrderAfter(history);
      hide OrderAfter, NoDuplicates, Stamped;
      var todo := entries.Keys;
      k :| k in todo;
      todo := todo - {k};
      while todo != {}
        invariant todo <= entries.Keys && k in entries
        invariant forall x | x in entries && x !in todo :: entries[k].lastUsed <= entries[x].lastUsed
        decreases |todo|
      {
        var candidate :| candidate in todo;
        if entries[candidate].lastUsed < entries[k].lastUsed {
          k := candidate;
        }
        todo := todo - {candidate};
      }
      OldestIsLast(entries, order, clock, k);
    }

    /** No extension: the default transport. Otherwise the resident transport, or a new one
        after evicting the least recently used when the pool is full. */
    method Get(extension: Extension) returns (transport: Transport)
      requires Valid()
      modifies this
      ensures Valid()
      ensures extension == NoExtension ==> transport == defaultTransport && unchanged(this)
      ensures extension != NoExtension ==>
                && history == old(history) + [extension] && clock == old(clock) + 1
                && extension in entries && entries[extension].transport == transport
      ensures extension in old(entries) ==> transport == old(entries)[extension].transport && made == old(made)
      ensures extension != NoExtension && extension !in old(entries) ==> transport == old(made) && made == old(made) + 1
      ensures forall x | x in entries && x != extension :: x in old(entries) && entries[x] == old(entries)[x]
    {
      hide Stamped, NoDuplicates, OrderAfter, Touch;
      if extension == NoExtension {
        return defaultTransport;
      }
      ghost var order := OrderAfter(history);
      NextOrder(history, extension);
      KeysOf(entries, order, clock);
      if extension in entries {
        TouchResident(entries, order, clock, extension);
        clock := clock + 1;
        entries := entries[extension := entries[extension].(lastUsed := clock)];
        history := history + [extension];
        return entries[extension].transport;
      }
      SizeOfPool(entries, order);
      if |entries| >= MAX_ENTRIES {
        var oldest := Oldest();
        DropOldest(entries, order, clock);
        TouchFull(order, extension);
        entries := entries - {oldest};
        order := order[..|order| - 1];
      }
      TouchNew(entries, order, clock, extension, made);
      clock := clock + 1;
      entries := entries[extension := Entry(made, clock)];
      history := history + [extension];
      transport := made;
      made := made + 1;
    }
  }

  lemma KeysOf(entries: map<Extension, Entry>, order: seq<Extension>, clock: nat)
    requires Stamped(entries, order, clock)
    ensures forall k :: k in entries <==> k in order
  {
  }

  lemma NextOrder(history: seq<Extension>, k: Extension)
    ensures OrderAfter(history + [k]) == Touch(OrderAfter(history), k)
  {
    assert (history + [k])[..|history|] == history;
  }

  /** A duplicate-free list of the keys is as long as the map is large. */
  lemma SizeOfPool(entries: map<Extension, Entry>, order: seq<Extension>)
    requires NoDuplicates(order) && forall k :: k in entries <==> k in order
    ensures |entries| == |order|
  {
    SizeOfKeys(entries.Keys, order);
  }

  lemma {:induction false} SizeOfKeys(keys: set<Extension>, order: seq<Extension>)
    requires NoDuplicates(order) && forall k :: k in keys <==> k in order
    ensures |keys| == |order|
  {
    if order == [] {
      assert keys == {};
    } else {
      assert forall k :: k in keys - {order[0]} <==> k in order[1..];
      SizeOfKeys(keys - {order[0]}, order[1..]);
    }
  }
}
