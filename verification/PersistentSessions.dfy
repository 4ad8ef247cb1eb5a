/** Pruning the remembered sessions, in place: drop the unusable ones, then the
    longest unseen until the cap is met. */
module PersistentSessions {
  import opened Models
  import opened StableSort

  datatype Record = Record(tokenHash: string, userId: string, createdAt: Time, lastSeenAt: Time, expiresAt: Time)

  predicate Usable(r: Record, now: Time) {
    r.tokenHash != "" && r.userId != "" && r.expiresAt != 0 && now <= r.expiresAt
  }

  function SeenAt(r: Record): Time {
    if r.lastSeenAt != 0 then r.lastSeenAt else r.createdAt
  }

  function UsableOf(s: seq<Record>, now: Time): (r: seq<Record>)
    ensures |r| <= |s|
  {
    if s == [] then []
    else
      var last := s[|s| - 1];
      UsableOf(s[..|s| - 1], now) + (if Usable(last, now) then [last] else [])
  }

  /** r picks elements of s by rising positions. */
  ghost predicate Picks(r: seq<Record>, s: seq<Record>, at: seq<nat>) {
    && |at| == |r|
    && (forall i {:trigger at[i]} :: 0 <= i < |at| ==> at[i] < |s| && r[i] == s[at[i]])
    && (forall i, j :: 0 <= i < j < |at| ==> at[i] < at[j])
  }

  ghost predicate InOriginalOrder(r: seq<Record>, s: seq<Record>) {
    exists at :: Picks(r, s, at)
  }

  /** How many records the cap forces out. */
  function Excess(count: nat, maxEntries: int): nat {
    if maxEntries > 0 && count > maxEntries then count - maxEntries else 0
  }

  function Removed(s: seq<Record>, p: nat): seq<Record>
    requires p < |s|
  {
    s[..p] + s[p + 1..]
  }

  /** The first record of those unseen for longest. */
  ghost predicate IsOldest(s: seq<Record>, p: nat) {
    && p < |s|
    && (forall j :: 0 <= j < |s| ==> SeenAt(s[p]) <= SeenAt(s[j]))
    && (forall j :: 0 <= j < p ==> SeenAt(s[p]) < SeenAt(s[j]))
  }

  lemma WithKeyRemoved(s: seq<Record>, p: nat, k: int)
    requires IsOldest(s, p)
    ensures WithKey(s, SeenAt, k) == (if SeenAt(s[p]) == k then [s[p]] else []) + WithKey(Removed(s, p), SeenAt, k)
  {
    assert s == s[..p] + ([s[p]] + s[p + 1..]);
    WithKeyAppend(s[..p], [s[p]] + s[p + 1..], SeenAt, k);
    WithKeyAppend([s[p]], s[p + 1..], SeenAt, k);
    WithKeyAppend(s[..p], s[p + 1..], SeenAt, k);
    if k == SeenAt(s[p]) {
      NoneWithKey(s[..p], SeenAt, k);
    }
  }

  lemma HeadedSorted(r: Record, rest: seq<Record>)
    requires forall j :: 0 <= j < |rest| ==> SeenAt(r) <= SeenAt(rest[j])
    ensures Sorted([r] + Sort(rest, SeenAt), SeenAt)
  {
    SortIsStable(rest, SeenAt);
    var sorted := Sort(rest, SeenAt);
    forall i | 0 <= i < |sorted| ensures SeenAt(r) <= SeenAt(sorted[i]) {
      assert sorted[i] in multiset(rest);
    }
  }

  /** The first oldest record heads the stable sort; the rest sorts to its tail. */
  lemma OldestHeadsSort(s: seq<Record>, p: nat)
    requires IsOldest(s, p)
    ensures Sort(s, SeenAt) == [s[p]] + Sort(Removed(s, p), SeenAt)
  {
    var rest := Removed(s, p);
    HeadedSorted(s[p], rest);
    var candidate := [s[p]] + Sort(rest, SeenAt);
    forall k ensures WithKey(candidate, SeenAt, k) == WithKey(Sort(s, SeenAt), SeenAt, k) {
      WithKeyAppend([s[p]], Sort(rest, SeenAt), SeenAt, k);
      WithKeyRemoved(s, p, k);
      SortIsStable(s, SeenAt);
      SortIsStable(rest, SeenAt);
    }
    SortIsStable(s, SeenAt);
    StableSortUnique(candidate, Sort(s, SeenAt), SeenAt);
  }

  /** kept is usable, in order, without the front of its stable sort. */
  ghost predicate Survives(kept: seq<Record>, usable: seq<Record>) {
    && |kept| <= |usable|
    && InOriginalOrder(kept, usable)
    && Sort(kept, SeenAt) == Sort(usable, SeenAt)[|usable| - |kept|..]
  }

  /** What one turn of the eviction loop does. */
  lemma EvictOne(s: seq<Record>, usable: seq<Record>, p: nat)
    requires IsOldest(s, p) && Survives(s, usable)
    ensures Survives(Removed(s, p), usable)
  {
    OldestHeadsSort(s, p);
    RemovedInOrder(s, usable, p);
    assert Sort(Removed(s, p), SeenAt) == Sort(s, SeenAt)[1..];
  }

  lemma RemovedInOrder(r: seq<Record>, s: seq<Record>, p: nat)
    requires InOriginalOrder(r, s) && p < |r|
    ensures InOriginalOrder(Removed(r, p), s)
  {
    var at :| Picks(r, s, at);
    assert Picks(Removed(r, p), s, at[..p] + at[p + 1..]);
  }

  lemma AllSurvive(s: seq<Record>)
    ensures Survives(s, s)
  {
    assert Picks(s, s, seq(|s|, i => i));
  }

  /** With distinct records the contract of Prune leaves one result: a record
      survives exactly when it is usable and not among the k longest unseen. */
  lemma SurvivorsExactly(kept: seq<Record>, usable: seq<Record>, k: nat, r: Record)
    requires Survives(kept, usable) && k == |usable| - |kept|
    requires multiset(usable)[r] <= 1
    ensures r in kept <==> r in usable && r !in Sort(usable, SeenAt)[..k]
  {
    var sorted := Sort(usable, SeenAt);
    SortIsStable(kept, SeenAt);
    SortIsStable(usable, SeenAt);
    assert sorted == sorted[..k] + sorted[k..];
    assert multiset(usable) == multiset(sorted[..k]) + multiset(kept);
    assert r in kept <==> multiset(kept)[r] > 0;
    assert r in usable <==> multiset(usable)[r] > 0;
    assert r in sorted[..k] <==> multiset(sorted[..k])[r] > 0;
  }

  // ---------------------------------------------------------------------
  // Who is kept
  // ---------------------------------------------------------------------

  /** Neither blank, nor without an end, nor expired. */
  predicate IsGood(r: Record, now: Time) {
    !(r.tokenHash == "" || r.userId == "" || r.expiresAt == 0 || r.expiresAt < now)
  }

  /** The record was last seen, or if never seen created, no later than the other. */
  predicate NoLaterSeen(d: Record, q: Record) {
    var a := if d.lastSeenAt == 0 then d.createdAt else d.lastSeenAt;
    var b := if q.lastSeenAt == 0 then q.createdAt else q.lastSeenAt;
    a <= b
  }

  lemma {:induction false} UsableAreGood(s: seq<Record>, now: Time, r: Record)
    ensures r in UsableOf(s, now) <==> r in s && IsGood(r, now)
  {
    if s != [] {
      var n := |s| - 1;
      UsableAreGood(s[..n], now, r);
      assert r in s <==> r in s[..n] || r == s[n];
    }
  }

  lemma {:induction false} PicksAreThere(kept: seq<Record>, usable: seq<Record>, r: Record)
    requires InOriginalOrder(kept, usable) && r in kept
    ensures r in usable
  {
    var at :| Picks(kept, usable, at);
    var i :| 0 <= i < |kept| && kept[i] == r;
    assert at[i] < |usable|;
  }

  lemma TailIsKept(kept: seq<Record>, usable: seq<Record>, i: nat)
    requires Survives(kept, usable) && |usable| - |kept| <= i < |usable|
    ensures |Sort(usable, SeenAt)| == |usable| && Sort(usable, SeenAt)[i] in kept
  {
    SortIsStable(kept, SeenAt);
    SortIsStable(usable, SeenAt);
    assert Sort(kept, SeenAt)[i - (|usable| - |kept|)] in multiset(kept);
  }

  lemma AllAreKept(kept: seq<Record>, usable: seq<Record>, d: Record)
    requires Survives(kept, usable) && |kept| == |usable| && d in usable
    ensures d in kept
  {
    SortIsStable(usable, SeenAt);
    assert d in multiset(Sort(usable, SeenAt));
    var i :| 0 <= i < |usable| && Sort(usable, SeenAt)[i] == d;
    TailIsKept(kept, usable, i);
  }

  lemma DroppedSeenEarlier(kept: seq<Record>, usable: seq<Record>, d: Record, q: Record)
    requires Survives(kept, usable) && d in usable && d !in kept && q in kept
    ensures SeenAt(d) <= SeenAt(q)
  {
    var k, sorted := |usable| - |kept|, Sort(usable, SeenAt);
    SortIsStable(kept, SeenAt);
    SortIsStable(usable, SeenAt);
    assert d in multiset(sorted) && q in multiset(Sort(kept, SeenAt));
    var i :| 0 <= i < |sorted| && sorted[i] == d;
    var j :| 0 <= j < |kept| && Sort(kept, SeenAt)[j] == q;
    forall m | k <= m < |usable| ensures sorted[m] in kept {
      TailIsKept(kept, usable, m);
    }
    assert sorted[k + j] == q;
  }

  lemma SomeDropped(kept: seq<Record>, usable: seq<Record>, d: Record)
    requires Survives(kept, usable) && d in usable && d !in kept
    ensures |kept| < |usable|
  {
    forall x | |kept| == |usable| && x in usable ensures x in kept {
      AllAreKept(kept, usable, x);
    }
  }

  /** What a prune of these records leaves: only good ones, no more than a positive cap; a
      good one goes only when the cap is met without it, and was then seen no later than
      any that stays. */
  lemma PruneKeeps(kept: seq<Record>, s: seq<Record>, now: Time, maxEntries: int)
    requires Survives(kept, UsableOf(s, now)) && |kept| == |UsableOf(s, now)| - Excess(|UsableOf(s, now)|, maxEntries)
    ensures forall r :: r in kept ==> r in s && IsGood(r, now)
    ensures maxEntries > 0 ==> |kept| <= maxEntries
    ensures forall d :: d in s && IsGood(d, now) && d !in kept ==>
      maxEntries > 0 && |kept| == maxEntries && forall q :: q in kept ==> NoLaterSeen(d, q)
  {
    var usable := UsableOf(s, now);
    forall r | r in kept ensures r in s && IsGood(r, now) {
      PicksAreThere(kept, usable, r);
      UsableAreGood(s, now, r);
    }
    forall d | d in s && IsGood(d, now) && d !in kept
      ensures maxEntries > 0 && |kept| == maxEntries && forall q :: q in kept ==> NoLaterSeen(d, q)
    {
      UsableAreGood(s, now, d);
      SomeDropped(kept, usable, d);
      forall q | q in kept ensures NoLaterSeen(d, q) {
        DroppedSeenEarlier(kept, usable, d, q);
      }
    }
  }

  // ---------------------------------------------------------------------
  // In place
  // ---------------------------------------------------------------------

  /** Moves the usable records of a[..n] to the front. */
  method CompactUsable(a: array<Record>, n: nat, now: Instant) returns (m: nat)
    requires n <= a.Length
    modifies a
    ensures m <= n && a[..m] == UsableOf(old(a[..n]), now)
  {
    m := 0;
    for i := 0 to n
      invariant m <= i
      invariant a[..m] == UsableOf(old(a[..i]), now)
      invariant forall j :: i <= j < a.Length ==> a[j] == old(a[j])
    {
      var record := a[i];
      assert old(a[..i + 1])[..i] == old(a[..i]) && old(a[..i + 1])[i] == record;
      if record.tokenHash == "" || record.userId == "" || record.expiresAt == 0 || now > record.expiresAt {
        continue;
      }
      a[m] := record;
      m := m + 1;
    }
  }

  method FindOldest(a: array<Record>, m: nat) returns (oldest: nat)
    requires 0 < m <= a.Length
    ensures IsOldest(a[..m], oldest)
  {
    oldest := 0;
    var oldestSeen := SeenAt(a[0]);
    for i := 1 to m
      invariant oldest < i && oldestSeen == SeenAt(a[oldest])
      invariant forall j :: 0 <= j < i ==> oldestSeen <= SeenAt(a[j])
      invariant forall j :: 0 <= j < oldest ==> oldestSeen < SeenAt(a[j])
    {
      var seenAt := SeenAt(a[i]);
      if seenAt < oldestSeen {
        oldest := i;
        oldestSeen := seenAt;
      }
    }
  }

  /** Closes the gap at p by shifting the later records down. */
  method ShiftOut(a: array<Record>, m: nat, p: nat)
    requires p < m <= a.Length
    modifies a
    ensures a[..m - 1] == Removed(old(a[..m]), p)
  {
    for i := p to m - 1
      invariant forall j :: 0 <= j < p ==> a[j] == old(a[j])
      invariant forall j :: p <= j < i ==> a[j] == old(a[j + 1])
      invariant forall j :: i <= j < a.Length ==> a[j] == old(a[j])
    {
      a[i] := a[i + 1];
    }
    ghost var was := old(a[..m]);
    assert a[..p] == was[..p];
    assert a[p..m - 1] == was[p + 1..];
    assert a[..m - 1] == a[..p] + a[p..m - 1];
  }

  /** One turn of the eviction loop, in place. */
  method DropOldest(a: array<Record>, m: nat, ghost usable: seq<Record>)
    requires 0 < m <= a.Length && Survives(a[..m], usable)
    modifies a
    ensures Survives(a[..m - 1], usable)
  {
    var oldest := FindOldest(a, m);
    EvictOne(a[..m], usable, oldest);
    ShiftOut(a, m, oldest);
  }

  /** Keeps, in their original order, the usable records without the first k of
      their stable sort by last sighting, where k is the excess over a positive
      cap; no cap keeps them all. */
  method Prune(a: array<Record>, n: nat, now: Instant, maxEntries: int) returns (m: nat)
    requires n <= a.Length
    modifies a
    ensures m <= n
    ensures var usable := UsableOf(old(a[..n]), now);
      Survives(a[..m], usable) && m == |usable| - Excess(|usable|, maxEntries)
  {
    m := CompactUsable(a, n, now);
    ghost var usable := a[..m];
    AllSurvive(usable);
    var cap := maxEntries;
    if cap < 0 {
      cap := 0;
    }
    while cap > 0 && m > cap
      invariant m <= |usable| <= n
      invariant m == |usable| || (cap > 0 && m >= cap)
      invariant Survives(a[..m], usable)
    {
      DropOldest(a, m, usable);
      m := m - 1;
    }
  }
}
