/** The login throttle: fixed five-minute windows of failures per key, a lock
    after the fifth, and a bounded table. */
module LoginThrottle {
  import opened Models
  import opened Eviction
  import opened Collections

  const MAX_FAILURES := 5
  const WINDOW := 5 * MINUTE
  const LOCKOUT := 10 * MINUTE
  const MAX_KEYS := 2048

  datatype Attempt = Attempt(failures: nat, first: Time, lockedUntil: Time)

  type Table = map<string, Attempt>

  predicate Locked(a: Attempt, now: Time) {
    a.lockedUntil != 0 && now < a.lockedUntil
  }

  predicate Stale(a: Attempt, now: Time) {
    !Locked(a, now) && (a.first == 0 || now - a.first > WINDOW)
  }

  function Pruned(t: Table, now: Time): Table {
    map k | k in t && !Stale(t[k], now) :: t[k]
  }

  /** The rank by which a full table evicts. */
  function Stamp(a: Attempt): Time {
    if a.first == 0 then a.lockedUntil else a.first
  }

  function Lookup(t: Table, key: string): Option<Attempt> {
    if key in t then Some(t[key]) else None
  }

  /** The entry after one more failure. */
  function Failed(entry: Option<Attempt>, now: Instant): Attempt {
    var a := if entry.None? || entry.value.first == 0 || now - entry.value.first > WINDOW
             then Attempt(0, now, 0) else entry.value;
    var failures := a.failures + 1;
    Attempt(failures, a.first, if failures >= MAX_FAILURES then now + LOCKOUT else a.lockedUntil)
  }

  predicate Blocked(t: Table, key: string, now: Time) {
    key in t && Locked(t[key], now)
  }

  // ---------------------------------------------------------------------
  // One login
  // ---------------------------------------------------------------------

  /** A login attempt: when it was checked, when its failure was recorded, and
      whether the credentials were right. */
  datatype Login = Login(key: string, checkedAt: Instant, recordedAt: Instant, accepted: bool)

  predicate RecordsFailure(t: Table, a: Login) {
    !Blocked(t, a.key, a.checkedAt) && !a.accepted
  }

  /** The check, then what follows it. cut is the table a failure leaves after
      pruning and eviction, before its own entry is written. */
  ghost predicate LoginStep(t: Table, a: Login, cut: Table, after: Table) {
    var checked := Pruned(t, a.checkedAt);
    if Blocked(t, a.key, a.checkedAt) then after == checked
    else if a.accepted then after == checked - {a.key}
    else
      && IsCut(Pruned(checked, a.recordedAt), cut, MAX_KEYS - 1, Stamp)
      && after == cut[a.key := Failed(Lookup(cut, a.key), a.recordedAt)]
  }

  class LoginLimiter {
    var failures: Table

    /** Keys join a client address and a name with a bar, so none is empty. */
    ghost predicate Valid()
      reads this
    {
      "" !in failures && |failures| <= MAX_KEYS
    }

    constructor ()
      ensures Valid() && failures == map[]
    {
      failures := map[];
    }

    method PruneExpired(now: Instant)
      modifies this
      ensures failures == Pruned(old(failures), now)
    {
      ghost var before := failures;
      var left := failures.Keys;
      while left != {}
        invariant left <= before.Keys
        invariant failures == map k | k in before && (k in left || !Stale(before[k], now)) :: before[k]
        decreases left
      {
        var key :| key in left;
        left := left - {key};
        var entry := failures[key];
        if entry.lockedUntil != 0 && now < entry.lockedUntil {
          continue;
        }
        if entry.first == 0 || now - entry.first > WINDOW {
          failures := failures - {key};
        }
      }
    }

    method RetryAfter(key: string, now: Instant) returns (wait: int, blocked: bool)
      requires Valid()
      modifies this
      ensures Valid() && failures == Pruned(old(failures), now)
      ensures blocked <==> Blocked(old(failures), key, now)
      ensures wait == if blocked then old(failures)[key].lockedUntil - now else 0
    {
      PruneExpired(now);
      PrunedSize(old(failures), now);
      if key !in failures {
        return 0, false;
      }
      var entry := failures[key];
      if entry.lockedUntil != 0 && now < entry.lockedUntil {
        return entry.lockedUntil - now, true;
      }
      // The source deletes an expired entry here; pruning has left none.
      if entry.first != 0 && now - entry.first > WINDOW {
        assert false;
      }
      return 0, false;
    }

    method RecordFailure(key: string, now: Instant) returns (ghost cut: Table)
      requires Valid() && key != ""
      modifies this
      ensures Valid()
      ensures IsCut(Pruned(old(failures), now), cut, MAX_KEYS - 1, Stamp)
      ensures failures == cut[key := Failed(Lookup(cut, key), now)]
    {
      PruneExpired(now);
      failures := EnforceLimit(failures, MAX_KEYS - 1, Stamp);
      cut := failures;
      PrunedSize(old(failures), now);
      var entry := if key in failures then failures[key] else Attempt(0, 0, 0);
      entry := Counted(Lookup(failures, key), entry, now);
      failures := failures[key := entry];
      UpdatedSize(cut, key, entry);
    }

    /** The entry, or the zero entry of an unknown key, with one failure more. */
    static method Counted(ghost known: Option<Attempt>, found: Attempt, now: Instant) returns (entry: Attempt)
      requires found == if known.Some? then known.value else Attempt(0, 0, 0)
      ensures entry == Failed(known, now)
    {
      entry := found;
      if entry.first == 0 || now - entry.first > WINDOW {
        entry := Attempt(0, now, 0);
      }
      entry := entry.(failures := entry.failures + 1);
      if entry.failures >= MAX_FAILURES {
        entry := entry.(lockedUntil := now + LOCKOUT);
      }
    }

    method RecordSuccess(key: string)
      requires Valid()
      modifies this
      ensures Valid() && failures == old(failures) - {key}
    {
      failures := failures - {key};
      assert failures.Keys <= old(failures).Keys;
      SubsetSize(failures.Keys, old(failures).Keys);
    }

    /** The order the login handler follows. */
    method Login(a: Login) returns (blocked: bool, ghost cut: Table)
      requires Valid() && a.key != ""
      modifies this
      ensures Valid() && blocked == Blocked(old(failures), a.key, a.checkedAt)
      ensures LoginStep(old(failures), a, cut, failures)
    {
      var wait;
      wait, blocked := RetryAfter(a.key, a.checkedAt);
      cut := failures;
      if blocked {
        return;
      }
      if !a.accepted {
        cut := RecordFailure(a.key, a.recordedAt);
        return;
      }
      RecordSuccess(a.key);
    }
  }

  lemma UpdatedSize(t: Table, key: string, a: Attempt)
    ensures |t[key := a]| <= |t| + 1
  {
    assert t[key := a].Keys == t.Keys + {key};
  }

  lemma PrunedSize(t: Table, now: Time)
    ensures |Pruned(t, now)| <= |t|
  {
    SubsetSize(Pruned(t, now).Keys, t.Keys);
  }

  // ---------------------------------------------------------------------
  // One key's entry over a run
  // ---------------------------------------------------------------------

  function Fresh(e: Option<Attempt>, now: Time): Option<Attempt> {
    if e.Some? && Stale(e.value, now) then None else e
  }

  /** The failures recorded for one key, and for each the index of the failure
      that opened its window. */
  datatype Record = Record(times: seq<Time>, opener: seq<nat>)

  /** n is the number of the key's logins that may be past their check at once; in a
      sequential run it is one. */
  ghost predicate WellFormed(r: Record, n: nat) {
    && |r.opener| == |r.times|
    && (forall i :: 0 <= i < |r.times| ==> r.opener[i] <= i <= r.opener[i] + n + MAX_FAILURES - 2)
    && (forall i, j :: 0 <= i < j < |r.times| ==> r.times[i] <= r.times[j])
    && (forall i :: 0 < i < |r.times| ==> Linked(r, n, i))
  }

  /** Failure i opens a window: the window before has passed, and with it the lock if
      that window was as full as it can get. */
  ghost predicate NewWindow(r: Record, n: nat, i: nat)
    requires 0 < i < |r.times| == |r.opener| && r.opener[i - 1] <= i - 1
  {
    && r.opener[i] == i
    && r.times[i] - r.times[r.opener[i - 1]] > WINDOW
    && (i >= r.opener[i - 1] + n + MAX_FAILURES - 1 ==> r.times[i] >= r.times[i - 1] + LOCKOUT)
  }

  /** Two failures in a row: one window, or the second opens a new one. */
  ghost predicate Linked(r: Record, n: nat, i: nat)
    requires 0 < i < |r.times| == |r.opener| && r.opener[i - 1] <= i - 1
  {
    r.opener[i] == r.opener[i - 1] || NewWindow(r, n, i)
  }

  /** With at most n logins past their check, 2n + 7 failures in a row span more than
      five minutes: nine in a sequential run. */
  lemma FailuresSpanWindow(r: Record, n: nat, i: nat)
    requires WellFormed(r, n) && n >= 1 && i + 2 * n + 6 < |r.times|
    ensures r.times[i + 2 * n + 6] - r.times[i] > WINDOW
  {
    var p := NextWindow(r, n, i);
    if p == r.opener[i] + n + MAX_FAILURES - 1 || r.opener[i] == i {
    } else {
      var q := NextWindow(r, n, p);
      assert q <= i + 2 * n + 6;
    }
  }

  /** The next failure that opens a window comes at most n + 4 after the last. */
  lemma NextWindow(r: Record, n: nat, i: nat) returns (p: nat)
    requires WellFormed(r, n) && n >= 1 && i < |r.times| && r.opener[i] + n + MAX_FAILURES - 1 < |r.times|
    ensures i < p <= r.opener[i] + n + MAX_FAILURES - 1 && NewWindow(r, n, p) && r.opener[p - 1] == r.opener[i]
  {
    p := i + 1;
    assert Linked(r, n, p);
    while r.opener[p] == r.opener[i]
      invariant i < p <= r.opener[i] + n + MAX_FAILURES - 1
      invariant Linked(r, n, p)
      invariant r.opener[p - 1] == r.opener[i]
      decreases |r.times| - p
    {
      p := p + 1;
      assert Linked(r, n, p);
    }
  }

  /** What the table's entry for a key says about its recorded failures, while flying of
      its logins are past their check. Once the key is locked no other passes it, so the
      window cannot grow by more than them. */
  ghost predicate Tells(e: Option<Attempt>, r: Record, now: Time, n: nat, flying: nat) {
    && WellFormed(r, n) && flying <= n
    && if r.times == [] then e.None?
       else
         var last := |r.times| - 1;
         var o := r.opener[last];
         && r.times[last] <= now && r.times[0] > 0
         && match e
            case Some(a) =>
              && a.first == r.times[o] && a.failures == last - o + 1
              && a.lockedUntil == (if a.failures >= MAX_FAILURES then r.times[last] + LOCKOUT else 0)
              && (Locked(a, now) ==> a.failures + flying <= n + MAX_FAILURES - 1)
            case None =>
              && now - r.times[o] > WINDOW
              && (last - o + 1 >= MAX_FAILURES ==> now >= r.times[last] + LOCKOUT)
  }

  lemma FreshTells(e: Option<Attempt>, r: Record, before: Time, now: Time, n: nat, flying: nat)
    requires Tells(e, r, before, n, flying) && before <= now
    ensures Tells(Fresh(e, now), r, now, n, flying)
  {
  }

  /** A login passes its check. */
  lemma CheckTells(e: Option<Attempt>, r: Record, now: Time, n: nat, flying: nat)
    requires Tells(e, r, now, n, flying) && flying < n && (e.Some? ==> !Locked(e.value, now))
    ensures Tells(e, r, now, n, flying + 1)
  {
  }

  /** A login that fails opens a new window when there is no entry, or when its window has
      passed, be it locked. */
  predicate Opens(e: Option<Attempt>, r: Record, now: Time) {
    e.None? || r.opener == [] || now - e.value.first > WINDOW
  }

  function Extended(e: Option<Attempt>, r: Record, now: Time): Record {
    Record(r.times + [now], r.opener + [if Opens(e, r, now) then |r.times| else r.opener[|r.opener| - 1]])
  }

  lemma StillLinked(r: Record, n: nat, now: Time, opener: nat, i: nat)
    requires WellFormed(r, n) && 0 < i < |r.times|
    ensures Linked(Record(r.times + [now], r.opener + [opener]), n, i)
  {
    assert Linked(r, n, i);
  }

  /** Appending a failure that stays in the last window, or opens a new one. */
  lemma AppendedWellFormed(r: Record, n: nat, now: Time, opener: nat)
    requires WellFormed(r, n) && n >= 1 && (r.times != [] ==> r.times[|r.times| - 1] <= now)
    requires opener <= |r.times| <= opener + n + MAX_FAILURES - 2
    requires r.times != [] ==>
      var last := r.opener[|r.times| - 1];
      opener == last || (opener == |r.times| && now - r.times[last] > WINDOW
        && (|r.times| >= last + n + MAX_FAILURES - 1 ==> now >= r.times[|r.times| - 1] + LOCKOUT))
    ensures WellFormed(Record(r.times + [now], r.opener + [opener]), n)
  {
    var x := Record(r.times + [now], r.opener + [opener]);
    forall i | 0 < i <= |r.times| ensures Linked(x, n, i) {
      if i < |r.times| {
        StillLinked(r, n, now, opener, i);
      }
    }
  }

  lemma ExtendedWellFormed(e: Option<Attempt>, r: Record, now: Instant, n: nat, flying: nat)
    requires Tells(e, r, now, n, flying) && flying >= 1 && Fresh(e, now) == e
    ensures WellFormed(Extended(e, r, now), n)
  {
    AppendedWellFormed(r, n, now, if Opens(e, r, now) then |r.times| else r.opener[|r.opener| - 1]);
  }

  /** A login that was past its check fails. */
  lemma FailureTells(e: Option<Attempt>, r: Record, now: Instant, n: nat, flying: nat)
    requires Tells(e, r, now, n, flying) && flying >= 1 && Fresh(e, now) == e
    ensures Tells(Some(Failed(e, now)), Extended(e, r, now), now, n, flying - 1)
  {
    ExtendedWellFormed(e, r, now, n, flying);
    var x := Extended(e, r, now);
    assert x.times[|r.times|] == now;
    assert r.times != [] ==> x.times[0] == r.times[0];
    assert e.Some? ==> x.times[r.opener[|r.times| - 1]] == r.times[r.opener[|r.times| - 1]];
  }

  // ---------------------------------------------------------------------
  // Whole runs of the table
  // ---------------------------------------------------------------------

  datatype Entry = Entry(login: Login, cut: Table, after: Table)

  ghost predicate IsRun(t: Table, run: seq<Entry>, since: Time)
    decreases |run|
  {
    run == [] ||
    (var e := run[0];
     && since <= e.login.checkedAt <= e.login.recordedAt
     && LoginStep(t, e.login, e.cut, e.after)
     && IsRun(e.after, run[1..], e.login.recordedAt))
  }

  /** The key neither logs in nor loses its entry to the table's bound. */
  ghost predicate Undisturbed(t: Table, run: seq<Entry>, key: string)
    decreases |run|
  {
    run == [] || (Spared(t, run[0], key) && Undisturbed(run[0].after, run[1..], key))
  }

  ghost predicate Spared(t: Table, e: Entry, key: string) {
    && !(e.login.key == key && e.login.accepted && !Blocked(t, key, e.login.checkedAt))
    && (RecordsFailure(t, e.login) && key in Pruned(Pruned(t, e.login.checkedAt), e.login.recordedAt) ==> key in e.cut)
  }

  /** When failures of the key were recorded. */
  function FailuresOf(t: Table, run: seq<Entry>, key: string): seq<Time>
    decreases |run|
  {
    if run == [] then []
    else
      var e := run[0];
      (if e.login.key == key && RecordsFailure(t, e.login) then [e.login.recordedAt] else [])
      + FailuresOf(e.after, run[1..], key)
  }

  /** What a login does to an undisturbed key's entry. */
  lemma StepOnKey(t: Table, a: Login, cut: Table, after: Table, key: string)
    requires LoginStep(t, a, cut, after) && a.checkedAt <= a.recordedAt
    requires Spared(t, Entry(a, cut, after), key)
    ensures var checked := Fresh(Lookup(t, key), a.checkedAt);
      var recorded := Fresh(checked, a.recordedAt);
      Lookup(after, key) ==
        if !RecordsFailure(t, a) then checked
        else if a.key == key then Some(Failed(recorded, a.recordedAt))
        else recorded
  {
    assert Lookup(Pruned(t, a.checkedAt), key) == Fresh(Lookup(t, key), a.checkedAt);
    assert Lookup(Pruned(Pruned(t, a.checkedAt), a.recordedAt), key) == Fresh(Fresh(Lookup(t, key), a.checkedAt), a.recordedAt);
  }

  lemma RecordGrows(t: Table, e: Entry, key: string, r: Record, since: Time) returns (more: Record)
    requires Tells(Lookup(t, key), r, since, 1, 0) && since <= e.login.checkedAt <= e.login.recordedAt
    requires LoginStep(t, e.login, e.cut, e.after) && Spared(t, e, key)
    ensures Tells(Lookup(e.after, key), more, e.login.recordedAt, 1, 0)
    ensures more.times == r.times +
      (if e.login.key == key && RecordsFailure(t, e.login) then [e.login.recordedAt] else [])
  {
    var a := e.login;
    StepOnKey(t, a, e.cut, e.after, key);
    var checked := Fresh(Lookup(t, key), a.checkedAt);
    var recorded := Fresh(checked, a.recordedAt);
    FreshTells(Lookup(t, key), r, since, a.checkedAt, 1, 0);
    more := r;
    if RecordsFailure(t, a) && a.key == key {
      CheckTells(checked, r, a.checkedAt, 1, 0);
      FreshTells(checked, r, a.checkedAt, a.recordedAt, 1, 1);
      FailureTells(recorded, r, a.recordedAt, 1, 1);
      more := Extended(recorded, r, a.recordedAt);
    } else {
      FreshTells(checked, r, a.checkedAt, a.recordedAt, 1, 0);
      if !RecordsFailure(t, a) {
        TellsLater(checked, r, a.checkedAt, a.recordedAt, 1, 0);
      }
    }
  }

  lemma TellsLater(e: Option<Attempt>, r: Record, before: Time, now: Time, n: nat, flying: nat)
    requires Tells(e, r, before, n, flying) && before <= now
    ensures Tells(e, r, now, n, flying)
  {
  }

  lemma {:induction false} RunRecord(t: Table, run: seq<Entry>, key: string, r: Record, since: Time) returns (more: Record)
    requires IsRun(t, run, since) && Undisturbed(t, run, key) && Tells(Lookup(t, key), r, since, 1, 0)
    ensures WellFormed(more, 1) && more.times == r.times + FailuresOf(t, run, key)
    decreases |run|
  {
    if run == [] {
      more := r;
      assert r.times + [] == r.times;
    } else {
      var e, rest := run[0], run[1..];
      var next := RecordGrows(t, e, key, r, since);
      more := RunRecord(e.after, rest, key, next, e.login.recordedAt);
      var first := if e.login.key == key && RecordsFailure(t, e.login) then [e.login.recordedAt] else [];
      Associative(r.times, first, FailuresOf(e.after, rest, key));
    }
  }

  /** In any sequential run on a clock that does not go back, a key that neither
      logs in nor is evicted has at most eight failures in five minutes: any nine
      in a row span more. */
  lemma EightPerWindow(run: seq<Entry>, key: string, since: Time, i: nat)
    requires IsRun(map[], run, since) && Undisturbed(map[], run, key)
    requires i + 8 < |FailuresOf(map[], run, key)|
    ensures FailuresOf(map[], run, key)[i + 8] - FailuresOf(map[], run, key)[i] > WINDOW
  {
    var r := RunRecord(map[], run, key, Record([], []), since);
    assert r.times == FailuresOf(map[], run, key);
    NineSpanWindow(r, i);
  }

  lemma NineSpanWindow(r: Record, i: nat)
    requires WellFormed(r, 1) && i + 8 < |r.times|
    ensures r.times[i + 8] - r.times[i] > WINDOW
  {
    FailuresSpanWindow(r, 1, i);
  }

  function TableBefore(t: Table, run: seq<Entry>, i: nat): Table
    requires i < |run|
  {
    if i == 0 then t else run[i - 1].after
  }

  // ---------------------------------------------------------------------
  // What can end a lock
  // ---------------------------------------------------------------------

  /** What a failure finds when it makes room: the table pruned at both readings. */
  function Kept(t: Table, a: Login): Table {
    Pruned(Pruned(t, a.checkedAt), a.recordedAt)
  }

  /** The login's failure finds the table full of keys none of which is stamped
      earlier than this one. The stamp is the window's start, so a lock is no
      protection. */
  ghost predicate MayEvict(t: Table, a: Login, key: string) {
    && RecordsFailure(t, a) && a.key != key
    && key in Kept(t, a) && |Kept(t, a)| == MAX_KEYS
    && forall k :: k in Kept(t, a) ==> Stamp(t[key]) <= Stamp(t[k])
  }

  /** Another key left bears the same stamp, so the map's walking order decides. */
  ghost predicate Tied(t: Table, a: Login, key: string)
    requires key in t
  {
    exists k :: k in Kept(t, a) && k != key && Stamp(t[k]) == Stamp(t[key])
  }

  ghost predicate Evicts(t: Table, e: Entry, key: string) {
    MayEvict(t, e.login, key) && (Tied(t, e.login, key) ==> key !in e.cut)
  }

  lemma LockIsKept(t: Table, a: Login, key: string)
    requires a.checkedAt <= a.recordedAt && Blocked(t, key, a.recordedAt)
    ensures key in Kept(t, a) && key in Pruned(t, a.checkedAt) && Blocked(t, key, a.checkedAt)
  {
    assert key in Pruned(t, a.checkedAt);
  }

  lemma CutMeansMayEvict(t: Table, a: Login, cut: Table, key: string)
    requires |t| <= MAX_KEYS && RecordsFailure(t, a) && a.key != key
    requires IsCut(Kept(t, a), cut, MAX_KEYS - 1, Stamp) && key in Kept(t, a) && key !in cut
    ensures MayEvict(t, a, key)
  {
    var kept := Kept(t, a);
    SubsetSize(kept.Keys, t.Keys);
    if |kept| <= MAX_KEYS - 1 {
      CutOfSmallIsAll(kept, cut, MAX_KEYS - 1, Stamp);
    }
    OnlyOneDropped(kept, cut, key);
  }

  lemma OnlyOneDropped(kept: Table, cut: Table, key: string)
    requires cut.Keys <= kept.Keys && |cut| == |kept| - 1 && key in kept && key !in cut
    ensures cut.Keys == kept.Keys - {key}
  {
    assert |kept.Keys - {key}| == |kept| - 1;
    SubsetSize(cut.Keys, kept.Keys - {key});
  }

  lemma SureCut(t: Table, a: Login, cut: Table, key: string)
    requires MayEvict(t, a, key) && !Tied(t, a, key) && IsCut(Kept(t, a), cut, MAX_KEYS - 1, Stamp)
    ensures key !in cut
  {
    var kept := Kept(t, a);
    assert |cut.Keys| < |kept.Keys|;
    assert |kept.Keys - cut.Keys| > 0;
    var d :| d in kept.Keys - cut.Keys;
  }

  /** One login: a lock that has not run out stays as it is, unless the login's
      failure evicts it. */
  lemma LockLostExactly(t: Table, e: Entry, key: string)
    requires LoginStep(t, e.login, e.cut, e.after) && e.login.checkedAt <= e.login.recordedAt
    requires |t| <= MAX_KEYS && Blocked(t, key, e.login.recordedAt)
    ensures Evicts(t, e, key) ==> key !in e.after
    ensures !Evicts(t, e, key) ==> key in e.after && e.after[key] == t[key]
  {
    LockIsKept(t, e.login, key);
    if RecordsFailure(t, e.login) {
      if key !in e.cut {
        CutMeansMayEvict(t, e.login, e.cut, key);
      } else if MayEvict(t, e.login, key) && !Tied(t, e.login, key) {
        SureCut(t, e.login, e.cut, key);
      }
    }
  }

  lemma CutWithout(t: Table, a: Login, least: string)
    requires RecordsFailure(t, a) && |Kept(t, a)| == MAX_KEYS && least in Kept(t, a)
    requires forall k :: k in Kept(t, a) ==> Stamp(t[least]) <= Stamp(t[k])
    ensures var cut := Kept(t, a) - {least}; LoginStep(t, a, cut, cut[a.key := Failed(Lookup(cut, a.key), a.recordedAt)])
  {
    var kept := Kept(t, a);
    assert (kept - {least}).Keys == kept.Keys - {least};
    assert |(kept - {least}).Keys| == |kept - {least}|;
  }

  lemma {:induction false} LeastStamp(t: Table, keys: set<string>) returns (least: string)
    requires keys != {} && keys <= t.Keys
    ensures least in keys && forall k :: k in keys ==> Stamp(t[least]) <= Stamp(t[k])
    decreases |keys|
  {
    least :| least in keys;
    var rest := keys - {least};
    assert keys == rest + {least};
    if rest != {} {
      var other := LeastStamp(t, rest);
      least := if Stamp(t[other]) < Stamp(t[least]) then other else least;
    }
  }

  /** Unless its eviction is certain, a lock can survive the login. */
  lemma SomeStepSpares(t: Table, a: Login, key: string) returns (cut: Table, after: Table)
    requires |t| <= MAX_KEYS && a.checkedAt <= a.recordedAt && Blocked(t, key, a.recordedAt)
    requires MayEvict(t, a, key) ==> Tied(t, a, key)
    ensures LoginStep(t, a, cut, after) && key in after
  {
    LockIsKept(t, a, key);
    var kept := Kept(t, a);
    SubsetSize(kept.Keys, t.Keys);
    cut := kept;
    if !RecordsFailure(t, a) {
      after := if a.accepted && !Blocked(t, a.key, a.checkedAt) then Pruned(t, a.checkedAt) - {a.key} else Pruned(t, a.checkedAt);
    } else {
      if |kept| == MAX_KEYS {
        var least := OtherLeast(t, a, key);
        cut := kept - {least};
        CutWithout(t, a, least);
      }
      after := cut[a.key := Failed(Lookup(cut, a.key), a.recordedAt)];
    }
  }

  lemma OtherLeast(t: Table, a: Login, key: string) returns (least: string)
    requires RecordsFailure(t, a) && a.key != key && key in Kept(t, a) && |Kept(t, a)| == MAX_KEYS
    requires MayEvict(t, a, key) ==> Tied(t, a, key)
    ensures least != key && least in Kept(t, a) && forall k :: k in Kept(t, a) ==> Stamp(t[least]) <= Stamp(t[k])
  {
    if MayEvict(t, a, key) {
      least :| least in Kept(t, a) && least != key && Stamp(t[least]) == Stamp(t[key]);
    } else {
      least := LeastStamp(t, Kept(t, a).Keys);
    }
  }

  /** Some outcome of the login takes the key's entry away. */
  ghost predicate LostAt(t: Table, a: Login, key: string) {
    exists cut, after :: LoginStep(t, a, cut, after) && key !in after
  }

  /** The condition before the call: a lock can be lost to a login exactly when the
      table is full of keys that began no earlier, and is lost for certain exactly
      when they all began later. */
  lemma EvictionExactly(t: Table, a: Login, key: string)
    requires |t| <= MAX_KEYS && a.checkedAt <= a.recordedAt && Blocked(t, key, a.recordedAt)
    ensures LostAt(t, a, key) <==> MayEvict(t, a, key)
    ensures (forall cut, after :: LoginStep(t, a, cut, after) ==> key !in after) <==> MayEvict(t, a, key) && !Tied(t, a, key)
  {
    forall cut, after | LoginStep(t, a, cut, after)
      ensures key !in after ==> MayEvict(t, a, key)
      ensures MayEvict(t, a, key) && !Tied(t, a, key) ==> key !in after
    {
      LockLostExactly(t, Entry(a, cut, after), key);
    }
    if MayEvict(t, a, key) {
      CutWithout(t, a, key);
    }
    if MayEvict(t, a, key) ==> Tied(t, a, key) {
      var cut, after := SomeStepSpares(t, a, key);
    }
  }

  lemma StepBounded(t: Table, a: Login, cut: Table, after: Table)
    requires LoginStep(t, a, cut, after) && |t| <= MAX_KEYS
    ensures |after| <= MAX_KEYS
  {
    if RecordsFailure(t, a) {
      UpdatedSize(cut, a.key, Failed(Lookup(cut, a.key), a.recordedAt));
    } else {
      SubsetSize(after.Keys, t.Keys);
    }
  }

  lemma {:induction false} TablesBounded(t: Table, run: seq<Entry>, since: Time, i: nat)
    requires IsRun(t, run, since) && i < |run| && |t| <= MAX_KEYS
    ensures |TableBefore(t, run, i)| <= MAX_KEYS
    decreases i
  {
    if i > 0 {
      StepBounded(t, run[0].login, run[0].cut, run[0].after);
      TablesBounded(run[0].after, run[1..], run[0].login.recordedAt, i - 1);
      assert TableBefore(run[0].after, run[1..], i - 1) == TableBefore(t, run, i);
    }
  }

  lemma {:induction false} StepAt(t: Table, run: seq<Entry>, since: Time, i: nat)
    requires IsRun(t, run, since) && i < |run|
    ensures var e := run[i];
      LoginStep(TableBefore(t, run, i), e.login, e.cut, e.after) && e.login.checkedAt <= e.login.recordedAt
    decreases i
  {
    if i > 0 {
      StepAt(run[0].after, run[1..], run[0].login.recordedAt, i - 1);
      assert TableBefore(run[0].after, run[1..], i - 1) == TableBefore(t, run, i);
    }
  }

  ghost predicate Stands(run: seq<Entry>, key: string, a: Attempt, i: nat)
    requires i < |run|
  {
    key in run[i].after && run[i].after[key] == a
  }

  lemma {:induction false} NeighboursForward(t: Table, run: seq<Entry>, since: Time, i: nat)
    requires IsRun(t, run, since) && 0 < i < |run|
    ensures run[i - 1].login.recordedAt <= run[i].login.recordedAt
    decreases i
  {
    if i == 1 {
      TimesForward(t, run, since, 1);
    } else {
      NeighboursForward(run[0].after, run[1..], run[0].login.recordedAt, i - 1);
    }
  }

  ghost predicate AllStand(run: seq<Entry>, key: string, a: Attempt, n: nat)
    requires n <= |run|
  {
    n == 0 || (AllStand(run, key, a, n - 1) && Stands(run, key, a, n - 1))
  }

  ghost predicate NoneEvicts(t: Table, run: seq<Entry>, key: string, n: nat)
    requires n <= |run|
  {
    n == 0 || (NoneEvicts(t, run, key, n - 1) && !Evicts(TableBefore(t, run, n - 1), run[n - 1], key))
  }

  lemma StandsAtStep(t: Table, run: seq<Entry>, key: string, since: Time, i: nat)
    requires IsRun(t, run, since) && i < |run| && |t| <= MAX_KEYS && Blocked(t, key, run[i].login.recordedAt)
    requires i > 0 ==> Stands(run, key, t[key], i - 1)
    ensures Stands(run, key, t[key], i) <==> !Evicts(TableBefore(t, run, i), run[i], key)
  {
    StepAt(t, run, since, i);
    TablesBounded(t, run, since, i);
    LockLostExactly(TableBefore(t, run, i), run[i], key);
  }

  lemma {:induction false} HoldsUnlessEvicted(t: Table, run: seq<Entry>, key: string, since: Time, i: nat)
    requires IsRun(t, run, since) && i < |run| && |t| <= MAX_KEYS && Blocked(t, key, run[i].login.recordedAt)
    ensures AllStand(run, key, t[key], i + 1) <==> NoneEvicts(t, run, key, i + 1)
    decreases i
  {
    if i > 0 {
      NeighboursForward(t, run, since, i);
      HoldsUnlessEvicted(t, run, key, since, i - 1);
    }
    if AllStand(run, key, t[key], i) {
      StandsAtStep(t, run, key, since, i);
    }
  }

  /** A lock, once set, holds until its end exactly as long as no other key's
      failure evicts it. While it holds, every login of the key is refused, and the
      next login can end it just when its failure would find the table full of keys
      that began no earlier. */
  lemma {:induction false} LockHolds(t: Table, run: seq<Entry>, key: string, since: Time, i: nat)
    requires IsRun(t, run, since) && i < |run| && |t| <= MAX_KEYS && Blocked(t, key, run[i].login.recordedAt)
    ensures AllStand(run, key, t[key], i + 1) <==> NoneEvicts(t, run, key, i + 1)
    ensures AllStand(run, key, t[key], i) ==>
      (LostAt(TableBefore(t, run, i), run[i].login, key) <==> MayEvict(TableBefore(t, run, i), run[i].login, key))
    ensures AllStand(run, key, t[key], i) && run[i].login.key == key ==>
      Blocked(TableBefore(t, run, i), key, run[i].login.checkedAt)
  {
    HoldsUnlessEvicted(t, run, key, since, i);
    if AllStand(run, key, t[key], i) {
      assert i > 0 ==> Stands(run, key, t[key], i - 1);
      StepAt(t, run, since, i);
      TablesBounded(t, run, since, i);
      EvictionExactly(TableBefore(t, run, i), run[i].login, key);
    }
  }

  lemma {:induction false} TimesForward(t: Table, run: seq<Entry>, since: Time, i: nat)
    requires IsRun(t, run, since) && i < |run|
    ensures since <= run[0].login.recordedAt <= run[i].login.recordedAt
    ensures since <= run[i].login.checkedAt <= run[i].login.recordedAt
    decreases |run|
  {
    if i > 0 {
      TimesForward(run[0].after, run[1..], run[0].login.recordedAt, i - 1);
    }
  }

  // ---------------------------------------------------------------------
  // The bound is reached
  // ---------------------------------------------------------------------

  /** Client address and name, joined as the login handler joins them. */
  const VICTIM := "d|l"

  /** A table with one key at most. */
  function Solo(key: string, e: Option<Attempt>): Table {
    if e.Some? then map[key := e.value] else map[]
  }

  function SoloEntry(key: string, e: Option<Attempt>, now: Instant): Entry {
    var kept := Fresh(e, now);
    Entry(Login(key, now, now, false), Solo(key, kept), Solo(key, Some(Failed(kept, now))))
  }

  function SoloRun(key: string, e: Option<Attempt>, times: seq<Instant>): seq<Entry>
    decreases |times|
  {
    if times == [] then []
    else [SoloEntry(key, e, times[0])] + SoloRun(key, Some(Failed(Fresh(e, times[0]), times[0])), times[1..])
  }

  predicate NeverLocked(e: Option<Attempt>, times: seq<Instant>, since: Time)
    decreases |times|
  {
    times == [] ||
    (since <= times[0] && !(e.Some? && Locked(e.value, times[0]))
     && NeverLocked(Some(Failed(Fresh(e, times[0]), times[0])), times[1..], times[0]))
  }

  lemma SoloStep(key: string, e: Option<Attempt>, now: Instant)
    requires !(e.Some? && Locked(e.value, now))
    ensures var x := SoloEntry(key, e, now);
      LoginStep(Solo(key, e), x.login, x.cut, x.after) && Spared(Solo(key, e), x, key) && RecordsFailure(Solo(key, e), x.login)
  {
    var x := SoloEntry(key, e, now);
    var kept := Fresh(e, now);
    assert Pruned(Solo(key, e), now) == Solo(key, kept);
    assert Pruned(Solo(key, kept), now) == Solo(key, kept);
    assert |Solo(key, kept)| <= 1;
    assert x.after == x.cut[key := Failed(Lookup(x.cut, key), now)];
  }

  /** One entry more in front of a run. */
  lemma ConsRecords(t: Table, e: Entry, rest: seq<Entry>, key: string, since: Time)
    requires since <= e.login.checkedAt <= e.login.recordedAt && LoginStep(t, e.login, e.cut, e.after)
    requires IsRun(e.after, rest, e.login.recordedAt) && Spared(t, e, key) && Undisturbed(e.after, rest, key)
    ensures IsRun(t, [e] + rest, since) && Undisturbed(t, [e] + rest, key)
    ensures FailuresOf(t, [e] + rest, key) ==
      (if e.login.key == key && RecordsFailure(t, e.login) then [e.login.recordedAt] else []) + FailuresOf(e.after, rest, key)
  {
    assert ([e] + rest)[1..] == rest;
  }

  lemma {:induction false} SoloRunRecords(key: string, e: Option<Attempt>, times: seq<Instant>, since: Time)
    requires NeverLocked(e, times, since)
    ensures IsRun(Solo(key, e), SoloRun(key, e, times), since)
    ensures Undisturbed(Solo(key, e), SoloRun(key, e, times), key)
    ensures FailuresOf(Solo(key, e), SoloRun(key, e, times), key) == times
    decreases |times|
  {
    if times != [] {
      SoloStep(key, e, times[0]);
      var next := Some(Failed(Fresh(e, times[0]), times[0]));
      SoloRunRecords(key, next, times[1..], times[0]);
      ConsRecords(Solo(key, e), SoloEntry(key, e, times[0]), SoloRun(key, next, times[1..]), key, since);
    }
  }

  lemma OneMoreUnlocked(e: Option<Attempt>, now: Instant, times: seq<Instant>, since: Time)
    requires since <= now && !(e.Some? && Locked(e.value, now))
    requires NeverLocked(Some(Failed(Fresh(e, now), now)), times, now)
    ensures NeverLocked(e, [now] + times, since)
  {
    assert ([now] + times)[1..] == times;
  }

  /** Failures at one instant, the last of which may lock. */
  lemma {:induction false} SameInstant(a: Attempt, n: nat, now: Instant)
    requires 0 <= now - a.first <= WINDOW && a.first > 0 && a.lockedUntil == 0 && a.failures + n <= MAX_FAILURES
    ensures NeverLocked(Some(a), Times(n, now), now)
    decreases n
  {
    if n > 0 {
      var next := Failed(Some(a), now);
      assert next.failures == a.failures + 1;
      if n > 1 {
        SameInstant(next, n - 1, now);
      }
      OneMoreUnlocked(Some(a), now, Times(n - 1, now), now);
    }
  }

  function Times(n: nat, now: Instant): (r: seq<Instant>)
    ensures |r| == n && forall i :: 0 <= i < n ==> r[i] == now
  {
    if n == 0 then [] else [now] + Times(n - 1, now)
  }

  /** One failure, three when its window is about to close, five right after. */
  function ThreeThenFive(): (r: seq<Instant>)
    ensures |r| == 9 && r[1] == 1 + WINDOW && r[8] == 2 + WINDOW
  {
    [1, 1 + WINDOW, 1 + WINDOW, 1 + WINDOW] + Times(5, 2 + WINDOW)
  }

  lemma FreshWindow()
    ensures NeverLocked(Some(Attempt(4, 1, 0)), Times(5, 2 + WINDOW), 1 + WINDOW)
  {
    var b: Instant := 2 + WINDOW;
    SameInstant(Attempt(1, b, 0), 4, b);
    OneMoreUnlocked(Some(Attempt(4, 1, 0)), b, Times(4, b), 1 + WINDOW);
  }

  lemma ThreeThenFiveUnlocked()
    ensures NeverLocked(None, ThreeThenFive(), 0)
  {
    var a: Instant, five := 1 + WINDOW, Times(5, 2 + WINDOW);
    FreshWindow();
    OneMoreUnlocked(Some(Attempt(3, 1, 0)), a, five, a);
    OneMoreUnlocked(Some(Attempt(2, 1, 0)), a, [a] + five, a);
    OneMoreUnlocked(Some(Attempt(1, 1, 0)), a, [a] + ([a] + five), 1);
    OneMoreUnlocked(None, 1, [a] + ([a] + ([a] + five)), 0);
    assert ThreeThenFive() == [1] + ([a] + ([a] + ([a] + five)));
  }

  /** Eight is the best bound: three failures at the end of one window and five at
      the start of the next can fall a nanosecond apart. */
  lemma EightReached()
    ensures exists run, key ::
      && IsRun(map[], run, 0) && Undisturbed(map[], run, key)
      && |FailuresOf(map[], run, key)| == 9
      && FailuresOf(map[], run, key)[8] - FailuresOf(map[], run, key)[1] == 1
  {
    ThreeThenFiveUnlocked();
    SoloRunRecords(VICTIM, None, ThreeThenFive(), 0);
    var run := SoloRun(VICTIM, None, ThreeThenFive());
    assert FailuresOf(map[], run, VICTIM) == ThreeThenFive();
  }

  // ---------------------------------------------------------------------
  // A lock lost to other keys
  // ---------------------------------------------------------------------

  const VICTIM_LOCK := Attempt(MAX_FAILURES, 1, 1 + LOCKOUT)

  /** A key of client c for each number. */
  function Name(i: nat): (r: string)
    ensures |r| == i + 3 && r[0] == 'c' && r[1] == '|'
  {
    if i == 0 then "c|a" else Name(i - 1) + "a"
  }

  /** The locked key and n others, each with one failure at instant 2. */
  ghost predicate IsCrowd(t: Table, n: nat) {
    && |t| == n + 1 && VICTIM in t && t[VICTIM] == VICTIM_LOCK
    && forall k :: k in t && k != VICTIM ==> t[k] == Attempt(1, 2, 0) && |k| <= n + 2
  }

  lemma CrowdUnpruned(t: Table, n: nat, now: Time)
    requires IsCrowd(t, n) && 2 <= now <= 3
    ensures Pruned(t, now) == t
  {
  }

  lemma OneJoins(t: Table, n: nat) returns (e: Entry)
    requires IsCrowd(t, n) && n + 1 <= MAX_KEYS - 1
    ensures e.login == Login(Name(n), 2, 2, false)
    ensures LoginStep(t, e.login, e.cut, e.after) && IsCrowd(e.after, n + 1)
  {
    CrowdUnpruned(t, n, 2);
    assert Name(n) !in t;
    e := Entry(Login(Name(n), 2, 2, false), t, t[Name(n) := Attempt(1, 2, 0)]);
    assert e.after.Keys == t.Keys + {Name(n)};
  }

  lemma ConsRun(t: Table, e: Entry, rest: seq<Entry>, since: Time)
    requires since <= e.login.checkedAt <= e.login.recordedAt && LoginStep(t, e.login, e.cut, e.after)
    requires IsRun(e.after, rest, e.login.recordedAt)
    ensures IsRun(t, [e] + rest, since) && EndOf(t, [e] + rest) == EndOf(e.after, rest)
  {
    assert ([e] + rest)[1..] == rest;
  }

  lemma {:induction false} CrowdGathers(t: Table, n: nat, all: nat) returns (run: seq<Entry>)
    requires IsCrowd(t, n) && n <= all <= MAX_KEYS - 1
    ensures IsRun(t, run, 2) && IsCrowd(EndOf(t, run), all)
    ensures forall j :: 0 <= j < |run| ==> run[j].login.recordedAt == 2
    decreases all - n
  {
    run := [];
    if n < all {
      var e := OneJoins(t, n);
      var rest := CrowdGathers(e.after, n + 1, all);
      ConsRun(t, e, rest, 2);
      run := [e] + rest;
    }
  }

  function EndOf(t: Table, run: seq<Entry>): Table
    decreases |run|
  {
    if run == [] then t else EndOf(run[0].after, run[1..])
  }

  lemma {:induction false} RunsJoin(t: Table, a: seq<Entry>, b: seq<Entry>, since: Time, mid: Time)
    requires IsRun(t, a, since) && IsRun(EndOf(t, a), b, mid) && since <= mid
    requires forall i :: 0 <= i < |a| ==> a[i].login.recordedAt <= mid
    ensures IsRun(t, a + b, since) && EndOf(t, a + b) == EndOf(EndOf(t, a), b)
    decreases |a|
  {
    if a == [] {
      assert a + b == b;
      EarlierStart(t, b, since, mid);
    } else {
      TailOfConcat(a, b);
      RunsJoin(a[0].after, a[1..], b, a[0].login.recordedAt, mid);
    }
  }

  lemma EarlierStart(t: Table, run: seq<Entry>, since: Time, later: Time)
    requires IsRun(t, run, later) && since <= later
    ensures IsRun(t, run, since)
  {
  }

  /** Five failures lock the key at instant 1; then all other keys fail once. */
  lemma CrowdReached(all: nat) returns (run: seq<Entry>)
    requires all <= MAX_KEYS - 1
    ensures IsRun(map[], run, 0) && IsCrowd(EndOf(map[], run), all)
    ensures forall i :: 0 <= i < |run| ==> run[i].login.recordedAt <= 2
  {
    var locking := VictimLocks();
    var locked := EndOf(map[], locking);
    assert locked.Keys == {VICTIM};
    var crowd := CrowdGathers(locked, 0, all);
    RunsJoin(map[], locking, crowd, 0, 2);
    run := locking + crowd;
  }

  lemma VictimLocks() returns (run: seq<Entry>)
    ensures IsRun(map[], run, 0) && EndOf(map[], run) == map[VICTIM := VICTIM_LOCK]
    ensures forall i :: 0 <= i < |run| ==> run[i].login.recordedAt == 1
  {
    var n := 4;
    SameInstant(Attempt(1, 1, 0), n, 1);
    OneMoreUnlocked(None, 1, Times(n, 1), 0);
    run := SoloRun(VICTIM, None, [1] + Times(n, 1));
    SoloRunRecords(VICTIM, None, [1] + Times(n, 1), 0);
    SoloRunTimes(VICTIM, None, [1] + Times(n, 1), 1);
    SoloRunEnds(VICTIM, Attempt(1, 1, 0), n, 1);
    assert ([1] + Times(n, 1))[1..] == Times(n, 1);
    assert run[1..] == SoloRun(VICTIM, Some(Attempt(1, 1, 0)), Times(n, 1));
  }

  lemma {:induction false} SoloRunTimes(key: string, e: Option<Attempt>, times: seq<Instant>, now: Instant)
    requires forall i :: 0 <= i < |times| ==> times[i] == now
    ensures forall i :: 0 <= i < |SoloRun(key, e, times)| ==> SoloRun(key, e, times)[i].login.recordedAt == now
    decreases |times|
  {
    if times != [] {
      SoloRunTimes(key, Some(Failed(Fresh(e, times[0]), times[0])), times[1..], now);
    }
  }

  lemma {:induction false} SoloRunEnds(key: string, a: Attempt, n: nat, now: Instant)
    requires 0 < n && a.failures + n == MAX_FAILURES && a.first == now && a.lockedUntil == 0
    ensures EndOf(Solo(key, Some(a)), SoloRun(key, Some(a), Times(n, now))) == Solo(key, Some(Attempt(MAX_FAILURES, now, now + LOCKOUT)))
    decreases n
  {
    var next := Failed(Some(a), now);
    assert Times(n, now)[1..] == Times(n - 1, now);
    if n > 1 {
      SoloRunEnds(key, next, n - 1, now);
    }
  }

  /** The last entry of the run takes an unexpired lock away. */
  ghost predicate LosesLock(run: seq<Entry>, last: Entry, key: string) {
    && IsRun(map[], run + [last], 0)
    && Blocked(EndOf(map[], run), key, last.login.recordedAt) && key !in last.after
  }

  lemma FullTableEvicts(full: Table, all: nat) returns (last: Entry)
    requires IsCrowd(full, all) && all == MAX_KEYS - 1
    ensures last.login == Login("e|l", 3, 3, false)
    ensures LoginStep(full, last.login, last.cut, last.after) && VICTIM !in last.after
  {
    CrowdUnpruned(full, all, 3);
    var cut := full - {VICTIM};
    assert cut.Keys == full.Keys - {VICTIM};
    last := Entry(Login("e|l", 3, 3, false), cut, cut["e|l" := Failed(Lookup(cut, "e|l"), 3)]);
  }

  /** It does happen: a table full of later keys evicts the locked one. */
  lemma LockCanBeEvicted()
    ensures exists run, last, key :: LosesLock(run, last, key)
  {
    var all := MAX_KEYS - 1;
    var run := CrowdReached(all);
    var last := FullTableEvicts(EndOf(map[], run), all);
    ConsRun(EndOf(map[], run), last, [], 3);
    RunsJoin(map[], run, [last], 0, 3);
    assert LosesLock(run, last, VICTIM);
  }

  // ---------------------------------------------------------------------
  // Counting and locking, in plain terms
  // ---------------------------------------------------------------------

  /** The entry's window is open: it began within the last five minutes. */
  predicate WindowOpen(e: Option<Attempt>, now: Time) {
    e.Some? && e.value.first != 0 && now <= e.value.first + 300_000_000_000
  }

  /** A failure counts on in an open window and starts at one otherwise; from the fifth on
      it locks the key for exactly ten minutes, before it locks nothing anew. */
  lemma FailureMeans(e: Option<Attempt>, now: Instant, t: Time)
    ensures var a, count := Failed(e, now), if WindowOpen(e, now) then e.value.failures + 1 else 1;
      && a.failures == count && a.first == (if WindowOpen(e, now) then e.value.first else now)
      && (count >= 5 ==> (Locked(a, t) <==> t < now + 600_000_000_000))
      && (count < 5 ==> (Locked(a, t) <==> WindowOpen(e, now) && Locked(e.value, t)))
  {
  }

  /** Pruning drops exactly what has no lock running and no window open. */
  lemma DroppedExactly(t: Table, key: string, now: Instant)
    requires key in t
    ensures key !in Pruned(t, now) <==>
      (t[key].lockedUntil == 0 || t[key].lockedUntil <= now) && !WindowOpen(Some(t[key]), now)
    ensures Blocked(t, key, now) <==> t[key].lockedUntil != 0 && !(t[key].lockedUntil <= now)
  {
  }
}
