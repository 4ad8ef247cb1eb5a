/** The status history store: an append-only file and, in memory, its stably
    sorted view cut to the newest events of each subject. */
module History {
  import opened Models
  import opened StableSort
  import opened Collections
  import Text

  const DEFAULT_MAX_PER_SUBJECT := 500

  datatype Filter = Filter(subjectType: SubjectType, subjectId: string, since: Time, limit: int)
  datatype Retention = Retention(maxAge: int, maxPerSubject: int)

  function KeyOf(e: StatusEvent): SubjectKey {
    SubjectKey(e.subjectType, Text.NormalId(e.subjectId))
  }

  predicate Matches(e: StatusEvent, f: Filter) {
    && (f.subjectType == NoType || e.subjectType == f.subjectType)
    && (f.subjectId == "" || Text.EqualFold(e.subjectId, f.subjectId))
    && (f.since == 0 || e.at >= f.since)
  }

  // ---------------------------------------------------------------------
  // keepPerSubject
  // ---------------------------------------------------------------------

  function CountKey(s: seq<StatusEvent>, k: SubjectKey): nat {
    if s == [] then 0 else (if KeyOf(s[0]) == k then 1 else 0) + CountKey(s[1..], k)
  }

  /** An event survives exactly when fewer than cap later events share its subject. */
  function Keep(s: seq<StatusEvent>, cap: int): (r: seq<StatusEvent>)
    ensures |r| <= |s|
  {
    if s == [] then []
    else if CountKey(s[1..], KeyOf(s[0])) < cap then [s[0]] + Keep(s[1..], cap)
    else Keep(s[1..], cap)
  }

  function Min(a: int, b: int): int { if a <= b then a else b }

  lemma {:induction false} KeepCounts(s: seq<StatusEvent>, cap: int, k: SubjectKey)
    requires cap >= 0
    ensures CountKey(Keep(s, cap), k) == Min(cap, CountKey(s, k))
  {
    if s != [] {
      KeepCounts(s[1..], cap, k);
      assert ([s[0]] + Keep(s[1..], cap))[1..] == Keep(s[1..], cap);
    }
  }

  lemma {:induction false} KeepWithinCap(s: seq<StatusEvent>, cap: int)
    requires forall k :: CountKey(s, k) <= cap
    ensures Keep(s, cap) == s
  {
    if s != [] {
      forall k ensures CountKey(s[1..], k) <= cap {
        assert CountKey(s, k) <= cap;
      }
      assert CountKey(s, KeyOf(s[0])) <= cap;
      KeepWithinCap(s[1..], cap);
    }
  }

  lemma KeepTwice(s: seq<StatusEvent>, cap: int)
    requires cap >= 0
    ensures Keep(Keep(s, cap), cap) == Keep(s, cap)
  {
    forall k ensures CountKey(Keep(s, cap), k) <= cap {
      KeepCounts(s, cap, k);
    }
    KeepWithinCap(Keep(s, cap), cap);
  }

  /** Every kept event comes from the input, so order conditions carry over. */
  lemma {:induction false} KeepSorted(s: seq<StatusEvent>, cap: int)
    requires Sorted(s, EventAt)
    ensures Sorted(Keep(s, cap), EventAt)
    ensures forall e :: e in Keep(s, cap) ==> e in s
  {
    if s != [] {
      KeepSorted(s[1..], cap);
      var r := Keep(s[1..], cap);
      forall i | 0 <= i < |r| ensures s[0].at <= r[i].at {
        assert r[i] in s[1..];
      }
    }
  }

  lemma {:induction false} CountInsert(s: seq<StatusEvent>, e: StatusEvent, k: SubjectKey)
    ensures CountKey(Insert(s, e, EventAt), k) == CountKey(s, k) + (if KeyOf(e) == k then 1 else 0)
  {
    if s == [] || e.at < s[0].at {
    } else {
      CountInsert(s[1..], e, k);
      assert Insert(s, e, EventAt)[1..] == Insert(s[1..], e, EventAt);
    }
  }

  /** Dropping old events before a late one is sorted in loses nothing that the
      cap would not drop afterwards anyway. */
  lemma {:induction false} KeepAfterInsert(s: seq<StatusEvent>, e: StatusEvent, cap: int)
    requires cap >= 0 && Sorted(s, EventAt)
    ensures Keep(Insert(s, e, EventAt), cap) == Keep(Insert(Keep(s, cap), e, EventAt), cap)
  {
    var kept := Keep(s, cap);
    if s == [] {
    } else if e.at < s[0].at {
      KeepSorted(s, cap);
      assert kept != [] ==> kept[0] in s;
      assert Insert(s, e, EventAt) == [e] + s;
      assert Insert(kept, e, EventAt) == [e] + kept;
      assert ([e] + s)[1..] == s && ([e] + kept)[1..] == kept;
      KeepCounts(s, cap, KeyOf(e));
      KeepTwice(s, cap);
    } else {
      var k := KeyOf(s[0]);
      KeepAfterInsert(s[1..], e, cap);
      CountInsert(s[1..], e, k);
      assert Insert(s, e, EventAt)[1..] == Insert(s[1..], e, EventAt);
      if CountKey(s[1..], k) < cap {
        var r := Keep(s[1..], cap);
        assert kept == [s[0]] + r && kept[1..] == r;
        assert Insert(kept, e, EventAt) == [s[0]] + Insert(r, e, EventAt);
        assert Insert(kept, e, EventAt)[1..] == Insert(r, e, EventAt);
        CountInsert(r, e, k);
        KeepCounts(s[1..], cap, k);
      }
    }
  }

  /** What memory holds for a given file: stably sorted, newest cap per subject. */
  function View(file: seq<StatusEvent>, cap: int): seq<StatusEvent> {
    Keep(Sort(file, EventAt), cap)
  }

  lemma ViewTwice(file: seq<StatusEvent>, cap: int)
    requires cap >= 0
    ensures View(View(file, cap), cap) == View(file, cap)
  {
    SortIsStable(file, EventAt);
    KeepSorted(Sort(file, EventAt), cap);
    SortedIsFixed(View(file, cap), EventAt);
    KeepTwice(Sort(file, EventAt), cap);
  }

  lemma ViewAppend(s: seq<StatusEvent>, e: StatusEvent, cap: int)
    requires cap >= 0
    ensures View(s + [e], cap) == Keep(Insert(View(s, cap), e, EventAt), cap)
  {
    SortAppend(s, e, EventAt);
    SortIsStable(s, EventAt);
    KeepAfterInsert(Sort(s, EventAt), e, cap);
  }

  lemma ViewCongruence(a: seq<StatusEvent>, b: seq<StatusEvent>, e: StatusEvent, cap: int)
    requires cap >= 0 && View(a, cap) == View(b, cap)
    ensures View(a + [e], cap) == View(b + [e], cap)
  {
    ViewAppend(a, e, cap);
    ViewAppend(b, e, cap);
  }

  /** Memory may forget: keep(sort(keep(sort(f)) ++ new)) == keep(sort(f ++ new)). */
  lemma {:induction false} ForgettingIsHarmless(file: seq<StatusEvent>, added: seq<StatusEvent>, cap: int)
    requires cap >= 0
    ensures View(View(file, cap) + added, cap) == View(file + added, cap)
  {
    var mem := View(file, cap);
    if added == [] {
      assert mem + added == mem && file + added == file;
      ViewTwice(file, cap);
    } else {
      var n := |added| - 1;
      assert added == added[..n] + [added[n]];
      assert mem + added == (mem + added[..n]) + [added[n]];
      assert file + added == (file + added[..n]) + [added[n]];
      ForgettingIsHarmless(file, added[..n], cap);
      ViewCongruence(mem + added[..n], file + added[..n], added[n], cap);
    }
  }

  // ---------------------------------------------------------------------
  // The store as a state machine
  // ---------------------------------------------------------------------

  datatype Store = Store(file: seq<StatusEvent>, events: seq<StatusEvent>, maxPerSubject: int)

  datatype Op =
    | Append(added: seq<StatusEvent>)
    | Clear(filter: Filter)
    | Prune(retention: Retention, now: Instant)

  function Opened(file: seq<StatusEvent>, maxPerSubject: int): Store {
    var cap := if maxPerSubject <= 0 then DEFAULT_MAX_PER_SUBJECT else maxPerSubject;
    Store(file, View(file, cap), cap)
  }

  /** The events a predicate rejects, in order. */
  function Without(s: seq<StatusEvent>, drop: StatusEvent -> bool): (r: seq<StatusEvent>)
    ensures |r| <= |s|
    ensures forall e :: e in r <==> e in s && !drop(e)
  {
    if s == [] then []
    else
      var rest := Without(s[1..], drop);
      assert forall e :: e in s <==> e == s[0] || e in s[1..];
      if drop(s[0]) then rest else [s[0]] + rest
  }

  function Cleared(s: seq<StatusEvent>, filter: Filter): seq<StatusEvent> {
    Without(s, e => Matches(e, filter))
  }

  function Aged(s: seq<StatusEvent>, cutoff: Time): seq<StatusEvent> {
    Without(s, e => TooOld(e, cutoff))
  }

  function CutOff(r: Retention, now: Instant): Time {
    if r.maxAge > 0 then now - r.maxAge else 0
  }

  predicate TooOld(e: StatusEvent, cutoff: Time) {
    cutoff != 0 && e.at < cutoff
  }

  function Step(s: Store, op: Op): Store {
    match op
    case Append(added) =>
      s.(file := s.file + added, events := View(s.events + added, s.maxPerSubject))
    case Clear(filter) =>
      var kept := Cleared(s.events, filter);
      if kept == s.events then s else s.(file := kept, events := kept)
    case Prune(retention, now) =>
      var cap := if retention.maxPerSubject <= 0 then s.maxPerSubject else retention.maxPerSubject;
      var cutoff := CutOff(retention, now);
      var kept := View(Aged(s.events, cutoff), cap);
      Store(kept, kept, cap)
  }

  function Run(s: Store, ops: seq<Op>): Store
    decreases ops
  {
    if ops == [] then s else Run(Step(s, ops[0]), ops[1..])
  }

  ghost predicate Consistent(s: Store) {
    s.maxPerSubject > 0 && s.events == View(s.file, s.maxPerSubject)
  }

  lemma {:induction false} WithoutKeeps(s: seq<StatusEvent>, drop: StatusEvent -> bool)
    ensures Sorted(s, EventAt) ==> Sorted(Without(s, drop), EventAt)
    ensures forall k :: CountKey(Without(s, drop), k) <= CountKey(s, k)
  {
    if s != [] {
      WithoutKeeps(s[1..], drop);
      var rest := Without(s[1..], drop);
      assert ([s[0]] + rest)[1..] == rest;
      forall k ensures CountKey(Without(s, drop), k) <= CountKey(s, k) {
        assert CountKey(rest, k) <= CountKey(s[1..], k);
      }
      if Sorted(s, EventAt) {
        forall i | 0 <= i < |rest| ensures s[0].at <= rest[i].at {
          assert rest[i] in s[1..];
        }
      }
    }
  }

  /** What a sorted, capped sequence looks like when it becomes the whole file. */
  lemma ViewOfCapped(s: seq<StatusEvent>, cap: int)
    requires Sorted(s, EventAt) && forall k :: CountKey(s, k) <= cap
    ensures View(s, cap) == s
  {
    SortedIsFixed(s, EventAt);
    KeepWithinCap(s, cap);
  }

  lemma ViewIsCapped(file: seq<StatusEvent>, cap: int)
    requires cap >= 0
    ensures Sorted(View(file, cap), EventAt)
    ensures forall k :: CountKey(View(file, cap), k) <= cap
  {
    SortIsStable(file, EventAt);
    KeepSorted(Sort(file, EventAt), cap);
    forall k ensures CountKey(View(file, cap), k) <= cap {
      KeepCounts(Sort(file, EventAt), cap, k);
    }
  }

  lemma StepConsistent(s: Store, op: Op)
    requires Consistent(s)
    ensures Consistent(Step(s, op))
  {
    ViewIsCapped(s.file, s.maxPerSubject);
    match op
    case Append(added) =>
      ForgettingIsHarmless(s.file, added, s.maxPerSubject);
    case Clear(filter) =>
      var kept := Cleared(s.events, filter);
      WithoutKeeps(s.events, e => Matches(e, filter));
      assert forall k :: CountKey(kept, k) <= CountKey(s.events, k) <= s.maxPerSubject;
      ViewOfCapped(kept, s.maxPerSubject);
    case Prune(retention, now) =>
      var t := Step(s, op);
      var cutoff := CutOff(retention, now);
      var kept := Aged(s.events, cutoff);
      ViewIsCapped(kept, t.maxPerSubject);
      ViewOfCapped(t.events, t.maxPerSubject);
  }

  lemma {:induction false} RunConsistent(s: Store, ops: seq<Op>)
    requires Consistent(s)
    ensures Consistent(Run(s, ops))
    decreases ops
  {
    if ops != [] {
      StepConsistent(s, ops[0]);
      RunConsistent(Step(s, ops[0]), ops[1..]);
    }
  }

  /** After any appends, clears and prunes, reopening the file with the cap in
      force gives back exactly the state the process already had. */
  lemma RestartAgreement(file: seq<StatusEvent>, maxPerSubject: int, ops: seq<Op>)
    ensures var s := Run(Opened(file, maxPerSubject), ops);
            Opened(s.file, s.maxPerSubject) == s
  {
    RunConsistent(Opened(file, maxPerSubject), ops);
  }

  // ---------------------------------------------------------------------
  // What the cut keeps, subject by subject
  // ---------------------------------------------------------------------

  function ForSubject(s: seq<StatusEvent>, k: SubjectKey): (r: seq<StatusEvent>)
    ensures |r| == CountKey(s, k)
  {
    if s == [] then []
    else (if KeyOf(s[0]) == k then [s[0]] else []) + ForSubject(s[1..], k)
  }

  /** The last n elements, or all of them when there are fewer. */
  function LastN<T>(s: seq<T>, n: int): (r: seq<T>) {
    if n < 0 then [] else if |s| <= n then s else s[|s| - n..]
  }

  lemma LastNCons<T>(x: T, s: seq<T>, n: nat)
    ensures LastN([x] + s, n) == if |s| < n then [x] + LastN(s, n) else LastN(s, n)
  {
  }

  /** Memory holds exactly the newest cap events of every subject, in order. */
  lemma {:induction false} KeepIsNewestPerSubject(s: seq<StatusEvent>, cap: int, k: SubjectKey)
    requires cap >= 0
    ensures ForSubject(Keep(s, cap), k) == LastN(ForSubject(s, k), cap)
  {
    if s != [] {
      var e, rest := s[0], Keep(s[1..], cap);
      KeepIsNewestPerSubject(s[1..], cap, k);
      ForSubjectCons(e, s[1..], k);
      ForSubjectCons(e, rest, k);
      assert [e] + s[1..] == s;
      if KeyOf(e) == k {
        LastNCons(e, ForSubject(s[1..], k), cap);
      }
    }
  }

  lemma ForSubjectCons(e: StatusEvent, s: seq<StatusEvent>, k: SubjectKey)
    ensures ForSubject([e] + s, k) == if KeyOf(e) == k then [e] + ForSubject(s, k) else ForSubject(s, k)
  {
    assert ([e] + s)[1..] == s;
  }

  lemma {:induction false} LastOfSubject(s: seq<StatusEvent>, e: StatusEvent)
    requires Sorted(s, EventAt) && e in s
    ensures var own := ForSubject(s, KeyOf(e));
            own != [] && own[|own| - 1] in s && KeyOf(own[|own| - 1]) == KeyOf(e) && e.at <= own[|own| - 1].at
  {
    var own := ForSubject(s[1..], KeyOf(e));
    if e in s[1..] {
      LastOfSubject(s[1..], e);
      assert ForSubject(s, KeyOf(e))[|ForSubject(s, KeyOf(e))| - 1] == own[|own| - 1];
    } else {
      assert e == s[0];
      if own != [] {
        SubjectMembers(s[1..], KeyOf(e));
        assert own[|own| - 1] in s[1..];
      }
    }
  }

  lemma {:induction false} SubjectMembers(s: seq<StatusEvent>, k: SubjectKey)
    ensures forall e :: e in ForSubject(s, k) <==> e in s && KeyOf(e) == k
  {
    if s != [] {
      SubjectMembers(s[1..], k);
      assert forall e :: e in s <==> e == s[0] || e in s[1..];
    }
  }

  /** Events of one subject spell its id alike, as the recorder's trimmed ids do. */
  ghost predicate OneSpelling(s: seq<StatusEvent>) {
    forall a, b :: a in s && b in s && KeyOf(a) == KeyOf(b) ==> Text.EqualFold(a.subjectId, b.subjectId)
  }

  lemma LastOfLastN<T>(s: seq<T>, n: nat)
    requires s != [] && n > 0
    ensures LastN(s, n) != [] && LastN(s, n)[|LastN(s, n)| - 1] == s[|s| - 1]
  {
  }

  lemma LastSurvives(sorted: seq<StatusEvent>, e: StatusEvent, cap: int) returns (last: StatusEvent)
    requires cap > 0 && Sorted(sorted, EventAt) && e in sorted
    ensures last in Keep(sorted, cap) && last in sorted && KeyOf(last) == KeyOf(e) && e.at <= last.at
  {
    LastOfSubject(sorted, e);
    var own := ForSubject(sorted, KeyOf(e));
    last := own[|own| - 1];
    KeepIsNewestPerSubject(sorted, cap, KeyOf(e));
    LastOfLastN(own, cap);
    var kept := ForSubject(Keep(sorted, cap), KeyOf(e));
    assert kept[|kept| - 1] == last && last in kept;
    SubjectMembers(Keep(sorted, cap), KeyOf(e));
  }

  ghost predicate AnyMatch(s: seq<StatusEvent>, filter: Filter) {
    exists e :: e in s && Matches(e, filter)
  }

  /** Clear looks only at memory, while the file also holds what memory has
      dropped: matching events leave the file exactly when memory has one of
      them, or there was none at all. */
  lemma ClearReachesFileExactly(s: Store, filter: Filter)
    ensures !AnyMatch(Step(s, Clear(filter)).file, filter) <==> AnyMatch(s.events, filter) || !AnyMatch(s.file, filter)
  {
    if AnyMatch(s.events, filter) {
      var e :| e in s.events && Matches(e, filter);
      assert e !in Cleared(s.events, filter);
    } else {
      NothingDropped(s.events, filter);
    }
  }

  lemma {:induction false} NothingDropped(events: seq<StatusEvent>, filter: Filter)
    requires !AnyMatch(events, filter)
    ensures Cleared(events, filter) == events
  {
    if events != [] {
      assert !Matches(events[0], filter);
      NothingDropped(events[1..], filter);
    }
  }

  /** When ids are spelled alike that is always so: a dropped event that matches
      has a newer one of its subject in memory, which matches too. */
  lemma ClearReachesFile(s: Store, filter: Filter)
    requires Consistent(s) && OneSpelling(s.file)
    ensures !AnyMatch(Step(s, Clear(filter)).file, filter)
  {
    ClearReachesFileExactly(s, filter);
    if AnyMatch(s.file, filter) {
      var e :| e in s.file && Matches(e, filter);
      var sorted := Sort(s.file, EventAt);
      SortIsStable(s.file, EventAt);
      assert e in multiset(sorted);
      var last := LastSurvives(sorted, e, s.maxPerSubject);
      assert last in multiset(s.file) && last in s.events;
      assert Matches(last, filter);
    }
  }

  /** A matching event is still in the file after Clear. */
  ghost predicate Escapes(s: Store, filter: Filter) {
    Consistent(s) && AnyMatch(Step(s, Clear(filter)).file, filter)
  }

  /** Two events of one subject, of which a cap of one keeps the newer: a filter
      that matches only the older finds nothing in memory and leaves the file. */
  lemma OlderEscapes(e: StatusEvent, f: StatusEvent, filter: Filter)
    requires KeyOf(e) == KeyOf(f) && e.at < f.at && Matches(e, filter) && !Matches(f, filter)
    ensures Escapes(Opened([e, f], 1), filter)
  {
    var s := Opened([e, f], 1);
    SortedIsFixed([e, f], EventAt);
    assert [e, f][1..] == [f] && [f][1..] == [];
    assert CountKey([f], KeyOf(e)) == 1;
    assert Keep([f], 1) == [f];
    assert s.events == [f];
    assert e in s.file;
    ClearReachesFileExactly(s, filter);
  }

  /** Two spellings of one id are one subject to the cap, but not to the filter. */
  lemma MixedSpellingsEscape()
    ensures exists s, filter :: Escapes(s, filter)
  {
    var e := StatusEvent(App, "a", "", Online, Offline, 1, "");
    var f := e.(subjectId := " a", at := 2);
    var filter := Filter(App, "a", 0, 0);
    assert Text.TrimLeft(" a") == "a";
    assert |Text.ToLower("a")| != |Text.ToLower(" a")|;
    OlderEscapes(e, f, filter);
  }

  // ---------------------------------------------------------------------
  // The store object
  // ---------------------------------------------------------------------

  /** How many later events share event j's subject. */
  function Later(events: seq<StatusEvent>, j: nat): nat
    requires j < |events|
  {
    CountKey(events[j + 1..], KeyOf(events[j]))
  }

  lemma CountFrom(events: seq<StatusEvent>, i: nat, k: SubjectKey)
    requires i < |events|
    ensures CountKey(events[i..], k) == (if KeyOf(events[i]) == k then 1 else 0) + CountKey(events[i + 1..], k)
  {
    assert events[i..][1..] == events[i + 1..];
  }

  lemma KeepFrom(events: seq<StatusEvent>, i: nat, cap: int)
    requires i < |events|
    ensures Keep(events[i..], cap)
      == var rest := Keep(events[i + 1..], cap);
         if Later(events, i) < cap then [events[i]] + rest else rest
  {
    assert events[i..][1..] == events[i + 1..];
  }

  function CountOf(counts: map<SubjectKey, int>, k: SubjectKey): int {
    if k in counts then counts[k] else 0
  }

  method MarkNewest(events: seq<StatusEvent>, maxPerSubject: int) returns (keep: array<bool>)
    requires maxPerSubject > 0
    ensures keep.Length == |events|
    ensures forall j :: 0 <= j < |events| ==> keep[j] == (Later(events, j) < maxPerSubject)
  {
    var counts: map<SubjectKey, int> := map[];
    keep := new bool[|events|](_ => false);
    var i := |events| - 1;
    while i >= 0
      invariant -1 <= i < |events|
      invariant forall k :: CountOf(counts, k) == Min(maxPerSubject, CountKey(events[i + 1..], k))
      invariant forall j :: 0 <= j <= i ==> !keep[j]
      invariant forall j :: i < j < |events| ==> keep[j] == (Later(events, j) < maxPerSubject)
    {
      var key := KeyOf(events[i]);
      ghost var before := counts;
      var count := CountOf(counts, key);
      assert count == Min(maxPerSubject, Later(events, i));
      if count < maxPerSubject {
        counts := counts[key := count + 1];
        keep[i] := true;
      }
      forall k ensures CountOf(counts, k) == Min(maxPerSubject, CountKey(events[i..], k)) {
        CountFrom(events, i, k);
        assert CountOf(before, k) == Min(maxPerSubject, CountKey(events[i + 1..], k));
      }
      i := i - 1;
    }
  }

  method KeepPerSubject(events: seq<StatusEvent>, maxPerSubject: int) returns (out: seq<StatusEvent>)
    ensures out == if maxPerSubject > 0 then Keep(events, maxPerSubject) else events
  {
    if maxPerSubject <= 0 {
      return events;
    }
    var keep := MarkNewest(events, maxPerSubject);
    out := [];
    ghost var rest := Keep(events, maxPerSubject);
    assert events[0..] == events;
    for n := 0 to |events|
      invariant rest == Keep(events[n..], maxPerSubject)
      invariant out + rest == Keep(events, maxPerSubject)
      invariant forall j :: 0 <= j < |events| ==> keep[j] == (Later(events, j) < maxPerSubject)
    {
      KeepFrom(events, n, maxPerSubject);
      rest := Keep(events[n + 1..], maxPerSubject);
      if keep[n] {
        assert out + ([events[n]] + rest) == (out + [events[n]]) + rest;
        out := out + [events[n]];
      }
    }
  }

  lemma WithoutSnoc(events: seq<StatusEvent>, i: nat, drop: StatusEvent -> bool)
    requires i < |events|
    ensures Without(events[..i + 1], drop)
      == if drop(events[i]) then Without(events[..i], drop) else Without(events[..i], drop) + [events[i]]
  {
    Snoc(events, i);
    WithoutAppend(events[..i], [events[i]], drop);
  }

  method Unmatched(events: seq<StatusEvent>, filter: Filter) returns (kept: seq<StatusEvent>)
    ensures kept == Cleared(events, filter)
  {
    kept := [];
    for i := 0 to |events|
      invariant kept == Cleared(events[..i], filter)
    {
      WithoutSnoc(events, i, e => Matches(e, filter));
      if !Matches(events[i], filter) {
        kept := kept + [events[i]];
      }
    }
    assert events[..|events|] == events;
  }

  method YoungEnough(events: seq<StatusEvent>, cutoff: Time) returns (kept: seq<StatusEvent>)
    ensures kept == Aged(events, cutoff)
  {
    kept := [];
    for i := 0 to |events|
      invariant kept == Aged(events[..i], cutoff)
    {
      WithoutSnoc(events, i, e => TooOld(e, cutoff));
      if cutoff == 0 || events[i].at >= cutoff {
        kept := kept + [events[i]];
      }
    }
    assert events[..|events|] == events;
  }

  function Matching(events: seq<StatusEvent>, filter: Filter): seq<StatusEvent> {
    Without(events, e => !Matches(e, filter))
  }

  lemma MatchingSplit(events: seq<StatusEvent>, i: nat, filter: Filter)
    requires i < |events|
    ensures Matching(events[..i + 1], filter)
      == Matching(events[..i], filter) + (if Matches(events[i], filter) then [events[i]] else [])
  {
    WithoutSnoc(events, i, e => !Matches(e, filter));
  }

  /** Newest first: the i-th result is the i-th from the end of the matching events. */
  ghost predicate IsNewestFirst(out: seq<StatusEvent>, events: seq<StatusEvent>, filter: Filter) {
    var matching := Matching(events, filter);
    && |out| == (if filter.limit > 0 then Min(filter.limit, |matching|) else |matching|)
    && forall i :: 0 <= i < |out| ==> out[i] == matching[|matching| - 1 - i]
  }

  lemma {:induction false} WithoutAppend(a: seq<StatusEvent>, b: seq<StatusEvent>, drop: StatusEvent -> bool)
    ensures Without(a + b, drop) == Without(a, drop) + Without(b, drop)
  {
    if a == [] {
      assert a + b == b;
    } else {
      assert (a + b)[1..] == a[1..] + b;
      WithoutAppend(a[1..], b, drop);
    }
  }

  /** Each part of a filter that is given narrows it: the kind, the id whatever its
      letter case, the first instant. */
  predicate IsWanted(e: StatusEvent, f: Filter) {
    && (e.subjectType != f.subjectType ==> f.subjectType == NoType)
    && (Text.ToLower(e.subjectId) != Text.ToLower(f.subjectId) ==> f.subjectId == "")
    && (e.at < f.since ==> f.since == 0)
  }

  /** A query answers with wanted events only, no more than a positive limit, and unless it
      has filled that with all of them. */
  lemma QueryReturns(out: seq<StatusEvent>, events: seq<StatusEvent>, f: Filter, e: StatusEvent)
    requires IsNewestFirst(out, events, f)
    ensures e in out ==> e in events && IsWanted(e, f)
    ensures f.limit > 0 ==> |out| <= f.limit
    ensures (f.limit <= 0 || |out| < f.limit) && e in events && IsWanted(e, f) ==> e in out
  {
    var all := Matching(events, f);
    if e in out {
      var i :| 0 <= i < |out| && out[i] == e;
      assert all[|all| - 1 - i] in all;
    }
    if (f.limit <= 0 || |out| < f.limit) && e in events && IsWanted(e, f) {
      assert e in all && |out| == |all|;
      var i :| 0 <= i < |all| && all[i] == e;
      assert out[|all| - 1 - i] == e;
    }
  }

  // ---------------------------------------------------------------------
  // What a prune leaves
  // ---------------------------------------------------------------------

  /** The event is older than the maximum age, if there is one. A clock that reads exactly
      the maximum age gives the zero time as the oldest allowed, and that is read as no
      limit. */
  predicate IsOlder(e: StatusEvent, maxAge: int, now: Instant) {
    maxAge > 0 && now != maxAge && now - e.at > maxAge
  }

  lemma OlderIsTooOld(e: StatusEvent, r: Retention, now: Instant)
    ensures TooOld(e, CutOff(r, now)) <==> IsOlder(e, r.maxAge, now)
  {
  }

  lemma {:induction false} WithoutForSubject(s: seq<StatusEvent>, drop: StatusEvent -> bool, k: SubjectKey)
    ensures ForSubject(Without(s, drop), k) == Without(ForSubject(s, k), drop)
  {
    if s != [] {
      WithoutForSubject(s[1..], drop, k);
      ForSubjectCons(s[0], Without(s[1..], drop), k);
      ForSubjectCons(s[0], s[1..], k);
      assert [s[0]] + s[1..] == s;
      assert ([s[0]] + ForSubject(s[1..], k))[1..] == ForSubject(s[1..], k);
    }
  }

  lemma {:induction false} SameDrop(s: seq<StatusEvent>, a: StatusEvent -> bool, b: StatusEvent -> bool)
    requires forall e :: a(e) <==> b(e)
    ensures Without(s, a) == Without(s, b)
  {
    if s != [] {
      SameDrop(s[1..], a, b);
    }
  }

  /** What a prune leaves of a store: memory and file alike, for each subject the newest of
      its events in memory that are not older than the maximum age, as many as the new cap
      allows, or the old one if none is given; so none that is older. */
  ghost predicate IsPruned(s: Store, t: Store, retention: Retention, now: Instant) {
    && t.file == t.events
    && t.maxPerSubject == (if retention.maxPerSubject > 0 then retention.maxPerSubject else s.maxPerSubject)
    && (forall e :: e in t.events ==> e in s.events && !IsOlder(e, retention.maxAge, now))
    && (forall k :: ForSubject(t.events, k)
          == LastN(Without(ForSubject(s.events, k), (e: StatusEvent) => IsOlder(e, retention.maxAge, now)), t.maxPerSubject))
  }

  lemma PruneMeans(s: Store, retention: Retention, now: Instant)
    requires Consistent(s)
    ensures IsPruned(s, Step(s, Op.Prune(retention, now)), retention, now)
  {
    var t := Step(s, Op.Prune(retention, now));
    var older := (e: StatusEvent) => IsOlder(e, retention.maxAge, now);
    var tooOld := (e: StatusEvent) => TooOld(e, CutOff(retention, now));
    forall e ensures tooOld(e) <==> older(e) {
      OlderIsTooOld(e, retention, now);
    }
    SameDrop(s.events, tooOld, older);
    var aged := Aged(s.events, CutOff(retention, now));
    assert aged == Without(s.events, older);
    ViewIsCapped(s.file, s.maxPerSubject);
    WithoutKeeps(s.events, tooOld);
    SortedIsFixed(aged, EventAt);
    KeepSorted(aged, t.maxPerSubject);
    forall k ensures ForSubject(t.events, k) == LastN(Without(ForSubject(s.events, k), older), t.maxPerSubject) {
      KeepIsNewestPerSubject(aged, t.maxPerSubject, k);
      WithoutForSubject(s.events, older, k);
    }
  }

  class FileHistoryStore {
    var file: seq<StatusEvent>
    var maxPerSubject: int
    var events: seq<StatusEvent>

    ghost function State(): Store
      reads this
    {
      Store(file, events, maxPerSubject)
    }

    ghost predicate Valid()
      reads this
    {
      Consistent(State())
    }

    constructor Open(file: seq<StatusEvent>, maxPerSubject: int)
      ensures Valid() && State() == Opened(file, maxPerSubject)
      ensures this.maxPerSubject == if maxPerSubject <= 0 then 500 else maxPerSubject
    {
      var cap := maxPerSubject;
      if cap <= 0 {
        cap := DEFAULT_MAX_PER_SUBJECT;
      }
      var kept := KeepPerSubject(Sort(file, EventAt), cap);
      this.file, this.maxPerSubject, events := file, cap, kept;
    }

    method Append(added: seq<StatusEvent>)
      requires Valid()
      modifies this
      ensures Valid() && State() == Step(old(State()), Op.Append(added))
    {
      StepConsistent(State(), Op.Append(added));
      if added == [] {
        assert file + added == file && events + added == events;
        return;
      }
      file := file + added;
      events := KeepPerSubject(Sort(events + added, EventAt), maxPerSubject);
    }

    method Query(filter: Filter) returns (out: seq<StatusEvent>)
      ensures IsNewestFirst(out, events, filter)
    {
      ghost var all, before, after := Matching(events, filter), Matching(events, filter), [];
      out := [];
      var i := |events| - 1;
      assert events[..i + 1] == events;
      while i >= 0
        invariant -1 <= i < |events|
        invariant before == Matching(events[..i + 1], filter) && all == before + after
        invariant |out| == |after|
        invariant filter.limit > 0 ==> |out| < filter.limit
        invariant forall j :: 0 <= j < |out| ==> out[j] == all[|all| - 1 - j]
      {
        MatchingSplit(events, i, filter);
        before := Matching(events[..i], filter);
        if Matches(events[i], filter) {
          assert all == before + ([events[i]] + after);
          after := [events[i]] + after;
          out := out + [events[i]];
          if filter.limit > 0 && |out| >= filter.limit {
            break;
          }
        }
        i := i - 1;
      }
    }

    method Clear(filter: Filter) returns (removed: nat)
      requires Valid()
      modifies this
      ensures Valid() && State() == Step(old(State()), Op.Clear(filter))
      ensures removed == |old(events)| - |events|
      ensures forall e :: e in events <==> e in old(events) && !IsWanted(e, filter)
    {
      StepConsistent(State(), Op.Clear(filter));
      var kept := Unmatched(events, filter);
      removed := |events| - |kept|;
      WithoutAll(events, e => Matches(e, filter));
      if removed == 0 {
        return;
      }
      Install(kept, maxPerSubject);
    }

    method Prune(retention: Retention, now: Instant)
      requires Valid()
      modifies this
      ensures Valid() && State() == Step(old(State()), Op.Prune(retention, now))
      ensures IsPruned(old(State()), State(), retention, now)
    {
      StepConsistent(State(), Op.Prune(retention, now));
      PruneMeans(State(), retention, now);
      var cap := retention.maxPerSubject;
      if cap <= 0 {
        cap := maxPerSubject;
      }
      var cutoff := 0;
      if retention.maxAge > 0 {
        cutoff := now - retention.maxAge;
      }
      assert cutoff == CutOff(retention, now);
      var kept := YoungEnough(events, cutoff);
      kept := KeepPerSubject(Sort(kept, EventAt), cap);
      assert kept == View(Aged(events, cutoff), cap);
      Install(kept, cap);
    }

    /** Rewrites the file and takes the same events into memory. */
    method Install(kept: seq<StatusEvent>, cap: int)
      modifies this
      ensures State() == Store(kept, kept, cap)
    {
      file, events, maxPerSubject := kept, kept, cap;
    }
  }

  lemma {:induction false} WithoutAll(s: seq<StatusEvent>, drop: StatusEvent -> bool)
    ensures |Without(s, drop)| == |s| ==> Without(s, drop) == s
  {
    if s != [] {
      WithoutAll(s[1..], drop);
    }
  }
}
