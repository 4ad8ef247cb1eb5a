/** What the uptime walk makes of the times when nobody was comparing: a restart empties
    the recorder, an absent app is forgotten, the verification of a repair has a snapshot
    observed, and each time what comes next is a new baseline without an event. */
module Interruptions {
  import opened Models
  import opened Recorder
  import opened History
  import opened Uptime
  import opened StableSort
  import opened Collections
  import opened Timeline
  import Text

  // ---------------------------------------------------------------------
  // What the events tell
  // ---------------------------------------------------------------------

  /** The status after the last snapshot. */
  function Held(h: Status, obs: seq<Observation>): Status {
    if obs == [] then h else Shown(obs[|obs| - 1])
  }

  /** The status the recorded events tell of instant t: what the first event after t
      left, so that a change without an event counts from before it happened. */
  function Told(h: Status, previous: Option<Subject>, obs: seq<Observation>, t: Time): Status
    decreases |obs|
  {
    if obs == [] then h
    else if obs[0].at <= t || Step1(previous, obs[0]) == [] then Told(Shown(obs[0]), After1(previous, obs[0]), obs[1..], t)
    else Step1(previous, obs[0])[0].from
  }

  lemma EarlierFirst(e: StatusEvent, later: seq<StatusEvent>, current: Status, now: Time, t: Time)
    ensures StatusAt(Reversed([e] + later), current, now, t) == if Covers(e, now, t) then e.from else StatusAt(Reversed(later), current, now, t)
  {
    var all := Reversed([e] + later);
    assert all[..|all| - 1] == Reversed(later);
  }

  lemma TailInOrder(obs: seq<Observation>, now: Time)
    requires obs != [] && InOrder(obs, now)
    ensures InOrder(obs[1..], now)
  {
  }

  lemma StepFirst(previous: Option<Subject>, o: Observation, later: seq<StatusEvent>, current: Status, now: Time, t: Time)
    requires o.at <= now && (o.how.Marked? ==> o.how.event.at == o.at)
    ensures StatusAt(Reversed(Step1(previous, o) + later), current, now, t)
      == if o.at <= t || Step1(previous, o) == [] then StatusAt(Reversed(later), current, now, t) else Step1(previous, o)[0].from
  {
    var first := Step1(previous, o);
    if first == [] {
      assert first + later == later;
    } else {
      assert first == [first[0]] && first[0].at == o.at;
      EarlierFirst(first[0], later, current, now, t);
    }
  }

  /** The walk, whatever happened: it reconstructs what the events tell. */
  lemma {:induction false} ToldIsReconstructed(h: Status, previous: Option<Subject>, obs: seq<Observation>, now: Time, t: Time)
    requires InOrder(obs, now) && t < now
    ensures StatusAt(Reversed(Follow(previous, obs)), Held(h, obs), now, t) == Told(h, previous, obs, t)
    decreases |obs|
  {
    if obs != [] {
      var o, rest := obs[0], obs[1..];
      var next := After1(previous, o);
      TailInOrder(obs, now);
      ToldIsReconstructed(Shown(o), next, rest, now, t);
      assert Held(h, obs) == Held(Shown(o), rest);
      StepFirst(previous, o, Follow(next, rest), Held(h, obs), now, t);
    }
  }

  // ---------------------------------------------------------------------
  // The whole pipeline
  // ---------------------------------------------------------------------

  lemma SameOnline(h: Status, previous: Option<Subject>, obs: seq<Observation>, out: seq<StatusEvent>, lo: Time, now: Time)
    requires forall t :: lo <= t < now ==> StatusAt(out, Held(h, obs), now, t) == Told(h, previous, obs, t)
    ensures InstantsIn(out, Held(h, obs), now, lo, now, Online) == ToldOnline(h, previous, obs, lo, now)
  {
  }

  /** Recorder, store, query and walk together, through restarts, repairs, absences and
      prunes:
      at every instant of the window the walk reconstructs what the subject's events
      tell. So the online time measured is the time they tell online. */
  lemma UptimeIsTold(start: Subjects, run: seq<Entry>, s: Store, cap: nat, filter: Filter, out: seq<StatusEvent>,
                     k: SubjectKey, h: Status, since: Time, lo: Time, now: Time)
    requires IsRun(start, run) && WellKeyed(start) && InTime(run, since, now) && since <= now
    requires UpTo(s, since) && UpTo(s, lo) && s.maxPerSubject >= cap && PrunesSpare(run, cap, lo)
    requires AsksFor(filter, k) && IsNewestFirst(out, RecordedAll(s, run).events, filter)
    ensures NewestFirst(out)
    ensures var previous, obs := Lookup(start, k), Observed(run, k);
      NoneDroppedAfter(Follow(previous, obs), cap, lo) ==>
        && (forall t :: lo <= t < now ==> StatusAt(out, Held(h, obs), now, t) == Told(h, previous, obs, t))
        && InstantsIn(out, Held(h, obs), now, lo, now, Online) == ToldOnline(h, previous, obs, lo, now)
  {
    var t, earlier, previous, obs := RecordedAll(s, run), ForSubject(s.events, k), Lookup(start, k), Observed(run, k);
    assert earlier == earlier[|earlier| - |earlier|..];
    RunRemembers(start, run, s, earlier, cap, k, since, lo, now);
    AnsweredFromMemory(t, now, filter, out, k);
    if NoneDroppedAfter(Follow(previous, obs), cap, lo) {
      ObservedInOrder(start, run, k, since, now);
      SubjectEventsSorted(start, run, k, since, now);
      OldNoLater(s, lo, k);
      MemoryTells(h, previous, obs, earlier, ForSubject(t.events, k), cap, lo, now);
      SameOnline(h, previous, obs, out, lo, now);
    }
  }

  /** The instants of [lo, hi) that the events tell online. */
  function ToldOnline(h: Status, previous: Option<Subject>, obs: seq<Observation>, lo: Time, hi: Time): set<Time> {
    set t: Time | lo <= t < hi && Told(h, previous, obs, t) == Online
  }

  /** What memory lacks, and what came before the run, does not matter in the window. */
  lemma MemorySuffices(earlier: seq<StatusEvent>, own: seq<StatusEvent>, mem: seq<StatusEvent>, cap: nat, lo: Time,
                       current: Status, now: Time, t: Time)
    requires Sorted(own, EventAt) && NoneDroppedAfter(own, cap, lo) && lo <= t
    requires (forall i :: 0 <= i < |earlier| ==> earlier[i].at <= lo) && Timeline.Remembered(mem, earlier + own, cap, lo)
    ensures StatusAt(Reversed(mem), current, now, t) == StatusAt(Reversed(own), current, now, t)
  {
    var all := earlier + own;
    LackingIsEarly(earlier, own, mem, cap, lo);
    SuffixSuffices(all, |all| - |mem|, current, now, t);
    assert all[|earlier|..] == own;
    SuffixSuffices(all, |earlier|, current, now, t);
  }

  lemma MemoryTells(h: Status, previous: Option<Subject>, obs: seq<Observation>, earlier: seq<StatusEvent>, mem: seq<StatusEvent>,
                    cap: nat, lo: Time, now: Time)
    requires InOrder(obs, now)
    requires Sorted(Follow(previous, obs), EventAt) && NoneDroppedAfter(Follow(previous, obs), cap, lo)
    requires (forall i :: 0 <= i < |earlier| ==> earlier[i].at <= lo) && Timeline.Remembered(mem, earlier + Follow(previous, obs), cap, lo)
    ensures forall t :: lo <= t < now ==> StatusAt(Reversed(mem), Held(h, obs), now, t) == Told(h, previous, obs, t)
  {
    forall t | lo <= t < now ensures StatusAt(Reversed(mem), Held(h, obs), now, t) == Told(h, previous, obs, t) {
      MemorySuffices(earlier, Follow(previous, obs), mem, cap, lo, Held(h, obs), now, t);
      ToldIsReconstructed(h, previous, obs, now, t);
    }
  }

  // ---------------------------------------------------------------------
  // Where that is not what the snapshots saw
  // ---------------------------------------------------------------------

  /** Every change of status has its event, from the status it leaves. */
  ghost predicate Loud(h: Status, previous: Option<Subject>, obs: seq<Observation>)
    decreases |obs|
  {
    obs == [] ||
    ((if Step1(previous, obs[0]) == [] then Shown(obs[0]) == h else Step1(previous, obs[0])[0].from == h) && Loud(Shown(obs[0]), After1(previous, obs[0]), obs[1..]))
  }

  /** A subject in every snapshot of one process changes loudly ... */
  lemma {:induction false} PresentIsLoud(p: Subject, obs: seq<Observation>)
    requires AlwaysPresent(obs)
    ensures Loud(p.status, Some(p), obs)
    decreases |obs|
  {
    if obs != [] {
      PresentIsLoud(obs[0].subject.value, obs[1..]);
    }
  }

  /** ... and so does an app that then vanishes and stays away. */
  lemma {:induction false} VanishingIsLoud(h: Status, previous: Option<Subject>, gone: seq<Observation>)
    requires if previous.None? then h == Unknown else previous.value.status == h && previous.value.kind == App
    requires forall i :: 0 <= i < |gone| ==> gone[i].subject.None? && gone[i].how.Compared?
    ensures Loud(h, previous, gone)
    decreases |gone|
  {
    if gone != [] {
      VanishingIsLoud(Unknown, None, gone[1..]);
    }
  }

  lemma {:induction false} TrueFromFirst(h: Status, obs: seq<Observation>, t: Time)
    requires obs != [] && forall i, j :: 0 <= i < j < |obs| ==> obs[i].at <= obs[j].at
    ensures TrueStatus(h, obs, t) == if obs[0].at <= t then TrueStatus(Shown(obs[0]), obs[1..], t) else h
    decreases |obs|
  {
    if |obs| > 1 {
      var before := obs[..|obs| - 1];
      TrueFromFirst(h, before, t);
      assert obs[1..][..|obs| - 2] == before[1..];
    }
  }

  lemma {:induction false} TrueBefore(h: Status, a: seq<Observation>, b: seq<Observation>, t: Time)
    requires forall i :: 0 <= i < |b| ==> t < b[i].at
    ensures TrueStatus(h, a + b, t) == TrueStatus(h, a, t)
    decreases |b|
  {
    if b == [] {
      assert a + b == a;
    } else {
      var c := b[..|b| - 1];
      assert (a + b)[..|a + b| - 1] == a + c;
      TrueBefore(h, a, c, t);
    }
  }

  lemma NothingSeenYet(h: Status, obs: seq<Observation>, t: Time)
    requires forall i :: 0 <= i < |obs| ==> t < obs[i].at
    ensures TrueStatus(h, obs, t) == h
  {
    TrueBefore(h, [], obs, t);
    assert [] + obs == obs;
  }

  lemma {:induction false} TrueAfter(h: Status, a: seq<Observation>, b: seq<Observation>, now: Time, t: Time)
    requires InOrder(a + b, now) && forall i :: 0 <= i < |a| ==> a[i].at <= t
    ensures TrueStatus(h, a + b, t) == TrueStatus(Held(h, a), b, t)
    decreases |a|
  {
    if a == [] {
      assert a + b == b;
    } else {
      TrueFromFirst(h, a + b, t);
      TailOfConcat(a, b);
      assert InOrder(a[1..] + b, now) by {
        assert a[1..] + b == (a + b)[1..];
      }
      TrueAfter(Shown(a[0]), a[1..], b, now, t);
      assert Held(h, a) == Held(Shown(a[0]), a[1..]);
    }
  }

  /** While every change has its event, the events tell what the snapshots saw. */
  lemma {:induction false} LoudIsTrue(h: Status, previous: Option<Subject>, obs: seq<Observation>, now: Time, t: Time)
    requires Loud(h, previous, obs) && InOrder(obs, now)
    ensures Told(h, previous, obs, t) == TrueStatus(h, obs, t)
    decreases |obs|
  {
    if obs != [] {
      TailInOrder(obs, now);
      LoudIsTrue(Shown(obs[0]), After1(previous, obs[0]), obs[1..], now, t);
      TrueFromFirst(h, obs, t);
      if t < obs[0].at {
        NothingSeenYet(Shown(obs[0]), obs[1..], t);
      }
    }
  }

  /** No snapshot later than t has caused an event. */
  predicate QuietFrom(previous: Option<Subject>, obs: seq<Observation>, t: Time)
    decreases |obs|
  {
    obs == [] || ((Step1(previous, obs[0]) == [] || obs[0].at <= t) && QuietFrom(After1(previous, obs[0]), obs[1..], t))
  }

  lemma {:induction false} QuietMeans(previous: Option<Subject>, obs: seq<Observation>, t: Time)
    requires MarksInTime(obs)
    ensures QuietFrom(previous, obs, t) <==> forall e :: e in Follow(previous, obs) ==> e.at <= t
    decreases |obs|
  {
    if obs != [] {
      var first, later := Step1(previous, obs[0]), Follow(After1(previous, obs[0]), obs[1..]);
      QuietMeans(After1(previous, obs[0]), obs[1..], t);
      assert forall e :: e in first + later <==> e in first || e in later;
      assert first != [] ==> first[0] in first && first[0].at == obs[0].at;
    }
  }

  lemma {:induction false} QuietAtEnd(previous: Option<Subject>, obs: seq<Observation>, t: Time)
    requires forall i :: 0 <= i < |obs| ==> obs[i].at <= t
    ensures QuietFrom(previous, obs, t)
    decreases |obs|
  {
    if obs != [] {
      QuietAtEnd(After1(previous, obs[0]), obs[1..], t);
    }
  }

  lemma {:induction false} ToldSplit(h: Status, previous: Option<Subject>, a: seq<Observation>, b: seq<Observation>, t: Time)
    ensures Told(h, previous, a + b, t) ==
      if QuietFrom(previous, a, t) then Told(Held(h, a), Final(previous, a), b, t) else Told(h, previous, a, t)
    decreases |a|
  {
    if a == [] {
      assert a + b == b;
    } else {
      TailOfConcat(a, b);
      ToldSplit(Shown(a[0]), After1(previous, a[0]), a[1..], b, t);
      assert Held(h, a) == Held(Shown(a[0]), a[1..]);
    }
  }

  /** The snapshot o has no event, whatever it shows, and all other changes have theirs. */
  ghost predicate Interrupted(h: Status, previous: Option<Subject>, a: seq<Observation>, o: Observation, b: seq<Observation>) {
    && Loud(h, previous, a) && Step1(Final(previous, a), o) == []
    && Loud(Shown(o), After1(Final(previous, a), o), b)
  }

  lemma ToldBeforeReturn(h: Status, previous: Option<Subject>, a: seq<Observation>, o: Observation, b: seq<Observation>, now: Time, t: Time)
    requires Interrupted(h, previous, a, o, b) && InOrder(a + ([o] + b), now) && t < o.at
    ensures var obs := a + ([o] + b);
      if QuietFrom(previous, a, t)
      then Told(h, previous, obs, t) == Shown(o) && TrueStatus(h, obs, t) == Held(h, a)
      else Told(h, previous, obs, t) == TrueStatus(h, obs, t)
  {
    var rest := [o] + b;
    PartsInOrder(a, o, b, now);
    assert rest[0] == o && rest[1..] == b;
    ToldSplit(h, previous, a, rest, t);
    ToldSplit(h, previous, a, [], t);
    assert a + [] == a;
    LoudIsTrue(h, previous, a, now, t);
    TrueBefore(h, a, rest, t);
    LoudIsTrue(Shown(o), After1(Final(previous, a), o), b, now, t);
    NothingSeenYet(Shown(o), b, t);
  }

  lemma ToldAfterReturn(h: Status, previous: Option<Subject>, a: seq<Observation>, o: Observation, b: seq<Observation>, now: Time, t: Time)
    requires Interrupted(h, previous, a, o, b) && InOrder(a + ([o] + b), now) && o.at <= t
    ensures var obs := a + ([o] + b); Told(h, previous, obs, t) == TrueStatus(h, obs, t)
  {
    var rest := [o] + b;
    PartsInOrder(a, o, b, now);
    assert rest[0] == o && rest[1..] == b;
    QuietAtEnd(previous, a, t);
    ToldSplit(h, previous, a, rest, t);
    LoudIsTrue(Shown(o), After1(Final(previous, a), o), b, now, t);
    TrueAfter(h, a, rest, now, t);
    TrueFromFirst(Held(h, a), rest, t);
  }

  /** Exactly in the quiet time before the return, the events tell the status that the
      subject came back with; the snapshots had seen the one it was last shown in. */
  lemma ToldOverGap(h: Status, previous: Option<Subject>, a: seq<Observation>, o: Observation, b: seq<Observation>, now: Time, t: Time)
    requires Interrupted(h, previous, a, o, b) && InOrder(a + ([o] + b), now)
    ensures var obs := a + ([o] + b);
      if t < o.at && QuietFrom(previous, a, t)
      then Told(h, previous, obs, t) == Shown(o) && TrueStatus(h, obs, t) == Held(h, a)
      else Told(h, previous, obs, t) == TrueStatus(h, obs, t)
  {
    if t < o.at {
      ToldBeforeReturn(h, previous, a, o, b, now, t);
    } else {
      ToldAfterReturn(h, previous, a, o, b, now, t);
    }
  }

  lemma PartsInOrder(a: seq<Observation>, o: Observation, b: seq<Observation>, now: Time)
    requires InOrder(a + ([o] + b), now)
    ensures InOrder(a, now) && InOrder([o] + b, now) && InOrder(b, now)
    ensures (forall i :: 0 <= i < |a| ==> a[i].at <= o.at) && (forall i :: 0 <= i < |b| ==> o.at <= b[i].at) && o.at <= now
  {
    var obs := a + ([o] + b);
    var n := |a|;
    assert a == obs[0..n] && [o] + b == obs[n..|obs|] && b == obs[n + 1..|obs|] && obs[n] == o;
    SliceInOrder(obs, 0, n, now);
    SliceInOrder(obs, n, |obs|, now);
    SliceInOrder(obs, n + 1, |obs|, now);
    forall i | 0 <= i < |a| ensures a[i].at <= o.at {
      assert obs[i].at <= obs[n].at;
    }
    forall i | 0 <= i < |b| ensures o.at <= b[i].at {
      assert obs[n].at <= obs[n + 1 + i].at;
    }
  }

  lemma SliceInOrder(obs: seq<Observation>, lo: nat, hi: nat, now: Time)
    requires InOrder(obs, now) && lo <= hi <= |obs|
    ensures InOrder(obs[lo..hi], now)
  {
  }

  // ---------------------------------------------------------------------
  // The error in the measured time, for any run
  // ---------------------------------------------------------------------

  /** The status told of the time before the first of these snapshots: what its event
      left if it has one, else what is told of the time after it. */
  function Ahead(h: Status, previous: Option<Subject>, obs: seq<Observation>): Status
    decreases |obs|
  {
    if obs == [] then h
    else if Step1(previous, obs[0]) != [] then Step1(previous, obs[0])[0].from
    else Ahead(Shown(obs[0]), After1(previous, obs[0]), obs[1..])
  }

  function Span(lo: Time, hi: Time): (r: set<Time>)
    ensures forall t :: t in r <==> lo <= t < hi
    ensures |r| == if lo < hi then hi - lo else 0
    decreases hi - lo
  {
    if lo < hi then {lo} + Span(lo + 1, hi) else {}
  }

  function Clip(t: Time, lo: Time, hi: Time): Time
    requires lo <= hi
  {
    if t < lo then lo else if t > hi then hi else t
  }

  function Bit(b: bool): int {
    if b then 1 else 0
  }

  /** Snapshot by snapshot: the time since the one before, as far as it lies in the
      window, counts as online if that is told of it, less the same if it was seen. */
  function Error(h: Status, previous: Option<Subject>, obs: seq<Observation>, lo: Time, now: Time): int
    requires lo <= now
    decreases |obs|
  {
    if obs == [] then 0
    else
      var m := Clip(obs[0].at, lo, now);
      (m - lo) * (Bit(Ahead(h, previous, obs) == Online) - Bit(h == Online))
      + Error(Shown(obs[0]), After1(previous, obs[0]), obs[1..], m, now)
  }

  /** Between any two snapshots that have some of the window between them, what is told
      is what was seen. */
  predicate ToldRight(h: Status, previous: Option<Subject>, obs: seq<Observation>, lo: Time, now: Time)
    requires lo <= now
    decreases |obs|
  {
    obs == [] ||
    (var m := Clip(obs[0].at, lo, now);
     (lo < m ==> Ahead(h, previous, obs) == h)
     && ToldRight(Shown(obs[0]), After1(previous, obs[0]), obs[1..], m, now))
  }

  lemma {:induction false} ToldAhead(h: Status, previous: Option<Subject>, obs: seq<Observation>, t: Time)
    requires forall i :: 0 <= i < |obs| ==> t < obs[i].at
    ensures Told(h, previous, obs, t) == Ahead(h, previous, obs)
    decreases |obs|
  {
    if obs != [] {
      ToldAhead(Shown(obs[0]), After1(previous, obs[0]), obs[1..], t);
    }
  }

  /** Before and after the first snapshot. */
  lemma FirstInterval(h: Status, previous: Option<Subject>, obs: seq<Observation>, now: Time, t: Time)
    requires obs != [] && InOrder(obs, now)
    ensures if t < obs[0].at
      then Told(h, previous, obs, t) == Ahead(h, previous, obs) && TrueStatus(h, obs, t) == h
      else Told(h, previous, obs, t) == Told(Shown(obs[0]), After1(previous, obs[0]), obs[1..], t)
           && TrueStatus(h, obs, t) == TrueStatus(Shown(obs[0]), obs[1..], t)
  {
    TrueFromFirst(h, obs, t);
    if t < obs[0].at {
      ToldAhead(h, previous, obs, t);
    }
  }

  /** An interval of one status, then the rest. */
  lemma SplitOnline(x: set<Time>, rest: set<Time>, lo: Time, m: Time, online: bool)
    requires lo <= m
    requires forall t :: t in x <==> (online && lo <= t < m) || t in rest
    requires forall t :: t in rest ==> m <= t
    ensures |x| == (m - lo) * Bit(online) + |rest|
  {
    var first := if online then Span(lo, m) else {};
    assert forall t :: t in first <==> online && lo <= t < m;
    assert first !! rest;
    forall t ensures t in x <==> t in first + rest {
      assert t in x <==> (online && lo <= t < m) || t in rest;
    }
    assert x == first + rest;
  }

  lemma ToldOnlineAt(h: Status, previous: Option<Subject>, obs: seq<Observation>, lo: Time, now: Time, t: Time)
    requires obs != [] && InOrder(obs, now) && lo <= now
    ensures var m := Clip(obs[0].at, lo, now);
      t in ToldOnline(h, previous, obs, lo, now) <==>
        (Ahead(h, previous, obs) == Online && lo <= t < m) || t in ToldOnline(Shown(obs[0]), After1(previous, obs[0]), obs[1..], m, now)
  {
    FirstInterval(h, previous, obs, now, t);
  }

  lemma ToldOnlineSplits(h: Status, previous: Option<Subject>, obs: seq<Observation>, lo: Time, now: Time)
    requires obs != [] && InOrder(obs, now) && lo <= now
    ensures var m := Clip(obs[0].at, lo, now);
      |ToldOnline(h, previous, obs, lo, now)| == (m - lo) * Bit(Ahead(h, previous, obs) == Online)
        + |ToldOnline(Shown(obs[0]), After1(previous, obs[0]), obs[1..], m, now)|
  {
    var m, online := Clip(obs[0].at, lo, now), Ahead(h, previous, obs) == Online;
    var x, rest := ToldOnline(h, previous, obs, lo, now), ToldOnline(Shown(obs[0]), After1(previous, obs[0]), obs[1..], m, now);
    forall t: Time ensures t in x <==> (online && lo <= t < m) || t in rest {
      ToldOnlineAt(h, previous, obs, lo, now, t);
    }
    SplitOnline(x, rest, lo, m, online);
  }

  lemma TrulyOnlineSplits(h: Status, obs: seq<Observation>, lo: Time, now: Time)
    requires obs != [] && InOrder(obs, now) && lo <= now
    ensures var m := Clip(obs[0].at, lo, now);
      |TrulyOnline(h, obs, lo, now)| == (m - lo) * Bit(h == Online) + |TrulyOnline(Shown(obs[0]), obs[1..], m, now)|
  {
    var m := Clip(obs[0].at, lo, now);
    var x, rest := TrulyOnline(h, obs, lo, now), TrulyOnline(Shown(obs[0]), obs[1..], m, now);
    forall t: Time ensures t in x <==> (h == Online && lo <= t < m) || t in rest {
      FirstInterval(h, None, obs, now, t);
    }
    SplitOnline(x, rest, lo, m, h == Online);
  }

  /** Whatever was restarted, absent or observed without an event, and however often:
      the time told online exceeds the time seen online by exactly the error. */
  lemma {:induction false} ErrorIsExact(h: Status, previous: Option<Subject>, obs: seq<Observation>, lo: Time, now: Time)
    requires InOrder(obs, now) && lo <= now
    ensures |ToldOnline(h, previous, obs, lo, now)| - |TrulyOnline(h, obs, lo, now)| == Error(h, previous, obs, lo, now)
    decreases |obs|
  {
    if obs == [] {
      assert ToldOnline(h, previous, obs, lo, now) == TrulyOnline(h, obs, lo, now);
    } else {
      var m := Clip(obs[0].at, lo, now);
      TailInOrder(obs, now);
      ToldOnlineSplits(h, previous, obs, lo, now);
      TrulyOnlineSplits(h, obs, lo, now);
      ErrorIsExact(Shown(obs[0]), After1(previous, obs[0]), obs[1..], m, now);
      Distribute(m - lo, Bit(Ahead(h, previous, obs) == Online), Bit(h == Online));
    }
  }

  lemma Distribute(n: int, a: int, b: int)
    ensures n * a - n * b == n * (a - b)
  {
  }

  ghost predicate TellsTruth(h: Status, previous: Option<Subject>, obs: seq<Observation>, lo: Time, now: Time) {
    forall t :: lo <= t < now ==> Told(h, previous, obs, t) == TrueStatus(h, obs, t)
  }

  lemma TruthSplits(h: Status, previous: Option<Subject>, obs: seq<Observation>, lo: Time, now: Time)
    requires obs != [] && InOrder(obs, now) && lo <= now
    ensures var m := Clip(obs[0].at, lo, now);
      TellsTruth(h, previous, obs, lo, now) <==>
        (lo < m ==> Ahead(h, previous, obs) == h) && TellsTruth(Shown(obs[0]), After1(previous, obs[0]), obs[1..], m, now)
  {
    var m, s, next, rest := Clip(obs[0].at, lo, now), Shown(obs[0]), After1(previous, obs[0]), obs[1..];
    if TellsTruth(h, previous, obs, lo, now) {
      if lo < m {
        FirstInterval(h, previous, obs, now, lo);
      }
      forall t | m <= t < now ensures Told(s, next, rest, t) == TrueStatus(s, rest, t) {
        FirstInterval(h, previous, obs, now, t);
      }
    }
    if (lo < m ==> Ahead(h, previous, obs) == h) && TellsTruth(s, next, rest, m, now) {
      forall t | lo <= t < now ensures Told(h, previous, obs, t) == TrueStatus(h, obs, t) {
        FirstInterval(h, previous, obs, now, t);
      }
    }
  }

  /** And the events tell what was seen at every instant exactly when they do so between
      any two snapshots. */
  lemma {:induction false} ToldRightExactly(h: Status, previous: Option<Subject>, obs: seq<Observation>, lo: Time, now: Time)
    requires InOrder(obs, now) && lo <= now
    ensures TellsTruth(h, previous, obs, lo, now) <==> ToldRight(h, previous, obs, lo, now)
    decreases |obs|
  {
    if obs != [] {
      TailInOrder(obs, now);
      TruthSplits(h, previous, obs, lo, now);
      ToldRightExactly(Shown(obs[0]), After1(previous, obs[0]), obs[1..], Clip(obs[0].at, lo, now), now);
    }
  }

  // ---------------------------------------------------------------------
  // The error of a single interruption
  // ---------------------------------------------------------------------

  /** Where the quiet time before the return begins, as far as it lies in the window. */
  function GapStart(previous: Option<Subject>, a: seq<Observation>, lo: Time): Time {
    var own := Follow(previous, a);
    if own == [] || own[|own| - 1].at < lo then lo else own[|own| - 1].at
  }

  lemma {:induction false} FollowSorted(previous: Option<Subject>, obs: seq<Observation>, now: Time)
    requires InOrder(obs, now)
    ensures Sorted(Follow(previous, obs), EventAt)
    ensures forall i :: 0 <= i < |Follow(previous, obs)| ==> obs != [] && obs[0].at <= Follow(previous, obs)[i].at
    decreases |obs|
  {
    if obs != [] {
      TailInOrder(obs, now);
      FollowSorted(After1(previous, obs[0]), obs[1..], now);
    }
  }

  lemma GapMeans(previous: Option<Subject>, a: seq<Observation>, lo: Time, now: Time, t: Time)
    requires InOrder(a, now) && lo <= t
    ensures QuietFrom(previous, a, t) <==> GapStart(previous, a, lo) <= t
  {
    var own := Follow(previous, a);
    FollowSorted(previous, a, now);
    QuietMeans(previous, a, t);
    if own != [] {
      assert own[|own| - 1] in own;
      forall e | e in own ensures e.at <= own[|own| - 1].at {
        var i :| 0 <= i < |own| && own[i] == e;
        assert i < |own| - 1 ==> EventAt(own[i]) <= EventAt(own[|own| - 1]);
      }
    }
  }

  /** Two sets that agree outside a gap, and on it are all or nothing. */
  lemma DifferInGap(x: set<Time>, y: set<Time>, gap: set<Time>, inX: bool, inY: bool)
    requires x - gap == y - gap
    requires if inX then gap <= x else gap !! x
    requires if inY then gap <= y else gap !! y
    ensures |x| - |y| == (if inX then |gap| else 0) - (if inY then |gap| else 0)
  {
    GapSize(x, gap, inX);
    GapSize(y, gap, inY);
  }

  lemma GapSize(x: set<Time>, gap: set<Time>, all: bool)
    requires if all then gap <= x else gap !! x
    ensures |x| == |x - gap| + if all then |gap| else 0
  {
    assert x == (x - gap) + (if all then gap else {});
  }

  function Counted(online: bool, n: nat): nat {
    if online then n else 0
  }

  /** The error, exactly: the quiet time before the return is counted at the status
      the subject came back with instead of the one it was last seen in. So there is
      none just when both are online or neither, or the window has no such time. */
  lemma GapError(h: Status, previous: Option<Subject>, a: seq<Observation>, o: Observation, b: seq<Observation>, lo: Time, now: Time)
    requires Interrupted(h, previous, a, o, b) && InOrder(a + ([o] + b), now) && lo <= now
    ensures var obs, start := a + ([o] + b), GapStart(previous, a, lo);
      var gap: nat := if start < o.at then o.at - start else 0;
      && |ToldOnline(h, previous, obs, lo, now)| - |TrulyOnline(h, obs, lo, now)| == Error(h, previous, obs, lo, now)
      && Error(h, previous, obs, lo, now) == Counted(Shown(o) == Online, gap) - Counted(Held(h, a) == Online, gap)
      && (|ToldOnline(h, previous, obs, lo, now)| == |TrulyOnline(h, obs, lo, now)|
          <==> gap == 0 || (Shown(o) == Online <==> Held(h, a) == Online))
  {
    var obs, start := a + ([o] + b), GapStart(previous, a, lo);
    PartsInOrder(a, o, b, now);
    ErrorIsExact(h, previous, obs, lo, now);
    GapInstants(h, previous, a, o, b, lo, now);
    DifferInGap(ToldOnline(h, previous, obs, lo, now), TrulyOnline(h, obs, lo, now), Span(start, o.at),
                Shown(o) == Online, Held(h, a) == Online);
  }

  lemma GapInstants(h: Status, previous: Option<Subject>, a: seq<Observation>, o: Observation, b: seq<Observation>, lo: Time, now: Time)
    requires Interrupted(h, previous, a, o, b) && InOrder(a + ([o] + b), now)
    ensures var obs, gap := a + ([o] + b), Span(GapStart(previous, a, lo), o.at);
      var told, seen := ToldOnline(h, previous, obs, lo, now), TrulyOnline(h, obs, lo, now);
      && told - gap == seen - gap
      && (if Shown(o) == Online then gap <= told else gap !! told)
      && (if Held(h, a) == Online then gap <= seen else gap !! seen)
  {
    var obs, gap := a + ([o] + b), Span(GapStart(previous, a, lo), o.at);
    var told, seen := ToldOnline(h, previous, obs, lo, now), TrulyOnline(h, obs, lo, now);
    forall t: Time | lo <= t < now
      ensures t in gap ==> (t in told <==> Shown(o) == Online) && (t in seen <==> Held(h, a) == Online)
      ensures t !in gap ==> (t in told <==> t in seen)
    {
      GapInstant(h, previous, a, o, b, lo, now, t);
    }
    PartsInOrder(a, o, b, now);
    AgreeOutside(told, seen, gap, lo, now, Shown(o) == Online, Held(h, a) == Online);
  }

  lemma AgreeOutside(x: set<Time>, y: set<Time>, gap: set<Time>, lo: Time, hi: Time, inX: bool, inY: bool)
    requires forall t :: t in x || t in y || t in gap ==> lo <= t < hi
    requires forall t :: lo <= t < hi && t in gap ==> (t in x <==> inX) && (t in y <==> inY)
    requires forall t :: lo <= t < hi && t !in gap ==> (t in x <==> t in y)
    ensures x - gap == y - gap
    ensures (if inX then gap <= x else gap !! x) && (if inY then gap <= y else gap !! y)
  {
    assert forall t :: t in gap ==> (t in x <==> inX) && (t in y <==> inY);
    assert forall t :: t in x - gap <==> t in y - gap;
  }

  lemma GapInstant(h: Status, previous: Option<Subject>, a: seq<Observation>, o: Observation, b: seq<Observation>, lo: Time, now: Time, t: Time)
    requires Interrupted(h, previous, a, o, b) && InOrder(a + ([o] + b), now) && lo <= t < now
    ensures var obs, gap := a + ([o] + b), Span(GapStart(previous, a, lo), o.at);
      var told, seen := ToldOnline(h, previous, obs, lo, now), TrulyOnline(h, obs, lo, now);
      && (t in gap ==> (t in told <==> Shown(o) == Online) && (t in seen <==> Held(h, a) == Online))
      && (t !in gap ==> (t in told <==> t in seen))
  {
    PartsInOrder(a, o, b, now);
    ToldOverGap(h, previous, a, o, b, now, t);
    GapMeans(previous, a, lo, now, t);
  }

  /** A server restart interrupts a subject that is otherwise in every snapshot ... */
  lemma RestartInterrupts(p: Subject, a: seq<Observation>, o: Observation, b: seq<Observation>)
    requires AlwaysPresent(a) && o.how.Rebased? && o.subject.Some? && AlwaysPresent(b)
    ensures Interrupted(p.status, Some(p), a, o, b)
  {
    PresentIsLoud(p, a);
    PresentIsLoud(o.subject.value, b);
  }

  lemma {:induction false} LoudJoins(h: Status, previous: Option<Subject>, a: seq<Observation>, b: seq<Observation>)
    requires Loud(h, previous, a) && Loud(Held(h, a), Final(previous, a), b)
    ensures Loud(h, previous, a + b) && Final(previous, a + b) == Final(Final(previous, a), b)
    decreases |a|
  {
    FollowSplit(previous, a, b);
    if a == [] {
      assert a + b == b;
    } else {
      TailOfConcat(a, b);
      assert Held(h, a) == Held(Shown(a[0]), a[1..]);
      LoudJoins(Shown(a[0]), After1(previous, a[0]), a[1..], b);
    }
  }

  lemma {:induction false} LastIsHeld(p: Subject, obs: seq<Observation>)
    requires AlwaysPresent(obs)
    ensures Final(Some(p), obs).Some? && Final(Some(p), obs).value.status == Held(p.status, obs)
    decreases |obs|
  {
    if obs != [] {
      LastIsHeld(obs[0].subject.value, obs[1..]);
      assert Held(p.status, obs) == Held(Shown(obs[0]), obs[1..]);
    }
  }

  /** ... and so does the absence of an app from some snapshots. */
  lemma AbsenceInterrupts(p: Subject, a: seq<Observation>, gone: seq<Observation>, o: Observation, b: seq<Observation>)
    requires p.kind == App && gone != [] && AlwaysPresent(a) && o.subject.Some? && !o.how.Marked? && !o.how.Cached? && AlwaysPresent(b)
    requires forall i :: 0 <= i < |a| ==> a[i].subject.value.kind == App
    requires forall i :: 0 <= i < |gone| ==> gone[i].subject.None? && gone[i].how.Compared?
    ensures Interrupted(p.status, Some(p), a + gone, o, b)
  {
    PresentIsLoud(p, a);
    LastIsHeld(p, a);
    LastIsApp(p, a);
    VanishingIsLoud(Held(p.status, a), Final(Some(p), a), gone);
    LoudJoins(p.status, Some(p), a, gone);
    AbsentStaysAbsent(gone[1..]);
    PresentIsLoud(o.subject.value, b);
  }

  lemma {:induction false} LastIsApp(p: Subject, obs: seq<Observation>)
    requires p.kind == App && AlwaysPresent(obs) && forall i :: 0 <= i < |obs| ==> obs[i].subject.value.kind == App
    ensures Final(Some(p), obs).Some? && Final(Some(p), obs).value.kind == App
    decreases |obs|
  {
    if obs != [] {
      LastIsApp(obs[0].subject.value, obs[1..]);
    }
  }

  /** For the whole pipeline, over any run: the measured time is the time the subject
      was seen online plus exactly the error; and what is reconstructed is what was seen
      at every instant of the window exactly when it is so between any two snapshots. */
  lemma UptimeError(start: Subjects, run: seq<Entry>, s: Store, cap: nat, filter: Filter, out: seq<StatusEvent>, k: SubjectKey,
                    h: Status, since: Time, lo: Time, now: Time)
    requires IsRun(start, run) && WellKeyed(start) && InTime(run, since, now) && since <= now && lo <= now
    requires UpTo(s, since) && UpTo(s, lo) && s.maxPerSubject >= cap && PrunesSpare(run, cap, lo)
    requires AsksFor(filter, k) && IsNewestFirst(out, RecordedAll(s, run).events, filter)
    requires NoneDroppedAfter(Follow(Lookup(start, k), Observed(run, k)), cap, lo)
    ensures var previous, obs := Lookup(start, k), Observed(run, k);
      && |InstantsIn(out, Held(h, obs), now, lo, now, Online)| == |TrulyOnline(h, obs, lo, now)| + Error(h, previous, obs, lo, now)
      && (SameStatus(out, Held(h, obs), h, obs, lo, now) <==> ToldRight(h, previous, obs, lo, now))
  {
    var previous, obs := Lookup(start, k), Observed(run, k);
    UptimeIsTold(start, run, s, cap, filter, out, k, h, since, lo, now);
    ObservedInOrder(start, run, k, since, now);
    ErrorIsExact(h, previous, obs, lo, now);
    ToldRightExactly(h, previous, obs, lo, now);
    SameAsTold(h, previous, obs, out, lo, now);
  }

  lemma SameAsTold(h: Status, previous: Option<Subject>, obs: seq<Observation>, out: seq<StatusEvent>, lo: Time, now: Time)
    requires forall t :: lo <= t < now ==> StatusAt(out, Held(h, obs), now, t) == Told(h, previous, obs, t)
    ensures SameStatus(out, Held(h, obs), h, obs, lo, now) <==> TellsTruth(h, previous, obs, lo, now)
  {
    if SameStatus(out, Held(h, obs), h, obs, lo, now) {
      forall t | lo <= t < now ensures Told(h, previous, obs, t) == TrueStatus(h, obs, t) {
        assert StatusAt(out, Held(h, obs), now, t) == TrueStatus(h, obs, t);
      }
    }
    if TellsTruth(h, previous, obs, lo, now) {
      forall t | lo <= t < now ensures StatusAt(out, Held(h, obs), now, t) == TrueStatus(h, obs, t) {
        assert Told(h, previous, obs, t) == TrueStatus(h, obs, t);
      }
    }
  }
}
