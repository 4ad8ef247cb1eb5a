/** One subject followed through the whole pipeline: snapshots into the
    recorder, its events into the history store, the stored events into the
    uptime walk. */
module Timeline {
  import opened Models
  import opened Recorder
  import opened History
  import opened Uptime
  import opened StableSort
  import opened Collections
  import Text

  /** What becomes of a snapshot: the recorder compares it with what it remembers; it
      starts anew from it; it starts anew and the one who took the snapshot writes an
      event for the subject; or the snapshot is only cached. */
  datatype How = Compared | Rebased | Marked(event: StatusEvent) | Cached

  /** A subject in one snapshot, or its absence. */
  datatype Observation = Observation(subject: Option<Subject>, at: Time, how: How)

  // ---------------------------------------------------------------------
  // One subject's events
  // ---------------------------------------------------------------------

  /** Starting anew forgets what was remembered. */
  function Kept(previous: Option<Subject>, o: Observation): Option<Subject> {
    if o.how.Compared? then previous else None
  }

  function Step1(previous: Option<Subject>, o: Observation): seq<StatusEvent> {
    match o.how
    case Marked(event) => [event]
    case Cached => []
    case _ =>
      var e := Emitted(Kept(previous, o), o.subject, o.at);
      if e.Some? then [e.value] else []
  }

  function After1(previous: Option<Subject>, o: Observation): Option<Subject> {
    if o.how.Cached? then previous else NextState(Kept(previous, o), o.subject)
  }

  /** The events one subject causes over a series of snapshots, oldest first. */
  function Follow(previous: Option<Subject>, obs: seq<Observation>): seq<StatusEvent>
    decreases |obs|
  {
    if obs == [] then []
    else Step1(previous, obs[0]) + Follow(After1(previous, obs[0]), obs[1..])
  }

  function Final(previous: Option<Subject>, obs: seq<Observation>): Option<Subject>
    decreases |obs|
  {
    if obs == [] then previous else Final(After1(previous, obs[0]), obs[1..])
  }

  /** In every snapshot, each of them compared with the one before. */
  ghost predicate AlwaysPresent(obs: seq<Observation>) {
    forall i :: 0 <= i < |obs| ==> obs[i].subject.Some? && obs[i].how.Compared?
  }

  /** Marks bear the time of their observation. */
  ghost predicate MarksInTime(obs: seq<Observation>) {
    forall i :: 0 <= i < |obs| && obs[i].how.Marked? ==> obs[i].how.event.at == obs[i].at
  }

  /** Each event changes the status, and starts where the one before ended. */
  ghost predicate Chain(start: Status, events: seq<StatusEvent>, end: Status)
    decreases |events|
  {
    if events == [] then start == end
    else events[0].from == start && events[0].to != start && Chain(events[0].to, events[1..], end)
  }

  function Changes(start: Status, obs: seq<Observation>): nat
    decreases |obs|
  {
    if obs == [] || obs[0].subject.None? then 0
    else
      var s := obs[0].subject.value.status;
      (if s != start then 1 else 0) + Changes(s, obs[1..])
  }

  /** A subject present in every snapshot: a chain from the baseline to the
      remembered status, one event per change. */
  lemma {:induction false} PresentSubjectChains(p: Subject, obs: seq<Observation>)
    requires AlwaysPresent(obs)
    ensures Final(Some(p), obs).Some?
    ensures Chain(p.status, Follow(Some(p), obs), Final(Some(p), obs).value.status)
    ensures |Follow(Some(p), obs)| == Changes(p.status, obs)
    decreases |obs|
  {
    if obs != [] {
      var s := obs[0].subject.value;
      PresentSubjectChains(s, obs[1..]);
      var first, rest := Step1(Some(p), obs[0]), Follow(Some(s), obs[1..]);
      assert (first + rest)[|first|..] == rest;
    }
  }

  lemma {:induction false} AbsentStaysAbsent(gone: seq<Observation>)
    requires forall i :: 0 <= i < |gone| ==> gone[i].subject.None? && gone[i].how.Compared?
    ensures Follow(None, gone) == [] && Final(None, gone) == None
  {
    if gone != [] {
      AbsentStaysAbsent(gone[1..]);
    }
  }

  lemma {:induction false} FollowSplit(previous: Option<Subject>, a: seq<Observation>, b: seq<Observation>)
    ensures Follow(previous, a + b) == Follow(previous, a) + Follow(Final(previous, a), b)
    ensures Final(previous, a + b) == Final(Final(previous, a), b)
    decreases |a|
  {
    if a == [] {
      assert a + b == b;
      assert [] + Follow(previous, b) == Follow(previous, b);
    } else {
      var next := After1(previous, a[0]);
      TailOfConcat(a, b);
      FollowSplit(next, a[1..], b);
      Associative(Step1(previous, a[0]), Follow(next, a[1..]), Follow(Final(next, a[1..]), b));
    }
  }

  /** An app that vanishes yields one event to unknown, none if it already was
      unknown; on return it is the new baseline, without an event. */
  lemma VanishedAppOnce(p: Subject, gone: seq<Observation>, back: Subject, at: Time)
    requires p.kind == App && gone != []
    requires forall i :: 0 <= i < |gone| ==> gone[i].subject.None? && gone[i].how.Compared?
    ensures var obs := gone + [Observation(Some(back), at, Compared)];
      && Follow(Some(p), obs) == (if p.status == Unknown then [] else [EventOf(p, Gone(p), gone[0].at)])
      && Final(Some(p), obs) == Some(back)
  {
    var last := [Observation(Some(back), at, Compared)];
    FollowSplit(Some(p), gone, last);
    AbsentStaysAbsent(gone[1..]);
    assert Final(Some(p), gone) == None;
    assert last[1..] == [];
  }

  // ---------------------------------------------------------------------
  // The reconstruction is the truth
  // ---------------------------------------------------------------------

  /** What a snapshot shows of an app: an absent one is unknown. */
  function Shown(o: Observation): Status {
    if o.subject.Some? then o.subject.value.status else Unknown
  }

  /** The status the snapshots saw at instant t: that of the last snapshot taken
      no later, or the baseline. */
  function TrueStatus(baseline: Status, obs: seq<Observation>, t: Time): Status {
    if obs == [] then baseline
    else
      var last := obs[|obs| - 1];
      if last.at <= t then Shown(last)
      else TrueStatus(baseline, obs[..|obs| - 1], t)
  }

  function Reversed<T>(s: seq<T>): (r: seq<T>)
    ensures |r| == |s|
    ensures forall i :: 0 <= i < |s| ==> r[i] == s[|s| - 1 - i]
  {
    seq(|s|, i requires 0 <= i < |s| => s[|s| - 1 - i])
  }

  ghost predicate InOrder(obs: seq<Observation>, now: Time) {
    && (forall i, j :: 0 <= i < j < |obs| ==> obs[i].at <= obs[j].at)
    && (forall i :: 0 <= i < |obs| ==> obs[i].at <= now)
    && MarksInTime(obs)
  }

  lemma {:induction false} EventsWithin(previous: Option<Subject>, obs: seq<Observation>, late: Time)
    requires MarksInTime(obs) && forall i :: 0 <= i < |obs| ==> obs[i].at <= late
    ensures forall i :: 0 <= i < |Follow(previous, obs)| ==> Follow(previous, obs)[i].at <= late
    decreases |obs|
  {
    if obs != [] {
      EventsWithin(After1(previous, obs[0]), obs[1..], late);
    }
  }

  /** One more snapshot: its status from then on, and before it what was
      already reconstructed. */
  lemma ReconstructOneMore(earlier: seq<StatusEvent>, e: StatusEvent, s: Status, now: Time, t: Time)
    requires forall i :: 0 <= i < |earlier| ==> earlier[i].at <= e.at
    requires e.at <= now
    ensures StatusAt([e] + earlier, s, now, t) == if e.at <= t then s else StatusAt(earlier, e.from, now, t)
    ensures e.at <= t ==> StatusAt(earlier, s, now, t) == s
  {
    NewestEventFirst(e, earlier, s, now, t);
    if e.at <= t {
      LaterEventsMatterNot(earlier, 0, s, now, t);
    }
  }

  lemma FollowSnoc(p: Subject, before: seq<Observation>, o: Observation)
    ensures Follow(Some(p), before + [o]) == Follow(Some(p), before) + Step1(Final(Some(p), before), o)
    ensures Final(Some(p), before + [o]) == After1(Final(Some(p), before), o)
  {
    FollowSplit(Some(p), before, [o]);
    assert [o][1..] == [];
    assert Step1(Final(Some(p), before), o) + [] == Step1(Final(Some(p), before), o);
  }

  lemma ReversedSnoc(events: seq<StatusEvent>, e: StatusEvent)
    ensures Reversed(events + [e]) == [e] + Reversed(events)
    ensures events + [] == events
  {
  }

  lemma FollowOneMore(p: Subject, before: seq<Observation>, o: Observation)
    requires AlwaysPresent(before) && o.subject.Some? && o.how.Compared?
    ensures Final(Some(p), before).Some? && Final(Some(p), before + [o]) == o.subject
    ensures var held := Final(Some(p), before).value;
            var events := Reversed(Follow(Some(p), before));
      Reversed(Follow(Some(p), before + [o]))
        == if held.status != o.subject.value.status then [EventOf(held, o.subject.value, o.at)] + events else events
  {
    PresentSubjectChains(p, before);
    FollowSnoc(p, before, o);
    var held := Final(Some(p), before).value;
    ReversedSnoc(Follow(Some(p), before), EventOf(held, o.subject.value, o.at));
  }

  lemma TrueOneMore(baseline: Status, before: seq<Observation>, o: Observation, t: Time)
    requires o.subject.Some?
    ensures TrueStatus(baseline, before + [o], t)
      == if o.at <= t then o.subject.value.status else TrueStatus(baseline, before, t)
  {
    assert (before + [o])[..|before + [o]| - 1] == before;
  }

  lemma {:induction false} EarlierWithin(p: Subject, before: seq<Observation>, late: Time)
    requires AlwaysPresent(before) && forall i :: 0 <= i < |before| ==> before[i].at <= late
    ensures var earlier := Reversed(Follow(Some(p), before)); forall i :: 0 <= i < |earlier| ==> earlier[i].at <= late
  {
    EventsWithin(Some(p), before, late);
  }

  /** What one more status makes of the reconstruction. */
  lemma {:induction false} OneMoreTold(earlier: seq<StatusEvent>, held: Subject, s: Subject, at: Time, now: Time, t: Time)
    requires (forall i :: 0 <= i < |earlier| ==> earlier[i].at <= at) && at <= now
    ensures var out := if held.status != s.status then [EventOf(held, s, at)] + earlier else earlier;
      StatusAt(out, s.status, now, t) == if at <= t then s.status else StatusAt(earlier, held.status, now, t)
  {
    ReconstructOneMore(earlier, EventOf(held, s, at), s.status, now, t);
  }

  lemma {:induction false} OneMoreIsTrue(p: Subject, before: seq<Observation>, o: Observation, now: Time, t: Time)
    requires AlwaysPresent(before) && o.subject.Some? && o.how.Compared?
    requires (forall i :: 0 <= i < |before| ==> before[i].at <= o.at) && o.at <= now
    requires Final(Some(p), before).Some?
    requires StatusAt(Reversed(Follow(Some(p), before)), Final(Some(p), before).value.status, now, t) == TrueStatus(p.status, before, t)
    ensures StatusAt(Reversed(Follow(Some(p), before + [o])), o.subject.value.status, now, t) == TrueStatus(p.status, before + [o], t)
    ensures Final(Some(p), before + [o]) == o.subject
  {
    FollowOneMore(p, before, o);
    TrueOneMore(p.status, before, o, t);
    EarlierWithin(p, before, o.at);
    OneMoreTold(Reversed(Follow(Some(p), before)), Final(Some(p), before).value, o.subject.value, o.at, now, t);
  }

  /** Reading the events backwards recovers what the snapshots saw. */
  lemma {:induction false} ReconstructionIsTrue(p: Subject, obs: seq<Observation>, now: Time, t: Time)
    requires AlwaysPresent(obs) && InOrder(obs, now) && t < now
    ensures Final(Some(p), obs).Some?
    ensures StatusAt(Reversed(Follow(Some(p), obs)), Final(Some(p), obs).value.status, now, t)
      == TrueStatus(p.status, obs, t)
    decreases |obs|
  {
    if obs != [] {
      var n := |obs| - 1;
      assert obs == obs[..n] + [obs[n]];
      ReconstructionIsTrue(p, obs[..n], now, t);
      OneMoreIsTrue(p, obs[..n], obs[n], now, t);
    }
  }

  // ---------------------------------------------------------------------
  // Whole snapshots, whole stores
  // ---------------------------------------------------------------------

  /** Where a snapshot comes from: the poll; the first poll of a restarted server; the
      verification of a repair, which writes an event of its own and has the recorder
      observe the snapshot; or a refresh that nobody records. */
  datatype Origin = Polled | Restarted | Repair(event: StatusEvent) | Refreshed

  /** One snapshot: where it comes from, the subjects seen in it and its time, what was
      written and for which keys, what the recorder remembers afterwards, and whether the
      store is pruned right after. */
  datatype Entry = Entry(origin: Origin, seen: Subjects, at: Time, events: seq<StatusEvent>, keys: seq<SubjectKey>, next: Subjects,
                         prune: Option<Pruning>)
  datatype Pruning = Pruning(retention: Retention, now: Instant)

  /** Each entry is what the recorder's contract allows after the one before, for
      subjects filed as SnapshotsAreWellKeyed says. */
  ghost predicate IsRun(start: Subjects, run: seq<Entry>)
    decreases |run|
  {
    run == [] || (IsEntry(Known(start, run[0]), run[0]) && IsRun(run[0].next, run[1..]))
  }

  ghost predicate IsEntry(known: Subjects, e: Entry) {
    && WellKeyed(e.seen)
    && match e.origin
       case Repair(event) => e.events == [event] && event.at == e.at && Text.Trimmed(event.subjectId) && e.next == e.seen
       case Refreshed => e.events == [] && e.next == known
       case _ => IsBatch(e.events, e.keys, known, e.seen, e.at) && IsNext(e.next, known, e.seen)
  }

  /** A new recorder knows nothing, and an observing one forgets. */
  function Known(start: Subjects, e: Entry): Subjects {
    if e.origin.Polled? || e.origin.Refreshed? then start else map[]
  }

  /** The snapshots' times do not go back, and none is later than now. */
  ghost predicate InTime(run: seq<Entry>, since: Time, now: Time)
    decreases |run|
  {
    run == [] || (since <= run[0].at <= now && InTime(run[1..], run[0].at, now))
  }

  function Written(run: seq<Entry>): seq<StatusEvent> {
    if run == [] then [] else run[0].events + Written(run[1..])
  }

  function Appends(run: seq<Entry>): seq<Op> {
    if run == [] then [] else [Op.Append(run[0].events)] + Appends(run[1..])
  }

  lemma {:induction false} AppendsReachFile(s: Store, run: seq<Entry>)
    ensures Run(s, Appends(run)).file == s.file + Written(run)
    ensures Run(s, Appends(run)).maxPerSubject == s.maxPerSubject
    decreases |run|
  {
    if run == [] {
      assert s.file + [] == s.file;
    } else {
      var next := History.Step(s, Op.Append(run[0].events));
      AppendsReachFile(next, run[1..]);
      TailOfConcat([Op.Append(run[0].events)], Appends(run[1..]));
      Associative(s.file, run[0].events, Written(run[1..]));
    }
  }

  /** Appending a run's batches to a new store leaves memory holding the view of
      all of them together. */
  lemma StoredRun(run: seq<Entry>, cap: nat)
    requires cap > 0
    ensures Run(Opened([], cap), Appends(run)).events == View(Written(run), cap)
  {
    AppendsReachFile(Opened([], cap), run);
    RestartAgreement([], cap, Appends(run));
    assert [] + Written(run) == Written(run);
  }

  /** What the server does with a snapshot it records: append, and at least hourly prune. After a
      restart it opens the file anew, under the cap in force. */
  function Recorded(s: Store, e: Entry): Store {
    var reloaded := if e.origin.Restarted? then Opened(s.file, s.maxPerSubject) else s;
    var appended := History.Step(reloaded, Op.Append(e.events));
    if e.origin.Refreshed? then s
    else if e.prune.Some? then History.Step(appended, Op.Prune(e.prune.value.retention, e.prune.value.now)) else appended
  }

  function RecordedAll(s: Store, run: seq<Entry>): Store
    decreases |run|
  {
    if run == [] then s else RecordedAll(Recorded(s, run[0]), run[1..])
  }

  function HowFor(origin: Origin, k: SubjectKey): How {
    match origin
    case Polled => Compared
    case Restarted => Rebased
    case Repair(event) => if KeyOf(event) == k then Marked(event) else Rebased
    case Refreshed => Cached
  }

  function ObservedIn(e: Entry, k: SubjectKey): Observation {
    Observation(Lookup(e.seen, k), e.at, HowFor(e.origin, k))
  }

  function Observed(run: seq<Entry>, k: SubjectKey): (r: seq<Observation>)
    ensures |r| == |run|
  {
    if run == [] then []
    else [ObservedIn(run[0], k)] + Observed(run[1..], k)
  }

  ghost predicate SeenThroughout(run: seq<Entry>, k: SubjectKey)
    decreases |run|
  {
    run == [] || (k in run[0].seen && run[0].origin.Polled? && SeenThroughout(run[1..], k))
  }

  lemma {:induction false} ObservedAlways(run: seq<Entry>, k: SubjectKey)
    requires SeenThroughout(run, k)
    ensures AlwaysPresent(Observed(run, k))
    decreases |run|
  {
    if run != [] {
      ObservedAlways(run[1..], k);
    }
  }

  lemma {:induction false} CollectWellKeyed(subjects: seq<Subject>)
    requires forall i :: 0 <= i < |subjects| ==> Text.Trimmed(subjects[i].id)
    ensures WellKeyed(Collect(subjects))
  {
    if subjects != [] {
      CollectWellKeyed(subjects[..|subjects| - 1]);
    }
  }

  lemma {:induction false} AppSubjectsTrimmed(apps: seq<AppStatus>)
    ensures forall i :: 0 <= i < |AppSubjects(apps)| ==> Text.Trimmed(AppSubjects(apps)[i].id)
  {
    if apps != [] {
      AppSubjectsTrimmed(apps[..|apps| - 1]);
    }
  }

  lemma InfraTrimmed(infra: Infrastructure)
    ensures forall i :: 0 <= i < |InfraSubjects(infra)| ==> Text.Trimmed(InfraSubjects(infra)[i].id)
  {
  }

  lemma SnapshotsAreWellKeyed(snapshot: Snapshot)
    ensures WellKeyed(SubjectsOf(snapshot))
  {
    AppSubjectsTrimmed(snapshot.apps);
    InfraTrimmed(snapshot.infra);
    CollectWellKeyed(AppSubjects(snapshot.apps) + InfraSubjects(snapshot.infra));
  }

  lemma {:induction false} PickKey(events: seq<StatusEvent>, keys: seq<SubjectKey>, k: SubjectKey, i: nat)
    requires |events| == |keys| && forall j :: 0 <= j < |keys| ==> KeyOf(events[j]) == keys[j]
    requires forall a, b :: 0 <= a < b < |keys| ==> keys[a] != keys[b]
    ensures k !in keys ==> ForSubject(events, k) == []
    ensures i < |keys| && keys[i] == k ==> ForSubject(events, k) == [events[i]]
  {
    if events != [] {
      PickKey(events[1..], keys[1..], k, if i == 0 then 0 else i - 1);
    }
  }

  /** A batch holds at most one event of a subject: the one it emits. */
  lemma BatchPerSubject(events: seq<StatusEvent>, keys: seq<SubjectKey>, previous: Subjects, current: Subjects, at: Time, k: SubjectKey)
    requires IsBatch(events, keys, previous, current, at) && WellKeyed(previous) && WellKeyed(current)
    ensures ForSubject(events, k) == Step1(Lookup(previous, k), Observation(Lookup(current, k), at, Compared))
  {
    forall j | 0 <= j < |keys| ensures KeyOf(events[j]) == keys[j] {
      assert keys[j] in keys;
    }
    if k in keys {
      var i :| 0 <= i < |keys| && keys[i] == k;
      PickKey(events, keys, k, i);
    } else {
      PickKey(events, keys, k, 0);
    }
  }

  lemma NextWellKeyed(next: Subjects, previous: Subjects, current: Subjects)
    requires IsNext(next, previous, current) && WellKeyed(previous) && WellKeyed(current)
    ensures WellKeyed(next)
  {
    forall k | k in next ensures k == KeyFor(next[k]) && Text.Trimmed(next[k].id) {
      assert Lookup(next, k) == NextState(Lookup(previous, k), Lookup(current, k));
    }
  }

  lemma {:induction false} ForSubjectAppend(a: seq<StatusEvent>, b: seq<StatusEvent>, k: SubjectKey)
    ensures ForSubject(a + b, k) == ForSubject(a, k) + ForSubject(b, k)
  {
    if a == [] {
      assert a + b == b;
    } else {
      assert (a + b)[1..] == a[1..] + b;
      ForSubjectAppend(a[1..], b, k);
    }
  }

  lemma PollPerSubject(start: Subjects, e: Entry, k: SubjectKey)
    requires IsEntry(Known(start, e), e) && WellKeyed(start) && (e.origin.Polled? || e.origin.Restarted?)
    ensures WellKeyed(e.next) && ForSubject(e.events, k) == Step1(Lookup(start, k), ObservedIn(e, k))
    ensures Lookup(e.next, k) == After1(Lookup(start, k), ObservedIn(e, k))
  {
    BatchPerSubject(e.events, e.keys, Known(start, e), e.seen, e.at, k);
    NextWellKeyed(e.next, Known(start, e), e.seen);
  }

  lemma RepairPerSubject(start: Subjects, e: Entry, k: SubjectKey)
    requires IsEntry(Known(start, e), e) && e.origin.Repair?
    ensures WellKeyed(e.next) && ForSubject(e.events, k) == Step1(Lookup(start, k), ObservedIn(e, k))
    ensures Lookup(e.next, k) == After1(Lookup(start, k), ObservedIn(e, k))
  {
    ForSubjectCons(e.origin.event, [], k);
    assert [e.origin.event] + [] == e.events;
  }

  /** What an entry means for one subject. */
  lemma EntryPerSubject(start: Subjects, e: Entry, k: SubjectKey)
    requires IsEntry(Known(start, e), e) && WellKeyed(start)
    ensures WellKeyed(e.next) && ForSubject(e.events, k) == Step1(Lookup(start, k), ObservedIn(e, k))
    ensures Lookup(e.next, k) == After1(Lookup(start, k), ObservedIn(e, k))
  {
    match e.origin
    case Repair(_) => RepairPerSubject(start, e, k);
    case Refreshed =>
    case _ => PollPerSubject(start, e, k);
  }

  lemma EntryEvents(start: Subjects, e: Entry)
    requires IsEntry(Known(start, e), e) && WellKeyed(start)
    ensures WellKeyed(e.next)
    ensures forall x :: x in e.events ==> x.at == e.at && Text.Trimmed(x.subjectId)
  {
    if e.origin.Polled? || e.origin.Restarted? {
      NextWellKeyed(e.next, Known(start, e), e.seen);
      BatchEvents(e.events, e.keys, Known(start, e), e.seen, e.at);
    }
  }

  /** The recorder treats subjects independently: among all events of a run,
      those of one subject are what that subject alone would have caused. */
  lemma {:induction false} RunPerSubject(start: Subjects, run: seq<Entry>, k: SubjectKey)
    requires IsRun(start, run) && WellKeyed(start)
    ensures ForSubject(Written(run), k) == Follow(Lookup(start, k), Observed(run, k))
    decreases |run|
  {
    if run != [] {
      var e := run[0];
      EntryPerSubject(start, e, k);
      RunPerSubject(e.next, run[1..], k);
      ForSubjectAppend(e.events, Written(run[1..]), k);
      assert Observed(run, k)[1..] == Observed(run[1..], k);
    }
  }

  lemma {:induction false} RunEvents(start: Subjects, run: seq<Entry>, since: Time, now: Time)
    requires IsRun(start, run) && WellKeyed(start) && InTime(run, since, now)
    ensures Sorted(Written(run), EventAt)
    ensures forall e :: e in Written(run) ==> Text.Trimmed(e.subjectId) && since <= e.at <= now
    decreases |run|
  {
    if run != [] {
      var e := run[0];
      EntryEvents(start, e);
      RunEvents(e.next, run[1..], e.at, now);
      SortedConcat(e.events, Written(run[1..]), e.at);
    }
  }

  lemma BatchEvents(events: seq<StatusEvent>, keys: seq<SubjectKey>, previous: Subjects, current: Subjects, at: Time)
    requires IsBatch(events, keys, previous, current, at) && WellKeyed(previous) && WellKeyed(current)
    ensures forall e :: e in events ==> e.at == at && Text.Trimmed(e.subjectId)
  {
    forall e | e in events ensures e.at == at && Text.Trimmed(e.subjectId) {
      var i :| 0 <= i < |events| && events[i] == e;
      assert keys[i] in keys;
    }
  }

  lemma SortedConcat(a: seq<StatusEvent>, b: seq<StatusEvent>, at: Time)
    requires (forall e :: e in a ==> e.at == at) && (forall e :: e in b ==> at <= e.at) && Sorted(b, EventAt)
    ensures Sorted(a + b, EventAt)
  {
    var all := a + b;
    forall i, j | 0 <= i < j < |all| ensures all[i].at <= all[j].at {
      assert i < |a| ==> all[i] in a;
      assert if j < |a| then all[j] in a else all[j] in b;
      assert i >= |a| ==> EventAt(b[i - |a|]) <= EventAt(b[j - |a|]);
    }
  }

  /** A query for one subject: any time, no limit. */
  ghost predicate AsksFor(filter: Filter, k: SubjectKey) {
    && filter == Filter(k.kind, filter.subjectId, 0, 0) && k.kind != NoType
    && filter.subjectId != "" && Text.Trimmed(filter.subjectId) && k.id == Text.NormalId(filter.subjectId)
  }

  lemma MatchesOwnSubject(e: StatusEvent, filter: Filter, k: SubjectKey)
    requires Text.Trimmed(e.subjectId) && AsksFor(filter, k)
    ensures Matches(e, filter) <==> KeyOf(e) == k
  {
    Text.TrimmedIsFixed(e.subjectId);
    Text.TrimmedIsFixed(filter.subjectId);
  }

  /** With trimmed ids, filtering by type and id selects exactly one subject. */
  lemma {:induction false} FilterSelectsSubject(events: seq<StatusEvent>, filter: Filter, k: SubjectKey)
    requires forall e :: e in events ==> Text.Trimmed(e.subjectId)
    requires AsksFor(filter, k)
    ensures Matching(events, filter) == ForSubject(events, k)
  {
    if events != [] {
      assert events[0] in events;
      MatchesOwnSubject(events[0], filter, k);
      FilterSelectsSubject(events[1..], filter, k);
    }
  }

  /** Two accounts of a subject agree at every instant of [lo, hi). */
  ghost predicate SameStatus(out: seq<StatusEvent>, current: Status, baseline: Status, obs: seq<Observation>, lo: Time, now: Time) {
    forall t :: lo <= t < now ==> StatusAt(out, current, now, t) == TrueStatus(baseline, obs, t)
  }

  /** Prunes reach back no further than lo and leave every subject at least cap
      events. */
  ghost predicate PrunesSpare(run: seq<Entry>, cap: nat, lo: Time)
    decreases |run|
  {
    run == [] ||
    ((run[0].prune.Some? ==> Spares(run[0].prune.value, cap, lo)) && PrunesSpare(run[1..], cap, lo))
  }

  predicate Spares(p: Pruning, cap: nat, lo: Time) {
    && (p.retention.maxAge <= 0 || p.now == p.retention.maxAge || p.now - p.retention.maxAge <= lo)
    && (p.retention.maxPerSubject <= 0 || p.retention.maxPerSubject >= cap)
  }

  /** A store of the recorder's own events, none later than t. */
  ghost predicate UpTo(s: Store, t: Time) {
    Consistent(s) && forall e :: e in s.events ==> e.at <= t && Text.Trimmed(e.subjectId)
  }

  /** mem is a tail of own; what it lacks is no later than lo, or has at least cap
      later events. */
  ghost predicate Remembered(mem: seq<StatusEvent>, own: seq<StatusEvent>, cap: nat, lo: Time) {
    && |mem| <= |own| && mem == own[|own| - |mem|..]
    && forall j :: 0 <= j < |own| - |mem| ==> own[j].at <= lo || j + cap < |own|
  }

  lemma TailOfTail<T>(own: seq<T>, mem: seq<T>, tail: seq<T>)
    requires |tail| <= |mem| <= |own| && mem == own[|own| - |mem|..] && tail == mem[|mem| - |tail|..]
    ensures tail == own[|own| - |tail|..]
  {
  }

  lemma CapRemembers(mem: seq<StatusEvent>, own: seq<StatusEvent>, more: seq<StatusEvent>, limit: nat, cap: nat, lo: Time)
    requires Remembered(mem, own, cap, lo) && limit >= cap
    ensures Remembered(LastN(mem + more, limit), own + more, cap, lo)
  {
    var all, kept := own + more, LastN(mem + more, limit);
    assert mem + more == all[|all| - |mem + more|..];
    TailOfTail(all, mem + more, kept);
    forall j | 0 <= j < |all| - |kept| ensures all[j].at <= lo || j + cap < |all| {
      if j < |own| - |mem| {
        assert all[j] == own[j];
      }
    }
  }

  lemma {:induction false} AgedIsTail(mem: seq<StatusEvent>, cutoff: Time)
    requires Sorted(mem, EventAt)
    ensures var aged := Aged(mem, cutoff);
      |aged| <= |mem| && aged == mem[|mem| - |aged|..] && forall j :: 0 <= j < |mem| - |aged| ==> TooOld(mem[j], cutoff)
  {
    if mem != [] {
      AgedIsTail(mem[1..], cutoff);
      if !TooOld(mem[0], cutoff) {
        NoneTooOld(mem, cutoff);
      }
    }
  }

  lemma {:induction false} NoneTooOld(mem: seq<StatusEvent>, cutoff: Time)
    requires Sorted(mem, EventAt) && mem != [] && !TooOld(mem[0], cutoff)
    ensures Aged(mem, cutoff) == mem
    decreases |mem|
  {
    if |mem| > 1 {
      assert EventAt(mem[0]) <= EventAt(mem[1]);
      NoneTooOld(mem[1..], cutoff);
    }
  }

  lemma AgeRemembers(mem: seq<StatusEvent>, own: seq<StatusEvent>, cutoff: Time, cap: nat, lo: Time)
    requires Remembered(mem, own, cap, lo) && Sorted(mem, EventAt) && (cutoff == 0 || cutoff <= lo)
    ensures Remembered(Aged(mem, cutoff), own, cap, lo)
  {
    var aged := Aged(mem, cutoff);
    AgedIsTail(mem, cutoff);
    TailOfTail(own, mem, aged);
    forall j | 0 <= j < |own| - |aged| ensures own[j].at <= lo || j + cap < |own| {
      if j >= |own| - |mem| {
        assert own[j] == mem[j - (|own| - |mem|)];
      }
    }
  }

  lemma {:induction false} AgedPerSubject(s: seq<StatusEvent>, cutoff: Time, k: SubjectKey)
    ensures ForSubject(Aged(s, cutoff), k) == Aged(ForSubject(s, k), cutoff)
  {
    if s != [] {
      var rest := ForSubject(s[1..], k);
      AgedPerSubject(s[1..], cutoff, k);
      ForSubjectCons(s[0], Aged(s[1..], cutoff), k);
      ForSubjectCons(s[0], s[1..], k);
      assert [s[0]] + s[1..] == s;
      assert ([s[0]] + rest)[1..] == rest;
    }
  }

  /** A sorted sequence cut to a cap, seen from one subject. */
  lemma ViewPerSubject(s: seq<StatusEvent>, cap: nat, k: SubjectKey)
    requires Sorted(s, EventAt)
    ensures ForSubject(View(s, cap), k) == LastN(ForSubject(s, k), cap)
    ensures forall e :: e in View(s, cap) ==> e in s
  {
    SortedIsFixed(s, EventAt);
    KeepSorted(s, cap);
    KeepIsNewestPerSubject(s, cap, k);
  }

  lemma UpToSorted(s: Store, t: Time)
    requires UpTo(s, t)
    ensures Sorted(s.events, EventAt)
  {
    ViewIsCapped(s.file, s.maxPerSubject);
  }

  lemma AppendRemembers(s: Store, added: seq<StatusEvent>, at: Time, own: seq<StatusEvent>, cap: nat, lo: Time, k: SubjectKey)
    requires UpTo(s, at) && s.maxPerSubject >= cap && Remembered(ForSubject(s.events, k), own, cap, lo)
    requires forall e :: e in added ==> e.at == at && Text.Trimmed(e.subjectId)
    ensures var t := History.Step(s, Op.Append(added));
      UpTo(t, at) && t.maxPerSubject == s.maxPerSubject && Remembered(ForSubject(t.events, k), own + ForSubject(added, k), cap, lo)
  {
    UpToSorted(s, at);
    LateSorted(s.events, added, at);
    StepConsistent(s, Op.Append(added));
    ViewPerSubject(s.events + added, s.maxPerSubject, k);
    ForSubjectAppend(s.events, added, k);
    CapRemembers(ForSubject(s.events, k), own, ForSubject(added, k), s.maxPerSubject, cap, lo);
  }

  lemma LateSorted(a: seq<StatusEvent>, b: seq<StatusEvent>, at: Time)
    requires Sorted(a, EventAt) && (forall e :: e in a ==> e.at <= at) && (forall e :: e in b ==> e.at == at)
    ensures Sorted(a + b, EventAt)
  {
    var all := a + b;
    forall i, j | 0 <= i < j < |all| ensures all[i].at <= all[j].at {
      assert if i < |a| then all[i] in a else all[i] in b;
      assert if j < |a| then EventAt(a[i]) <= EventAt(a[j]) else all[j] in b;
    }
  }

  lemma AgedSorted(s: seq<StatusEvent>, cutoff: Time)
    requires Sorted(s, EventAt)
    ensures Sorted(Aged(s, cutoff), EventAt) && forall e :: e in Aged(s, cutoff) ==> e in s
  {
    WithoutKeeps(s, e => TooOld(e, cutoff));
  }

  lemma PruneStaysUpTo(s: Store, p: Pruning, at: Time)
    requires UpTo(s, at)
    ensures UpTo(History.Step(s, Op.Prune(p.retention, p.now)), at)
  {
    var cutoff, t := CutOff(p.retention, p.now), History.Step(s, Op.Prune(p.retention, p.now));
    UpToSorted(s, at);
    StepConsistent(s, Op.Prune(p.retention, p.now));
    AgedSorted(s.events, cutoff);
    ViewPerSubject(Aged(s.events, cutoff), t.maxPerSubject, SubjectKey(NoType, ""));
  }

  lemma PruneRemembers(s: Store, p: Pruning, at: Time, own: seq<StatusEvent>, cap: nat, lo: Time, k: SubjectKey)
    requires UpTo(s, at) && s.maxPerSubject >= cap && Remembered(ForSubject(s.events, k), own, cap, lo) && Spares(p, cap, lo)
    ensures var t := History.Step(s, Op.Prune(p.retention, p.now));
      UpTo(t, at) && t.maxPerSubject >= cap && Remembered(ForSubject(t.events, k), own, cap, lo)
  {
    var cutoff, t := CutOff(p.retention, p.now), History.Step(s, Op.Prune(p.retention, p.now));
    PruneStaysUpTo(s, p, at);
    UpToSorted(s, at);
    CutRemembers(s.events, cutoff, t.maxPerSubject, own, cap, lo, k);
  }

  lemma CutRemembers(events: seq<StatusEvent>, cutoff: Time, limit: nat, own: seq<StatusEvent>, cap: nat, lo: Time, k: SubjectKey)
    requires Sorted(events, EventAt) && Remembered(ForSubject(events, k), own, cap, lo)
    requires limit >= cap && (cutoff == 0 || cutoff <= lo)
    ensures Remembered(ForSubject(View(Aged(events, cutoff), limit), k), own, cap, lo)
  {
    var mem := ForSubject(Aged(events, cutoff), k);
    AgedSorted(events, cutoff);
    ViewPerSubject(Aged(events, cutoff), limit, k);
    AgedPerSubject(events, cutoff, k);
    ForSubjectSorted(events, k);
    AgeRemembers(ForSubject(events, k), own, cutoff, cap, lo);
    CapRemembers(mem, own, [], limit, cap, lo);
    assert mem + [] == mem && own + [] == own;
  }

  lemma EntryRemembers(start: Subjects, e: Entry, s: Store, own: seq<StatusEvent>, cap: nat, lo: Time, k: SubjectKey)
    requires IsEntry(Known(start, e), e) && WellKeyed(start)
    requires UpTo(s, e.at) && s.maxPerSubject >= cap && Remembered(ForSubject(s.events, k), own, cap, lo)
    requires e.prune.Some? ==> Spares(e.prune.value, cap, lo)
    ensures var t := Recorded(s, e);
      && UpTo(t, e.at) && t.maxPerSubject >= cap
      && Remembered(ForSubject(t.events, k), own + Step1(Lookup(start, k), ObservedIn(e, k)), cap, lo)
  {
    assert Opened(s.file, s.maxPerSubject) == s;
    var appended := History.Step(s, Op.Append(e.events));
    EntryPerSubject(start, e, k);
    if e.origin.Refreshed? {
      assert own + [] == own;
      return;
    }
    EntryEvents(start, e);
    AppendRemembers(s, e.events, e.at, own, cap, lo, k);
    if e.prune.Some? {
      PruneRemembers(appended, e.prune.value, e.at, own + ForSubject(e.events, k), cap, lo, k);
    }
  }

  /** Through any run of snapshots and prunes, the store remembers of a subject's
      own events a tail that lacks nothing it could need. */
  lemma {:induction false} RunRemembers(start: Subjects, run: seq<Entry>, s: Store, own: seq<StatusEvent>, cap: nat, k: SubjectKey,
                                        since: Time, lo: Time, now: Time)
    requires IsRun(start, run) && WellKeyed(start) && InTime(run, since, now) && since <= now
    requires UpTo(s, since) && s.maxPerSubject >= cap && PrunesSpare(run, cap, lo)
    requires Remembered(ForSubject(s.events, k), own, cap, lo)
    ensures var t := RecordedAll(s, run);
      && UpTo(t, now)
      && Remembered(ForSubject(t.events, k), own + Follow(Lookup(start, k), Observed(run, k)), cap, lo)
    decreases |run|
  {
    if run == [] {
      assert own + [] == own;
    } else {
      var e, rest := run[0], run[1..];
      var first := Step1(Lookup(start, k), ObservedIn(e, k));
      EntryRemembers(start, e, s, own, cap, lo, k);
      EntryPerSubject(start, e, k);
      RunRemembers(e.next, rest, Recorded(s, e), own + first, cap, k, e.at, lo, now);
      FollowRun(start, run, k);
      Associative(own, first, Follow(Lookup(e.next, k), Observed(rest, k)));
    }
  }

  lemma {:induction false} FollowRun(start: Subjects, run: seq<Entry>, k: SubjectKey)
    requires run != [] && IsEntry(Known(start, run[0]), run[0]) && WellKeyed(start)
    ensures Follow(Lookup(start, k), Observed(run, k))
      == Step1(Lookup(start, k), ObservedIn(run[0], k)) + Follow(Lookup(run[0].next, k), Observed(run[1..], k))
  {
    EntryPerSubject(start, run[0], k);
    assert Observed(run, k)[1..] == Observed(run[1..], k);
  }

  /** The whole pipeline: a store opened on whatever the recorder wrote up to lo,
      then any run of snapshots and prunes, for a subject present in every snapshot
      since its baseline. The query yields its events newest first; and as long as
      no prune reaches beyond lo and the cap drops no event later than lo, they
      reconstruct at every instant from lo on the status the snapshots saw. So the
      online time the walk measures over them is the time the subject was seen
      online. */
  lemma UptimeIsTrue(start: Subjects, run: seq<Entry>, s: Store, cap: nat, filter: Filter, out: seq<StatusEvent>,
                     k: SubjectKey, since: Time, lo: Time, now: Time)
    requires IsRun(start, run) && WellKeyed(start) && InTime(run, since, now) && since <= now
    requires UpTo(s, since) && UpTo(s, lo) && s.maxPerSubject >= cap && PrunesSpare(run, cap, lo)
    requires AsksFor(filter, k) && IsNewestFirst(out, RecordedAll(s, run).events, filter)
    requires k in start && SeenThroughout(run, k)
    ensures NewestFirst(out)
    ensures var p, obs := start[k], Observed(run, k);
      NoneDroppedAfter(Follow(Some(p), obs), cap, lo) ==>
        && SameStatus(out, StatusNow(p, obs), p.status, obs, lo, now)
        && InstantsIn(out, StatusNow(p, obs), now, lo, now, Online) == TrulyOnline(p.status, obs, lo, now)
  {
    var t, earlier := RecordedAll(s, run), ForSubject(s.events, k);
    assert earlier == earlier[|earlier| - |earlier|..];
    RunRemembers(start, run, s, earlier, cap, k, since, lo, now);
    AnsweredFromMemory(t, now, filter, out, k);
    ObservedInOrder(start, run, k, since, now);
    ObservedAlways(run, k);
    SubjectEventsSorted(start, run, k, since, now);
    OldNoLater(s, lo, k);
    RememberedSuffices(start[k], Observed(run, k), earlier, ForSubject(t.events, k), cap, lo, now);
  }

  lemma OldNoLater(s: Store, lo: Time, k: SubjectKey)
    requires UpTo(s, lo)
    ensures forall i :: 0 <= i < |ForSubject(s.events, k)| ==> ForSubject(s.events, k)[i].at <= lo
  {
    var earlier := ForSubject(s.events, k);
    SubjectMembers(s.events, k);
    forall i | 0 <= i < |earlier| ensures earlier[i].at <= lo {
      assert earlier[i] in earlier;
    }
  }

  lemma AnsweredFromMemory(t: Store, now: Time, filter: Filter, out: seq<StatusEvent>, k: SubjectKey)
    requires UpTo(t, now) && AsksFor(filter, k) && IsNewestFirst(out, t.events, filter)
    ensures out == Reversed(ForSubject(t.events, k)) && NewestFirst(out)
  {
    FilterSelectsSubject(t.events, filter, k);
    UpToSorted(t, now);
    ForSubjectSorted(t.events, k);
    SortedReversed(ForSubject(t.events, k));
  }

  lemma SortedReversed(s: seq<StatusEvent>)
    requires Sorted(s, EventAt)
    ensures NewestFirst(Reversed(s))
  {
    forall i, j | 0 <= i < j < |s| ensures Reversed(s)[j].at <= Reversed(s)[i].at {
      assert EventAt(s[|s| - 1 - j]) <= EventAt(s[|s| - 1 - i]);
    }
  }

  /** Events up to t, at the old end, do not matter at t. */
  lemma SuffixSuffices(own: seq<StatusEvent>, n: nat, current: Status, now: Time, t: Time)
    requires n <= |own| && forall j :: 0 <= j < n ==> own[j].at <= t
    ensures StatusAt(Reversed(own[n..]), current, now, t) == StatusAt(Reversed(own), current, now, t)
  {
    var all, out := Reversed(own), Reversed(own[n..]);
    assert all[..|out|] == out;
    LaterEventsMatterNot(all, |out|, current, now, t);
  }

  lemma LackingIsEarly(earlier: seq<StatusEvent>, own: seq<StatusEvent>, mem: seq<StatusEvent>, cap: nat, lo: Time)
    requires Sorted(own, EventAt) && (forall i :: 0 <= i < |earlier| ==> earlier[i].at <= lo)
    requires Remembered(mem, earlier + own, cap, lo) && NoneDroppedAfter(own, cap, lo)
    ensures forall j :: 0 <= j < |earlier + own| - |mem| ==> (earlier + own)[j].at <= lo
  {
    forall j | 0 <= j < |earlier + own| - |mem| ensures (earlier + own)[j].at <= lo {
      if j >= |earlier| && j + cap < |earlier + own| {
        assert EventAt(own[j - |earlier|]) <= EventAt(own[|own| - cap - 1]);
      }
    }
  }

  lemma RememberedSuffices(p: Subject, obs: seq<Observation>, earlier: seq<StatusEvent>, mem: seq<StatusEvent>, cap: nat, lo: Time, now: Time)
    requires AlwaysPresent(obs) && InOrder(obs, now) && Sorted(Follow(Some(p), obs), EventAt)
    requires forall i :: 0 <= i < |earlier| ==> earlier[i].at <= lo
    requires Remembered(mem, earlier + Follow(Some(p), obs), cap, lo)
    ensures NoneDroppedAfter(Follow(Some(p), obs), cap, lo) ==>
      && SameStatus(Reversed(mem), StatusNow(p, obs), p.status, obs, lo, now)
      && InstantsIn(Reversed(mem), StatusNow(p, obs), now, lo, now, Online) == TrulyOnline(p.status, obs, lo, now)
  {
    var own, current := Follow(Some(p), obs), StatusNow(p, obs);
    if NoneDroppedAfter(own, cap, lo) {
      LackingIsEarly(earlier, own, mem, cap, lo);
      assert (earlier + own)[|earlier|..] == own;
      forall t | lo <= t < now ensures StatusAt(Reversed(mem), current, now, t) == TrueStatus(p.status, obs, t) {
        SuffixSuffices(earlier + own, |earlier + own| - |mem|, current, now, t);
        SuffixSuffices(earlier + own, |earlier|, current, now, t);
        ReconstructionIsTrue(p, obs, now, t);
      }
    }
  }

  lemma NewestSuffice(p: Subject, obs: seq<Observation>, cap: nat, lo: Time, now: Time)
    requires AlwaysPresent(obs) && InOrder(obs, now) && Sorted(Follow(Some(p), obs), EventAt)
    ensures var out := Reversed(LastN(Follow(Some(p), obs), cap));
      && NewestFirst(out)
      && (NoneDroppedAfter(Follow(Some(p), obs), cap, lo) ==>
            && SameStatus(out, StatusNow(p, obs), p.status, obs, lo, now)
            && InstantsIn(out, StatusNow(p, obs), now, lo, now, Online) == TrulyOnline(p.status, obs, lo, now))
  {
    var out := Reversed(LastN(Follow(Some(p), obs), cap));
    NewestFirstOfSorted(Follow(Some(p), obs), cap);
    if NoneDroppedAfter(Follow(Some(p), obs), cap, lo) {
      forall t | lo <= t < now ensures StatusAt(out, StatusNow(p, obs), now, t) == TrueStatus(p.status, obs, t) {
        TruncatedReconstruction(p, obs, cap, now, t);
      }
    }
  }

  lemma OneMoreInOrder(o: Observation, rest: seq<Observation>, now: Time)
    requires InOrder(rest, now) && o.at <= now && (o.how.Marked? ==> o.how.event.at == o.at) && forall i :: 0 <= i < |rest| ==> o.at <= rest[i].at
    ensures InOrder([o] + rest, now)
  {
  }

  lemma {:induction false} ObservedInOrder(start: Subjects, run: seq<Entry>, k: SubjectKey, since: Time, now: Time)
    requires IsRun(start, run) && InTime(run, since, now)
    ensures InOrder(Observed(run, k), now)
    ensures forall i :: 0 <= i < |run| ==> since <= Observed(run, k)[i].at
    decreases |run|
  {
    if run != [] {
      var o, rest := ObservedIn(run[0], k), Observed(run[1..], k);
      ObservedInOrder(run[0].next, run[1..], k, run[0].at, now);
      OneMoreInOrder(o, rest, now);
      assert Observed(run, k) == [o] + rest;
    }
  }

  /** The instants of [lo, hi) at which the snapshots saw the subject online. */
  function TrulyOnline(baseline: Status, obs: seq<Observation>, lo: Time, hi: Time): set<Time> {
    set t: Time | lo <= t < hi && TrueStatus(baseline, obs, t) == Online
  }

  /** The status the recorder remembers for a subject that is always present. */
  function StatusNow(p: Subject, obs: seq<Observation>): Status {
    var last := Final(Some(p), obs);
    if last.Some? then last.value.status else Unset
  }

  /** The newest event the cap has dropped, if any, is no later than t. */
  ghost predicate NoneDroppedAfter(own: seq<StatusEvent>, cap: nat, t: Time) {
    |own| > cap ==> own[|own| - cap - 1].at <= t
  }

  lemma NewestFirstOfSorted(own: seq<StatusEvent>, cap: nat)
    requires Sorted(own, EventAt)
    ensures NewestFirst(Reversed(LastN(own, cap)))
  {
    var kept := LastN(own, cap);
    forall i, j | 0 <= i < j < |kept| ensures kept[i].at <= kept[j].at {
      assert EventAt(own[|own| - |kept| + i]) <= EventAt(own[|own| - |kept| + j]);
    }
  }

  /** The newest cap events suffice from the last dropped event on. */
  lemma TruncatedReconstruction(p: Subject, obs: seq<Observation>, cap: nat, now: Time, t: Time)
    requires AlwaysPresent(obs) && InOrder(obs, now) && Sorted(Follow(Some(p), obs), EventAt) && t < now
    requires NoneDroppedAfter(Follow(Some(p), obs), cap, t)
    ensures StatusAt(Reversed(LastN(Follow(Some(p), obs), cap)), StatusNow(p, obs), now, t) == TrueStatus(p.status, obs, t)
  {
    ReconstructionIsTrue(p, obs, now, t);
    DroppedEventsMatterNot(Follow(Some(p), obs), cap, StatusNow(p, obs), now, t);
  }

  lemma DroppedEventsMatterNot(own: seq<StatusEvent>, cap: nat, current: Status, now: Time, t: Time)
    requires Sorted(own, EventAt) && NoneDroppedAfter(own, cap, t)
    ensures StatusAt(Reversed(LastN(own, cap)), current, now, t) == StatusAt(Reversed(own), current, now, t)
  {
    if |own| > cap {
      forall j | 0 <= j < |own| - cap ensures own[j].at <= t {
        assert EventAt(own[j]) <= EventAt(own[|own| - cap - 1]);
      }
      SuffixSuffices(own, |own| - cap, current, now, t);
    }
  }

  lemma SubjectEventsSorted(start: Subjects, run: seq<Entry>, k: SubjectKey, since: Time, now: Time)
    requires IsRun(start, run) && WellKeyed(start) && InTime(run, since, now)
    ensures Sorted(Follow(Lookup(start, k), Observed(run, k)), EventAt)
  {
    RunEvents(start, run, since, now);
    RunPerSubject(start, run, k);
    ForSubjectSorted(Written(run), k);
  }

  lemma {:induction false} ForSubjectSorted(s: seq<StatusEvent>, k: SubjectKey)
    requires Sorted(s, EventAt)
    ensures Sorted(ForSubject(s, k), EventAt)
  {
    if s != [] {
      ForSubjectSorted(s[1..], k);
      SubjectMembers(s[1..], k);
      var rest := ForSubject(s[1..], k);
      forall i | 0 <= i < |rest| ensures s[0].at <= rest[i].at {
        assert rest[i] in s[1..];
      }
    }
  }
}
