/** The snapshot recorder: it turns a series of snapshots into status events. */
module Recorder {
  import opened Models
  import Text
  import History

  datatype AppStatus = AppStatus(appId: string, displayName: string, containerName: string, status: Status, summary: string)

  datatype Infrastructure = Infrastructure(
    internetReachable: bool,
    dnsOk: bool,
    wanUp: bool,
    nasReachable: bool,
    apiReachable: bool,
    arrayState: string,
    arrayHealthy: bool)

  datatype Snapshot = Snapshot(generatedAt: Time, infra: Infrastructure, apps: seq<AppStatus>)

  datatype Subject = Subject(kind: SubjectType, id: string, displayName: string, status: Status, note: string)

  type Subjects = map<SubjectKey, Subject>

  function KeyFor(s: Subject): SubjectKey {
    SubjectKey(s.kind, Text.NormalId(s.id))
  }

  function Reachable(ok: bool): Status {
    if ok then Online else Offline
  }

  function ArrayStatus(infra: Infrastructure): Status {
    if !infra.apiReachable || Text.TrimSpace(infra.arrayState) == "" then Unknown
    else if infra.arrayHealthy then Online
    else if Text.EqualFold(Text.TrimSpace(infra.arrayState), "started") then Degraded
    else Offline
  }

  function ArrayNote(infra: Infrastructure): string {
    var state := Text.TrimSpace(infra.arrayState);
    if state == "" then "Array state is unknown."
    else if infra.arrayHealthy then "Array is healthy."
    else "Array state is " + state + "."
  }

  function InfraSubjects(infra: Infrastructure): seq<Subject> {
    [ Subject(Infra, "internet", "Internet", Reachable(infra.internetReachable),
              if infra.internetReachable then "Internet is reachable." else "Internet is not reachable."),
      Subject(Infra, "dns", "DNS", Reachable(infra.dnsOk),
              if infra.dnsOk then "DNS is resolving." else "DNS is not resolving."),
      Subject(Infra, "wan", "WAN", Reachable(infra.wanUp),
              if infra.wanUp then "WAN is up." else "WAN is down."),
      Subject(Infra, "nas", "NAS", Reachable(infra.nasReachable),
              if infra.nasReachable then "NAS is reachable." else "NAS is not reachable."),
      Subject(Infra, "unraid_array", "Unraid array", ArrayStatus(infra), ArrayNote(infra)) ]
  }

  function AppSubject(app: AppStatus): Subject {
    var id := Text.TrimSpace(app.appId);
    Subject(App, id, Text.FirstNonEmpty(app.displayName, Text.FirstNonEmpty(app.containerName, id)),
            StatusOrUnknown(app.status), Text.TrimSpace(app.summary))
  }

  /** Later subjects with the same key replace earlier ones. */
  function Collect(subjects: seq<Subject>): Subjects {
    if subjects == [] then map[]
    else
      var last := subjects[|subjects| - 1];
      Collect(subjects[..|subjects| - 1])[KeyFor(last) := last]
  }

  /** Apps with a blank id are skipped. */
  function AppSubjects(apps: seq<AppStatus>): seq<Subject> {
    if apps == [] then []
    else
      var app := apps[|apps| - 1];
      var before := AppSubjects(apps[..|apps| - 1]);
      if Text.TrimSpace(app.appId) == "" then before else before + [AppSubject(app)]
  }

  function SubjectsOf(snapshot: Snapshot): Subjects {
    Collect(AppSubjects(snapshot.apps) + InfraSubjects(snapshot.infra))
  }

  lemma CollectAppend(subjects: seq<Subject>, s: Subject)
    ensures Collect(subjects + [s]) == Collect(subjects)[KeyFor(s) := s]
  {
    assert (subjects + [s])[..|subjects + [s]| - 1] == subjects;
  }

  lemma AppSubjectsAppend(apps: seq<AppStatus>, i: nat)
    requires i < |apps|
    ensures AppSubjects(apps[..i + 1])
      == if Text.TrimSpace(apps[i].appId) == "" then AppSubjects(apps[..i])
         else AppSubjects(apps[..i]) + [AppSubject(apps[i])]
  {
    assert apps[..i + 1][..i] == apps[..i];
  }

  method SubjectsFromSnapshot(snapshot: Snapshot) returns (subjects: Subjects)
    ensures subjects == SubjectsOf(snapshot)
  {
    var apps := snapshot.apps;
    subjects := map[];
    for i := 0 to |apps|
      invariant subjects == Collect(AppSubjects(apps[..i]))
    {
      AppSubjectsAppend(apps, i);
      var id := Text.TrimSpace(apps[i].appId);
      if id != "" {
        var state := AppSubject(apps[i]);
        CollectAppend(AppSubjects(apps[..i]), state);
        subjects := subjects[KeyFor(state) := state];
      }
    }
    assert apps[..|apps|] == apps;
    subjects := AddAll(subjects, AppSubjects(apps), InfraSubjects(snapshot.infra));
  }

  method AddAll(subjects: Subjects, ghost before: seq<Subject>, added: seq<Subject>) returns (all: Subjects)
    requires subjects == Collect(before)
    ensures all == Collect(before + added)
  {
    all := subjects;
    assert before + added[..0] == before;
    for i := 0 to |added|
      invariant all == Collect(before + added[..i])
    {
      CollectAppend(before + added[..i], added[i]);
      assert before + added[..i + 1] == before + added[..i] + [added[i]];
      all := all[KeyFor(added[i]) := added[i]];
    }
    assert added[..|added|] == added;
  }

  // ---------------------------------------------------------------------
  // One recorded snapshot
  // ---------------------------------------------------------------------

  function Lookup(m: Subjects, k: SubjectKey): Option<Subject> {
    if k in m then Some(m[k]) else None
  }

  function Gone(previous: Subject): Subject {
    previous.(status := Unknown, note := "App is no longer present" + " in the latest snapshot.")
  }

  function EventOf(previous: Subject, current: Subject, at: Time): StatusEvent {
    StatusEvent(current.kind, current.id,
                Text.FirstNonEmpty(current.displayName, Text.FirstNonEmpty(previous.displayName, Text.TrimSpace(current.id))),
                previous.status, current.status, at,
                Text.FirstNonEmpty(current.note, Text.TrimSpace(previous.note)))
  }

  /** What one snapshot means for one subject: its next remembered state ... */
  function NextState(previous: Option<Subject>, current: Option<Subject>): Option<Subject> {
    if current.Some? then current
    else if previous.Some? && previous.value.kind == App then None
    else previous
  }

  /** ... and the event it causes, if any. */
  function Emitted(previous: Option<Subject>, current: Option<Subject>, at: Time): Option<StatusEvent> {
    if previous.None? then None
    else
      var p := previous.value;
      if current.Some? then
        if p.status != current.value.status then Some(EventOf(p, current.value, at)) else None
      else if p.kind == App && p.status != Unknown then Some(EventOf(p, Gone(p), at))
      else None
  }

  ghost predicate Emits(k: SubjectKey, previous: Subjects, current: Subjects, at: Time) {
    Emitted(Lookup(previous, k), Lookup(current, k), at).Some?
  }

  ghost function EventFor(k: SubjectKey, previous: Subjects, current: Subjects, at: Time): StatusEvent
    requires Emits(k, previous, current, at)
  {
    Emitted(Lookup(previous, k), Lookup(current, k), at).value
  }

  /** One event for every key that emits, in whatever order the maps were walked. */
  ghost predicate IsBatch(events: seq<StatusEvent>, keys: seq<SubjectKey>, previous: Subjects, current: Subjects, at: Time) {
    && |events| == |keys|
    && (forall i, j :: 0 <= i < j < |keys| ==> keys[i] != keys[j])
    && (forall k :: k in keys <==> Emits(k, previous, current, at))
    && (forall i :: 0 <= i < |keys| ==> events[i] == EventFor(keys[i], previous, current, at))
  }

  /** A remembered map cut down to some keys. */
  function Only(m: Subjects, keys: set<SubjectKey>): Subjects {
    map k | k in m && k in keys :: m[k]
  }

  lemma EmitsOnly(k: SubjectKey, previous: Subjects, current: Subjects, keys: set<SubjectKey>, at: Time)
    ensures Emits(k, Only(previous, keys), current, at) <==> k in keys && Emits(k, previous, current, at)
    ensures k in keys && Emits(k, previous, current, at) ==>
      EventFor(k, Only(previous, keys), current, at) == EventFor(k, previous, current, at)
  {
  }

  /** Every listed key emits, and its event stands at its place. */
  lemma BatchAt(events: seq<StatusEvent>, keys: seq<SubjectKey>, previous: Subjects, some: set<SubjectKey>,
                current: Subjects, at: Time, i: nat)
    requires IsBatch(events, keys, Only(previous, some), current, at) && i < |keys|
    ensures keys[i] in some && Emits(keys[i], previous, current, at)
    ensures events[i] == EventFor(keys[i], previous, current, at)
  {
    assert keys[i] in keys;
    EmitsOnly(keys[i], previous, current, some, at);
  }

  lemma BatchKeys(events: seq<StatusEvent>, keys: seq<SubjectKey>, previous: Subjects, some: set<SubjectKey>,
                  current: Subjects, at: Time, k: SubjectKey)
    requires IsBatch(events, keys, Only(previous, some), current, at)
    ensures k in keys <==> k in some && Emits(k, previous, current, at)
  {
    EmitsOnly(k, previous, current, some, at);
  }

  lemma JoinedKey(e1: seq<StatusEvent>, k1: seq<SubjectKey>, e2: seq<StatusEvent>, k2: seq<SubjectKey>,
                  previous: Subjects, current: Subjects, at: Time, k: SubjectKey)
    requires IsBatch(e1, k1, Only(previous, current.Keys), current, at)
    requires IsBatch(e2, k2, Only(previous, previous.Keys - current.Keys), current, at)
    ensures k in k1 + k2 <==> Emits(k, previous, current, at)
  {
    BatchKeys(e1, k1, previous, current.Keys, current, at, k);
    BatchKeys(e2, k2, previous, previous.Keys - current.Keys, current, at, k);
    assert k in k1 + k2 <==> k in k1 || k in k2;
  }

  lemma JoinedAt(e1: seq<StatusEvent>, k1: seq<SubjectKey>, e2: seq<StatusEvent>, k2: seq<SubjectKey>,
                 previous: Subjects, current: Subjects, at: Time, i: nat)
    requires IsBatch(e1, k1, Only(previous, current.Keys), current, at)
    requires IsBatch(e2, k2, Only(previous, previous.Keys - current.Keys), current, at)
    requires i < |k1 + k2|
    ensures Emits((k1 + k2)[i], previous, current, at)
    ensures (e1 + e2)[i] == EventFor((k1 + k2)[i], previous, current, at)
    ensures (k1 + k2)[i] in current.Keys <==> i < |k1|
  {
    if i < |k1| {
      assert (k1 + k2)[i] == k1[i] && (e1 + e2)[i] == e1[i];
      BatchAt(e1, k1, previous, current.Keys, current, at, i);
    } else {
      assert (k1 + k2)[i] == k2[i - |k1|] && (e1 + e2)[i] == e2[i - |k1|];
      BatchAt(e2, k2, previous, previous.Keys - current.Keys, current, at, i - |k1|);
    }
  }

  /** The two loops emit for disjoint keys, and together for all. */
  lemma JoinBatches(e1: seq<StatusEvent>, k1: seq<SubjectKey>, e2: seq<StatusEvent>, k2: seq<SubjectKey>,
                    previous: Subjects, current: Subjects, at: Time)
    requires IsBatch(e1, k1, Only(previous, current.Keys), current, at)
    requires IsBatch(e2, k2, Only(previous, previous.Keys - current.Keys), current, at)
    ensures IsBatch(e1 + e2, k1 + k2, previous, current, at)
  {
    forall k ensures k in k1 + k2 <==> Emits(k, previous, current, at) {
      JoinedKey(e1, k1, e2, k2, previous, current, at, k);
    }
    forall i | 0 <= i < |k1 + k2|
      ensures Emits((k1 + k2)[i], previous, current, at)
      ensures (e1 + e2)[i] == EventFor((k1 + k2)[i], previous, current, at)
      ensures (k1 + k2)[i] in current.Keys <==> i < |k1|
    {
      JoinedAt(e1, k1, e2, k2, previous, current, at, i);
    }
    DisjointKeys(k1, k2, current.Keys);
  }

  lemma DisjointKeys(a: seq<SubjectKey>, b: seq<SubjectKey>, keys: set<SubjectKey>)
    requires forall i, j :: 0 <= i < j < |a| ==> a[i] != a[j]
    requires forall i, j :: 0 <= i < j < |b| ==> b[i] != b[j]
    requires forall i :: 0 <= i < |a + b| ==> ((a + b)[i] in keys <==> i < |a|)
    ensures forall i, j :: 0 <= i < j < |a + b| ==> (a + b)[i] != (a + b)[j]
  {
    forall i, j | 0 <= i < j < |a + b| ensures (a + b)[i] != (a + b)[j] {
      if |a| <= i {
        assert b[i - |a|] != b[j - |a|];
      }
    }
  }

  ghost predicate IsNext(next: Subjects, previous: Subjects, current: Subjects) {
    forall k :: Lookup(next, k) == NextState(Lookup(previous, k), Lookup(current, k))
  }

  /** Subjects are filed under their own key, with trimmed ids. */
  ghost predicate WellKeyed(m: Subjects) {
    forall k :: k in m ==> k == KeyFor(m[k]) && Text.Trimmed(m[k].id)
  }

  class SnapshotRecorder {
    var previous: Subjects

    constructor ()
      ensures previous == map[]
    {
      previous := map[];
    }

    /** Rebaselines without emitting. */
    method Observe(snapshot: Snapshot)
      modifies this
      ensures previous == SubjectsOf(snapshot)
    {
      previous := SubjectsFromSnapshot(snapshot);
    }

    method Record(snapshot: Snapshot, clock: Instant) returns (events: seq<StatusEvent>, ghost keys: seq<SubjectKey>)
      modifies this
      ensures IsBatch(events, keys, old(previous), SubjectsOf(snapshot),
                      if snapshot.generatedAt != 0 then snapshot.generatedAt else clock)
      ensures IsNext(previous, old(previous), SubjectsOf(snapshot))
    {
      var at: Time := snapshot.generatedAt;
      if at == 0 {
        at := clock;
      }
      var current := SubjectsFromSnapshot(snapshot);
      events, keys := RecordPresent(current, at);
      ghost var gone := Only(previous, previous.Keys - current.Keys);
      assert gone == Only(old(previous), old(previous).Keys - current.Keys);
      var more, moreKeys := RecordGone(current, at);
      JoinBatches(events, keys, more, moreKeys, old(previous), current, at);
      events, keys := events + more, keys + moreKeys;
    }

    /** The first loop: every subject of the snapshot. */
    method RecordPresent(current: Subjects, at: Time) returns (events: seq<StatusEvent>, ghost keys: seq<SubjectKey>)
      modifies this
      ensures IsBatch(events, keys, Only(old(previous), current.Keys), current, at)
      ensures previous == old(previous) + current
    {
      ghost var before := previous;
      events, keys := [], [];
      var left := current.Keys;
      while left != {}
        invariant left <= current.Keys
        invariant previous == before + Only(current, current.Keys - left)
        invariant IsBatch(events, keys, Only(before, current.Keys - left), current, at)
        decreases left
      {
        var key :| key in left;
        var state := current[key];
        ExtendBatch(events, keys, key, before, current, current.Keys - left, at);
        if key in previous {
          var was := previous[key];
          if was.status != state.status {
            events, keys := events + [EventOf(was, state, at)], keys + [key];
          }
        }
        assert current.Keys - left + {key} == current.Keys - (left - {key});
        assert Only(current, current.Keys - left)[key := state] == Only(current, current.Keys - (left - {key}));
        previous := previous[key := state];
        left := left - {key};
      }
      assert current.Keys - {} == current.Keys;
    }

    /** The second loop: remembered apps the snapshot no longer has. */
    method RecordGone(current: Subjects, at: Time) returns (events: seq<StatusEvent>, ghost keys: seq<SubjectKey>)
      modifies this
      ensures IsBatch(events, keys, Only(old(previous), old(previous).Keys - current.Keys), current, at)
      ensures previous == Remembered(old(previous), current, old(previous).Keys)
    {
      ghost var before := previous;
      events, keys := [], [];
      var left := previous.Keys;
      while left != {}
        invariant left <= before.Keys
        invariant previous == Remembered(before, current, before.Keys - left)
        invariant IsBatch(events, keys, Only(before, before.Keys - left - current.Keys), current, at)
        decreases left
      {
        var key :| key in left;
        var state := previous[key];
        ghost var done := before.Keys - left;
        left := left - {key};
        assert before.Keys - left == done + {key};
        RememberOneMore(before, current, done, key);
        if key !in current {
          ExtendBatch(events, keys, key, before, current, done - current.Keys, at);
          assert done + {key} - current.Keys == done - current.Keys + {key};
          if state.kind == App {
            if state.status != Unknown {
              events, keys := events + [EventOf(state, Gone(state), at)], keys + [key];
            }
            previous := previous - {key};
          }
        } else {
          assert done + {key} - current.Keys == done - current.Keys;
        }
      }
      assert before.Keys - {} == before.Keys;
    }
  }

  /** What is left once the keys in done have been looked at for vanished apps. */
  function Remembered(before: Subjects, current: Subjects, done: set<SubjectKey>): Subjects {
    map k | k in before && !(k in done && before[k].kind == App && k !in current) :: before[k]
  }

  lemma RememberOneMore(before: Subjects, current: Subjects, done: set<SubjectKey>, key: SubjectKey)
    requires key in before && key !in done
    ensures Remembered(before, current, done + {key}) ==
      if before[key].kind == App && key !in current
      then Remembered(before, current, done) - {key} else Remembered(before, current, done)
  {
  }

  /** Looking at one more key adds its event, if it has one. */
  lemma ExtendBatch(events: seq<StatusEvent>, keys: seq<SubjectKey>, key: SubjectKey,
                    before: Subjects, current: Subjects, done: set<SubjectKey>, at: Time)
    requires IsBatch(events, keys, Only(before, done), current, at) && key !in done
    ensures if Emits(key, before, current, at)
      then IsBatch(events + [EventFor(key, before, current, at)], keys + [key], Only(before, done + {key}), current, at)
      else IsBatch(events, keys, Only(before, done + {key}), current, at)
  {
    forall k
      ensures Emits(k, Only(before, done), current, at) <==> k in done && Emits(k, before, current, at)
      ensures Emits(k, Only(before, done + {key}), current, at) <==> (k in done || k == key) && Emits(k, before, current, at)
    {
      EmitsOnly(k, before, current, done, at);
      EmitsOnly(k, before, current, done + {key}, at);
    }
    forall i | 0 <= i < |keys|
      ensures Emits(keys[i], before, current, at)
      ensures events[i] == EventFor(keys[i], Only(before, done + {key}), current, at)
    {
      assert keys[i] in keys;
      EmitsOnly(keys[i], before, current, done, at);
      EmitsOnly(keys[i], before, current, done + {key}, at);
    }
    EmitsOnly(key, before, current, done + {key}, at);
  }
}
