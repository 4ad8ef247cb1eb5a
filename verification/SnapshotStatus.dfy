/** What a snapshot says of each subject, read from its fields, and what a poll that is
    recorded after another therefore causes. */
module SnapshotStatus {
  import opened Models
  import opened Recorder
  import opened Timeline
  import H = History
  import Text

  // ---------------------------------------------------------------------
  // Subjects by their fields
  // ---------------------------------------------------------------------

  predicate IsAppOf(app: AppStatus, id: string) {
    Text.TrimSpace(app.appId) != "" && Text.NormalId(app.appId) == id
  }

  /** The last app of this id. */
  function LastApp(apps: seq<AppStatus>, id: string): (r: Option<AppStatus>)
    ensures r.Some? ==> IsAppOf(r.value, id) && r.value in apps
    ensures r.None? ==> forall app :: app in apps ==> !IsAppOf(app, id)
  {
    if apps == [] then None
    else if IsAppOf(apps[|apps| - 1], id) then Some(apps[|apps| - 1])
    else LastApp(apps[..|apps| - 1], id)
  }

  function ByReach(ok: bool): Status {
    if ok then Online else Offline
  }

  /** The array is unknown without the interface or a state, online when healthy, degraded
      when started but not healthy, else offline. */
  function ByArray(infra: Infrastructure): Status {
    var state := Text.TrimSpace(infra.arrayState);
    if infra.apiReachable && state != "" then
      if infra.arrayHealthy then Online
      else if Text.ToLower(state) == "started" then Degraded
      else Offline
    else Unknown
  }

  /** The status a snapshot shows of a subject, if it has the subject at all. */
  function StatusIn(s: Snapshot, k: SubjectKey): Option<Status> {
    match k.kind
    case Infra =>
      if k.id == "internet" then Some(ByReach(s.infra.internetReachable))
      else if k.id == "dns" then Some(ByReach(s.infra.dnsOk))
      else if k.id == "wan" then Some(ByReach(s.infra.wanUp))
      else if k.id == "nas" then Some(ByReach(s.infra.nasReachable))
      else if k.id == "unraid_array" then Some(ByArray(s.infra))
      else None
    case App =>
      var app := LastApp(s.apps, k.id);
      if app.None? then None
      else if app.value.status == Unset then Some(Unknown)
      else Some(app.value.status)
    case NoType => None
  }

  lemma {:induction false} CollectLast(subjects: seq<Subject>, k: SubjectKey, i: nat)
    requires i < |subjects| && KeyFor(subjects[i]) == k
    requires forall j :: i < j < |subjects| ==> KeyFor(subjects[j]) != k
    ensures k in Collect(subjects) && Collect(subjects)[k] == subjects[i]
    decreases |subjects|
  {
    if i < |subjects| - 1 {
      CollectLast(subjects[..|subjects| - 1], k, i);
    }
  }

  lemma {:induction false} CollectNone(a: seq<Subject>, b: seq<Subject>, k: SubjectKey)
    requires forall j :: 0 <= j < |b| ==> KeyFor(b[j]) != k
    ensures k in Collect(a + b) <==> k in Collect(a)
    ensures k in Collect(a) ==> Collect(a + b)[k] == Collect(a)[k]
    decreases |b|
  {
    if b == [] {
      assert a + b == a;
    } else {
      var c := b[..|b| - 1];
      assert (a + b)[..|a + b| - 1] == a + c;
      CollectNone(a, c, k);
    }
  }

  lemma NormalIsItself(id: string)
    requires Text.Trimmed(id) && forall i :: 0 <= i < |id| ==> !('A' <= id[i] <= 'Z')
    ensures Text.NormalId(id) == id
  {
    Text.TrimmedIsFixed(id);
    assert Text.ToLower(id) == id;
  }

  lemma InternetKey(infra: Infrastructure)
    ensures KeyFor(InfraSubjects(infra)[0]) == SubjectKey(Infra, "internet")
  {
    NormalIsItself("internet");
  }

  lemma DnsKey(infra: Infrastructure)
    ensures KeyFor(InfraSubjects(infra)[1]) == SubjectKey(Infra, "dns")
  {
    NormalIsItself("dns");
  }

  lemma WanKey(infra: Infrastructure)
    ensures KeyFor(InfraSubjects(infra)[2]) == SubjectKey(Infra, "wan")
  {
    NormalIsItself("wan");
  }

  lemma NasKey(infra: Infrastructure)
    ensures KeyFor(InfraSubjects(infra)[3]) == SubjectKey(Infra, "nas")
  {
    NormalIsItself("nas");
  }

  lemma ArrayKey(infra: Infrastructure)
    ensures KeyFor(InfraSubjects(infra)[4]) == SubjectKey(Infra, "unraid_array")
  {
    NormalIsItself("unraid_array");
  }

  function InfraId(i: nat): string {
    if i == 0 then "internet" else if i == 1 then "dns" else if i == 2 then "wan" else if i == 3 then "nas" else "unraid_array"
  }

  /** The five infrastructure subjects and their keys, in their order. */
  lemma InfraKey(infra: Infrastructure, i: nat)
    requires i < 5
    ensures |InfraSubjects(infra)| == 5 && KeyFor(InfraSubjects(infra)[i]) == SubjectKey(Infra, InfraId(i))
  {
    if i == 0 {
      InternetKey(infra);
    } else if i == 1 {
      DnsKey(infra);
    } else if i == 2 {
      WanKey(infra);
    } else if i == 3 {
      NasKey(infra);
    } else {
      ArrayKey(infra);
    }
  }

  lemma IdsDiffer(i: nat, j: nat)
    requires i < j < 5
    ensures InfraId(i) != InfraId(j)
  {
    assert |"internet"| == 8 && |"unraid_array"| == 12 && "dns"[0] == 'd' && "wan"[0] == 'w' && "nas"[0] == 'n';
  }

  lemma {:induction false} AppsAreApps(apps: seq<AppStatus>)
    ensures forall i :: 0 <= i < |AppSubjects(apps)| ==> KeyFor(AppSubjects(apps)[i]).kind == App
  {
    if apps != [] {
      AppsAreApps(apps[..|apps| - 1]);
    }
  }

  /** The subject with the i-th infrastructure key is the i-th, whatever the apps. */
  lemma InfraCollected(s: Snapshot, i: nat)
    requires i < 5
    ensures |InfraSubjects(s.infra)| == 5
    ensures var subject, k := InfraSubjects(s.infra)[i], SubjectKey(Infra, InfraId(i)); k in SubjectsOf(s) && SubjectsOf(s)[k] == subject
  {
    var a, b := AppSubjects(s.apps), InfraSubjects(s.infra);
    InfraKey(s.infra, i);
    forall j | |a| + i < j < |a + b| ensures KeyFor((a + b)[j]) != KeyFor(b[i]) {
      InfraKey(s.infra, j - |a|);
      IdsDiffer(i, j - |a|);
    }
    CollectLast(a + b, KeyFor(b[i]), |a| + i);
  }

  lemma OneMoreApp(apps: seq<AppStatus>, id: string)
    requires apps != []
    ensures var n, k, m := |apps| - 1, SubjectKey(App, id), Collect(AppSubjects(apps));
      if IsAppOf(apps[n], id) then k in m && m[k] == AppSubject(apps[n])
      else Lookup(m, k) == Lookup(Collect(AppSubjects(apps[..n])), k)
  {
    var n := |apps| - 1;
    if Text.TrimSpace(apps[n].appId) != "" {
      CollectAppend(AppSubjects(apps[..n]), AppSubject(apps[n]));
      AppKey(apps[n]);
    }
  }

  lemma {:induction false} AppCollected(apps: seq<AppStatus>, id: string)
    ensures var k, last := SubjectKey(App, id), LastApp(apps, id);
      && (k in Collect(AppSubjects(apps)) <==> last.Some?)
      && (last.Some? ==> Collect(AppSubjects(apps))[k] == AppSubject(last.value))
    decreases |apps|
  {
    if apps != [] {
      AppCollected(apps[..|apps| - 1], id);
      OneMoreApp(apps, id);
    }
  }

  lemma AppKey(app: AppStatus)
    ensures KeyFor(AppSubject(app)) == SubjectKey(App, Text.NormalId(app.appId))
  {
    Text.TrimmedIsFixed(Text.TrimSpace(app.appId));
  }

  /** For any snapshot: each infrastructure subject is there with the status that its own
      fields give, and an app exactly when the snapshot has one of its id, with the status
      of the last such. */
  lemma SubjectsShow(s: Snapshot, k: SubjectKey)
    ensures k in SubjectsOf(s) <==> StatusIn(s, k).Some?
    ensures k in SubjectsOf(s) ==> SubjectsOf(s)[k].status == StatusIn(s, k).value && SubjectsOf(s)[k].kind == k.kind
  {
    if k.kind == App {
      AppShows(s, k);
    } else if i: nat :| i < 5 && k == SubjectKey(Infra, InfraId(i)) {
      InfraShows(s, i);
    } else {
      OtherShows(s, k);
    }
  }

  lemma AppShows(s: Snapshot, k: SubjectKey)
    requires k.kind == App
    ensures k in SubjectsOf(s) <==> StatusIn(s, k).Some?
    ensures k in SubjectsOf(s) ==> SubjectsOf(s)[k].status == StatusIn(s, k).value && SubjectsOf(s)[k].kind == k.kind
  {
    forall i | 0 <= i < |InfraSubjects(s.infra)| ensures KeyFor(InfraSubjects(s.infra)[i]) != k {
      InfraKey(s.infra, i);
    }
    AppCollected(s.apps, k.id);
    CollectNone(AppSubjects(s.apps), InfraSubjects(s.infra), k);
    SnapshotsAreWellKeyed(s);
  }

  /** The status of the i-th infrastructure subject. */
  function InfraStatus(infra: Infrastructure, i: nat): Status {
    if i == 0 then ByReach(infra.internetReachable)
    else if i == 1 then ByReach(infra.dnsOk)
    else if i == 2 then ByReach(infra.wanUp)
    else if i == 3 then ByReach(infra.nasReachable)
    else ByArray(infra)
  }

  lemma StatusOfId(s: Snapshot, i: nat)
    requires i < 5
    ensures StatusIn(s, SubjectKey(Infra, InfraId(i))) == Some(InfraStatus(s.infra, i))
  {
    if i > 0 {
      IdsDiffer(0, i);
    }
    if i > 1 {
      IdsDiffer(1, i);
    }
    if i > 2 {
      IdsDiffer(2, i);
    }
    if i > 3 {
      IdsDiffer(3, i);
    }
  }

  lemma InfraSubjectStatus(infra: Infrastructure, i: nat)
    requires i < 5
    ensures |InfraSubjects(infra)| == 5 && InfraSubjects(infra)[i].status == InfraStatus(infra, i) && InfraSubjects(infra)[i].kind == Infra
  {
    assert ArrayStatus(infra) == ByArray(infra);
  }

  lemma InfraShows(s: Snapshot, i: nat)
    requires i < 5
    ensures var k := SubjectKey(Infra, InfraId(i));
      && k in SubjectsOf(s) && StatusIn(s, k).Some?
      && SubjectsOf(s)[k].status == StatusIn(s, k).value && SubjectsOf(s)[k].kind == Infra
  {
    InfraCollected(s, i);
    StatusOfId(s, i);
    InfraSubjectStatus(s.infra, i);
  }

  lemma OtherShows(s: Snapshot, k: SubjectKey)
    requires k.kind != App && forall i: nat :: i < 5 ==> k != SubjectKey(Infra, InfraId(i))
    ensures k !in SubjectsOf(s) && StatusIn(s, k).None?
  {
    var a, b := AppSubjects(s.apps), InfraSubjects(s.infra);
    AppsAreApps(s.apps);
    forall j | 0 <= j < |a + b| ensures KeyFor((a + b)[j]) != k {
      if j >= |a| {
        InfraKey(s.infra, j - |a|);
      }
    }
    NotCollected(a + b, k);
    assert InfraId(0) == "internet" && InfraId(1) == "dns" && InfraId(2) == "wan" && InfraId(3) == "nas" && InfraId(4) == "unraid_array";
  }

  lemma {:induction false} NotCollected(subjects: seq<Subject>, k: SubjectKey)
    requires forall i :: 0 <= i < |subjects| ==> KeyFor(subjects[i]) != k
    ensures k !in Collect(subjects)
  {
    CollectNone([], subjects, k);
    assert [] + subjects == subjects;
  }

  // ---------------------------------------------------------------------
  // What a poll causes after another
  // ---------------------------------------------------------------------

  /** Only apps come and go. */
  lemma InfraStays(a: Snapshot, b: Snapshot, k: SubjectKey)
    requires k.kind != App
    ensures StatusIn(a, k).Some? <==> StatusIn(b, k).Some?
  {
  }

  lemma NextShown(a: Snapshot, b: Snapshot, k: SubjectKey)
    ensures NextState(Lookup(SubjectsOf(a), k), Lookup(SubjectsOf(b), k)) == Lookup(SubjectsOf(b), k)
  {
    SubjectsShow(a, k);
    SubjectsShow(b, k);
    if k.kind != App {
      InfraStays(a, b, k);
    }
  }

  lemma SameLookups(x: Subjects, y: Subjects)
    requires forall k :: Lookup(x, k) == Lookup(y, k)
    ensures x == y
  {
    forall k ensures k in x <==> k in y {
      assert Lookup(x, k) == Lookup(y, k);
    }
    forall k | k in x ensures x[k] == y[k] {
      assert Lookup(x, k) == Lookup(y, k);
    }
  }

  /** The recorder remembers the subjects of the last poll, and nothing else. */
  lemma RemembersLastPoll(a: Snapshot, b: Snapshot, next: Subjects)
    requires IsNext(next, SubjectsOf(a), SubjectsOf(b))
    ensures next == SubjectsOf(b)
  {
    forall k ensures Lookup(next, k) == Lookup(SubjectsOf(b), k) {
      NextShown(a, b, k);
    }
    SameLookups(next, SubjectsOf(b));
  }

  /** What b shows of a subject that a had: an app that is gone is unknown. */
  function ShownNext(b: Snapshot, k: SubjectKey): Status {
    if StatusIn(b, k).Some? then StatusIn(b, k).value else Unknown
  }

  /** The subject was there and shows another status now. */
  predicate Changes(a: Snapshot, b: Snapshot, k: SubjectKey) {
    StatusIn(a, k).Some? && StatusIn(a, k).value != ShownNext(b, k)
  }

  /** The event of a change, by its subject, statuses and time. */
  ghost predicate TellsChange(e: StatusEvent, a: Snapshot, b: Snapshot, k: SubjectKey, at: Time) {
    && H.KeyOf(e) == k && e.at == at && StatusIn(a, k) == Some(e.from) && e.to == ShownNext(b, k)
  }

  /** One step of the recorder, by the statuses before and after. */
  lemma StepTells(p: Option<Subject>, q: Option<Subject>, at: Time)
    requires p.Some? && q.None? ==> p.value.kind == App
    ensures var own, to := Step1(p, Observation(q, at, Compared)), if q.Some? then q.value.status else Unknown;
      if p.Some? && p.value.status != to
      then |own| == 1 && own[0].at == at && own[0].from == p.value.status && own[0].to == to
      else own == []
  {
  }

  /** Recording b after a causes for every subject exactly the event of its change, or none
      when it does not change. */
  lemma PollCauses(a: Snapshot, b: Snapshot, events: seq<StatusEvent>, keys: seq<SubjectKey>, at: Time, k: SubjectKey)
    requires IsBatch(events, keys, SubjectsOf(a), SubjectsOf(b), at)
    ensures var own := H.ForSubject(events, k);
      if Changes(a, b, k) then |own| == 1 && TellsChange(own[0], a, b, k, at) else own == []
  {
    SnapshotsAreWellKeyed(a);
    SnapshotsAreWellKeyed(b);
    BatchPerSubject(events, keys, SubjectsOf(a), SubjectsOf(b), at, k);
    SubjectsShow(a, k);
    SubjectsShow(b, k);
    if k.kind != App {
      InfraStays(a, b, k);
    }
    StepTells(Lookup(SubjectsOf(a), k), Lookup(SubjectsOf(b), k), at);
    OwnKey(events, k);
  }

  lemma OwnKey(events: seq<StatusEvent>, k: SubjectKey)
    ensures var own := H.ForSubject(events, k); forall i :: 0 <= i < |own| ==> H.KeyOf(own[i]) == k
  {
    H.SubjectMembers(events, k);
    var own := H.ForSubject(events, k);
    forall i | 0 <= i < |own| ensures H.KeyOf(own[i]) == k {
      assert own[i] in own;
    }
  }

  lemma {:induction false} AllOfOne(events: seq<StatusEvent>, k: SubjectKey)
    requires forall e :: e in events ==> H.KeyOf(e) == k
    ensures H.ForSubject(events, k) == events
  {
    if events != [] {
      AllOfOne(events[1..], k);
    }
  }

  /** A poll that differs from the last in one subject causes exactly one event, from the
      old status to the new. */
  lemma OneChangeOneEvent(a: Snapshot, b: Snapshot, events: seq<StatusEvent>, keys: seq<SubjectKey>, at: Time, k: SubjectKey)
    requires IsBatch(events, keys, SubjectsOf(a), SubjectsOf(b), at)
    requires Changes(a, b, k) && forall j :: j != k ==> !Changes(a, b, j)
    ensures |events| == 1 && TellsChange(events[0], a, b, k, at)
  {
    forall e | e in events ensures H.KeyOf(e) == k {
      PollCauses(a, b, events, keys, at, H.KeyOf(e));
      H.SubjectMembers(events, H.KeyOf(e));
    }
    AllOfOne(events, k);
    PollCauses(a, b, events, keys, at, k);
  }

  /** For instance: when nothing but the DNS flag differs, one event, of the DNS. */
  lemma DnsFails(a: Snapshot, b: Snapshot, events: seq<StatusEvent>, keys: seq<SubjectKey>, at: Time)
    requires a.infra.dnsOk && b.infra == a.infra.(dnsOk := false) && b.apps == a.apps
    requires IsBatch(events, keys, SubjectsOf(a), SubjectsOf(b), at)
    ensures |events| == 1 && H.KeyOf(events[0]) == SubjectKey(Infra, "dns") && events[0].from == Online && events[0].to == Offline
  {
    var k := SubjectKey(Infra, InfraId(1));
    StatusOfId(a, 1);
    StatusOfId(b, 1);
    forall j | j != k ensures !Changes(a, b, j) {
      OnlyDns(a, b, j);
    }
    OneChangeOneEvent(a, b, events, keys, at, k);
  }

  lemma OnlyDns(a: Snapshot, b: Snapshot, j: SubjectKey)
    requires b.infra == a.infra.(dnsOk := b.infra.dnsOk) && b.apps == a.apps && j != SubjectKey(Infra, "dns")
    ensures StatusIn(a, j) == StatusIn(b, j)
  {
  }
}
