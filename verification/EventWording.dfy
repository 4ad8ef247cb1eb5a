/** What the events of a poll say to a reader: the name of their subject and their note,
    from the fields of the two snapshots. */
module EventWording {
  import opened Models
  import opened Recorder
  import opened SnapshotStatus
  import opened Timeline
  import H = History
  import Text

  /** The first of some texts that is not blank, without the blanks around it. */
  function FirstOf(texts: seq<string>): string {
    if texts == [] then ""
    else if Text.TrimSpace(texts[0]) != "" then Text.TrimSpace(texts[0])
    else FirstOf(texts[1..])
  }

  function Title(i: nat): string {
    if i == 0 then "Internet" else if i == 1 then "DNS" else if i == 2 then "WAN" else if i == 3 then "NAS" else "Unraid array"
  }

  function GoodNews(i: nat): string {
    if i == 0 then "Internet is reachable."
    else if i == 1 then "DNS is resolving."
    else if i == 2 then "WAN is up."
    else "NAS is reachable."
  }

  function BadNews(i: nat): string {
    if i == 0 then "Internet is not reachable."
    else if i == 1 then "DNS is not resolving."
    else if i == 2 then "WAN is down."
    else "NAS is not reachable."
  }

  ghost predicate IsPoll(events: seq<StatusEvent>, keys: seq<SubjectKey>, a: Snapshot, b: Snapshot, at: Time) {
    IsBatch(events, keys, SubjectsOf(a), SubjectsOf(b), at)
  }

  /** An event that takes its name and note from the subject before and after a change. */
  predicate Reads(e: StatusEvent, p: Subject, c: Subject) {
    && e.to == c.status
    && (c.displayName != "" && Text.Trimmed(c.displayName) ==> e.displayName == c.displayName)
    && (c.note != "" && Text.Trimmed(c.note) ==> e.note == c.note)
    && (c.note == "" ==> e.note == Text.TrimSpace(p.note))
  }

  lemma EventKeeps(p: Subject, c: Subject, at: Time)
    ensures Reads(EventOf(p, c, at), p, c)
  {
    Text.TrimmedIsFixed(c.displayName);
    Text.TrimmedIsFixed(c.note);
    Text.TrimmedIsFixed("");
  }

  lemma EmittedReads(x: Subjects, y: Subjects, k: SubjectKey, at: Time)
    requires Emits(k, x, y, at)
    ensures k in x && (k !in y ==> x[k].kind == App)
    ensures Reads(EventFor(k, x, y, at), x[k], if k in y then y[k] else Gone(x[k]))
  {
    EventKeeps(x[k], if k in y then y[k] else Gone(x[k]), at);
  }

  lemma EmittedKey(x: Subjects, y: Subjects, k: SubjectKey, at: Time)
    requires WellKeyed(x) && WellKeyed(y) && Emits(k, x, y, at)
    ensures H.KeyOf(EventFor(k, x, y, at)) == k
  {
  }

  /** Every event of a poll is made from what the two snapshots show of its subject. */
  lemma EventFrom(a: Snapshot, b: Snapshot, events: seq<StatusEvent>, keys: seq<SubjectKey>, at: Time, e: StatusEvent)
    requires IsPoll(events, keys, a, b, at) && e in events
    ensures var k, x, y := H.KeyOf(e), SubjectsOf(a), SubjectsOf(b);
      && k in x && (k !in y ==> x[k].kind == App)
      && Reads(e, x[k], if k in y then y[k] else Gone(x[k]))
  {
    var x, y := SubjectsOf(a), SubjectsOf(b);
    SnapshotsAreWellKeyed(a);
    SnapshotsAreWellKeyed(b);
    var i :| 0 <= i < |events| && events[i] == e;
    assert keys[i] in keys;
    EmittedReads(x, y, keys[i], at);
    EmittedKey(x, y, keys[i], at);
  }

  // ---------------------------------------------------------------------
  // Infrastructure
  // ---------------------------------------------------------------------

  /** A name and note of one of the four flags. */
  predicate SaysFlag(name: string, note: string, status: Status, i: nat) {
    name == Title(i) && status in {Online, Offline} && note == if status == Online then GoodNews(i) else BadNews(i)
  }

  lemma FlagReads(s: Snapshot, i: nat)
    requires i < 4
    ensures var k := SubjectKey(Infra, InfraId(i));
      k in SubjectsOf(s) && SaysFlag(SubjectsOf(s)[k].displayName, SubjectsOf(s)[k].note, SubjectsOf(s)[k].status, i)
  {
    InfraCollected(s, i);
  }

  lemma FlagEvent(e: StatusEvent, p: Subject, c: Subject, i: nat)
    requires i < 4 && Reads(e, p, c) && SaysFlag(c.displayName, c.note, c.status, i)
    ensures SaysFlag(e.displayName, e.note, e.to, i)
  {
  }

  /** The name and note of an event of the internet, the DNS, the WAN or the NAS: the note
      is the good news exactly when the status is online now. */
  lemma InfraEventReads(a: Snapshot, b: Snapshot, events: seq<StatusEvent>, keys: seq<SubjectKey>, at: Time, e: StatusEvent, i: nat)
    requires IsPoll(events, keys, a, b, at) && e in events && i < 4 && H.KeyOf(e) == SubjectKey(Infra, InfraId(i))
    ensures SaysFlag(e.displayName, e.note, e.to, i)
  {
    EventFrom(a, b, events, keys, at, e);
    FlagReads(b, i);
    FlagEvent(e, SubjectsOf(a)[H.KeyOf(e)], SubjectsOf(b)[H.KeyOf(e)], i);
  }

  /** A name and note of the array. Without the interface the status is unknown, but the
      note is still read from the other fields: it says healthy of an array that is not
      online exactly when the interface does not answer and the fields say healthy. */
  predicate SaysArray(name: string, note: string, status: Status, infra: Infrastructure) {
    var state := Text.TrimSpace(infra.arrayState);
    && name == "Unraid array"
    && (state == "" ==> status == Unknown && note == "Array state is unknown.")
    && (status in {Degraded, Offline} ==> note == "Array state is " + state + ".")
    && (status == Online ==> note == "Array is healthy.")
    && ((note == "Array is healthy." && status != Online) <==> (state != "" && infra.arrayHealthy && !infra.apiReachable))
  }

  lemma NotHealthy(state: string)
    ensures "Array state is " + state + "." != "Array is healthy." && "Array state is unknown." != "Array is healthy."
  {
    assert ("Array state is " + state + ".")[6] == 's' && "Array is healthy."[6] == 'i' && "Array state is unknown."[6] == 's';
  }

  lemma ArraySays(infra: Infrastructure)
    ensures SaysArray("Unraid array", ArrayNote(infra), ArrayStatus(infra), infra)
  {
    NotHealthy(Text.TrimSpace(infra.arrayState));
  }

  lemma ArrayNoteIsTrimmed(infra: Infrastructure)
    ensures ArrayNote(infra) != "" && Text.Trimmed(ArrayNote(infra))
  {
  }

  lemma ArrayReads(s: Snapshot)
    ensures var k := SubjectKey(Infra, "unraid_array");
      && k in SubjectsOf(s) && SubjectsOf(s)[k].note != "" && Text.Trimmed(SubjectsOf(s)[k].note)
      && SaysArray(SubjectsOf(s)[k].displayName, SubjectsOf(s)[k].note, SubjectsOf(s)[k].status, s.infra)
  {
    assert InfraId(4) == "unraid_array";
    InfraCollected(s, 4);
    ArraySays(s.infra);
    ArrayNoteIsTrimmed(s.infra);
  }

  lemma ArrayEventReads(a: Snapshot, b: Snapshot, events: seq<StatusEvent>, keys: seq<SubjectKey>, at: Time, e: StatusEvent)
    requires IsPoll(events, keys, a, b, at) && e in events && H.KeyOf(e) == SubjectKey(Infra, "unraid_array")
    ensures SaysArray(e.displayName, e.note, e.to, b.infra)
  {
    EventFrom(a, b, events, keys, at, e);
    ArrayReads(b);
  }

  // ---------------------------------------------------------------------
  // Apps
  // ---------------------------------------------------------------------

  lemma AppReads(s: Snapshot, id: string)
    ensures var k, app := SubjectKey(App, id), LastApp(s.apps, id);
      && (k in SubjectsOf(s) <==> app.Some?)
      && (app.Some? ==> SubjectsOf(s)[k] == AppSubject(app.value))
  {
    forall i | 0 <= i < |InfraSubjects(s.infra)| ensures KeyFor(InfraSubjects(s.infra)[i]) != SubjectKey(App, id) {
      InfraKey(s.infra, i);
    }
    AppCollected(s.apps, id);
    CollectNone(AppSubjects(s.apps), InfraSubjects(s.infra), SubjectKey(App, id));
  }

  function NameOf(app: AppStatus): string {
    FirstOf([app.displayName, app.containerName, app.appId])
  }

  lemma NamesAgree(app: AppStatus)
    requires Text.TrimSpace(app.appId) != ""
    ensures AppSubject(app).displayName == NameOf(app) && NameOf(app) != "" && Text.Trimmed(NameOf(app))
  {
    var id := Text.TrimSpace(app.appId);
    assert [app.displayName, app.containerName, app.appId][1..] == [app.containerName, app.appId];
    assert [app.containerName, app.appId][1..] == [app.appId];
    assert FirstOf([app.appId]) == id;
    assert FirstOf([app.containerName, app.appId]) == Text.FirstNonEmpty(app.containerName, id);
  }

  lemma NotesAgree(now: string, before: string)
    ensures FirstOf([now, before]) == if Text.TrimSpace(now) != "" then Text.TrimSpace(now) else Text.TrimSpace(before)
    ensures Text.TrimSpace(Text.TrimSpace(before)) == Text.TrimSpace(before)
  {
    Text.TrimmedIsFixed(Text.TrimSpace(before));
    assert [now, before][1..] == [before];
    assert FirstOf([before]) == Text.TrimSpace(before);
  }

  const GONE := "App is no longer present" + " in the latest snapshot."

  /** An app's event bears the name the app shows, by its display name, its container or
      its id, and its summary, or else the last one; when the app is gone, the name it had
      and that it is gone. */
  predicate SaysApp(e: StatusEvent, before: AppStatus, now: Option<AppStatus>) {
    match now
    case Some(app) => e.displayName == NameOf(app) && e.note == FirstOf([app.summary, before.summary])
    case None => e.displayName == NameOf(before) && e.note == GONE
  }

  lemma PresentReads(e: StatusEvent, before: AppStatus, now: AppStatus)
    requires Text.TrimSpace(now.appId) != "" && Reads(e, AppSubject(before), AppSubject(now))
    ensures SaysApp(e, before, Some(now))
  {
    NamesAgree(now);
    NotesAgree(now.summary, before.summary);
  }

  lemma GoneReads(e: StatusEvent, before: AppStatus)
    requires Text.TrimSpace(before.appId) != "" && Reads(e, AppSubject(before), Gone(AppSubject(before)))
    ensures SaysApp(e, before, None)
  {
    NamesAgree(before);
    assert "App is no longer present"[0] == 'A' && " in the latest snapshot."[23] == '.';
  }

  lemma AppEventReads(a: Snapshot, b: Snapshot, events: seq<StatusEvent>, keys: seq<SubjectKey>, at: Time, e: StatusEvent, id: string)
    requires IsPoll(events, keys, a, b, at) && e in events && H.KeyOf(e) == SubjectKey(App, id)
    ensures LastApp(a.apps, id).Some? && SaysApp(e, LastApp(a.apps, id).value, LastApp(b.apps, id))
  {
    EventFrom(a, b, events, keys, at, e);
    AppReads(a, id);
    AppReads(b, id);
    var before, now := LastApp(a.apps, id).value, LastApp(b.apps, id);
    if now.Some? {
      PresentReads(e, before, now.value);
    } else {
      GoneReads(e, before);
    }
  }
}
