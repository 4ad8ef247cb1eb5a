/** The in-memory session store: expiry, a lapsing agent arm, and eviction of the
    sessions that expire first when the store is full, compared with a map that
    keeps every session. */
module Sessions {
  import opened Models
  import opened Eviction
  import opened Collections

  const MAX_SESSIONS := 512

  /** User, CSRF token and credential version do not influence the store. */
  datatype Session = Session(token: string, createdAt: Time, expiresAt: Time, persistent: bool, armedUntil: Time)

  type Table = map<string, Session>

  function ExpiresAt(s: Session): Time {
    s.expiresAt
  }

  predicate Expired(s: Session, now: Time) {
    now > s.expiresAt
  }

  function Live(t: Table, now: Time): Table {
    map k | k in t && !Expired(t[k], now) :: t[k]
  }

  /** The session without an arm that has run out. */
  function Disarmed(s: Session, now: Time): Session {
    if s.armedUntil != 0 && now >= s.armedUntil then s.(armedUntil := 0) else s
  }

  /** Arming never outlasts the session; a past or zero time disarms. */
  function Armed(s: Session, until: Time, now: Time): Session {
    if until == 0 || until <= now then s.(armedUntil := 0)
    else s.(armedUntil := if until > s.expiresAt then s.expiresAt else until)
  }

  datatype Op =
    | Put(session: Session, now: Instant)
    | Get(token: string, now: Instant)
    | Arm(token: string, until: Time, now: Instant)
    | Delete(token: string)

  /** What an operation may leave behind. Only eviction leaves a choice: cut is the
      live table after it, before the new session is written. */
  ghost predicate StepOk(t: Table, op: Op, cut: Table, after: Table) {
    match op
    case Put(s, now) =>
      if s.token == "" then after == t
      else IsCut(Live(t, now), cut, MAX_SESSIONS - 1, ExpiresAt) && after == cut[s.token := s]
    case Get(token, now) =>
      after == if token in t && !Expired(t[token], now) then t[token := Disarmed(t[token], now)] else t - {token}
    case Arm(token, until, now) =>
      after == if token in t && !Expired(t[token], now) then t[token := Armed(t[token], until, now)] else t - {token}
    case Delete(token) => after == t - {token}
  }

  class SessionStore {
    const ttl: int
    var entries: Table

    ghost predicate Valid()
      reads this
    {
      "" !in entries && |entries| <= MAX_SESSIONS
    }

    constructor (ttl: int)
      ensures Valid() && entries == map[] && this.ttl == ttl
    {
      this.ttl := ttl;
      entries := map[];
    }

    method PruneExpired(now: Instant)
      modifies this`entries
      ensures entries == Live(old(entries), now)
    {
      ghost var before := entries;
      var left := entries.Keys;
      while left != {}
        invariant left <= before.Keys
        invariant entries == map k | k in before && (k in left || !Expired(before[k], now)) :: before[k]
        decreases left
      {
        var token :| token in left;
        if now > entries[token].expiresAt {
          entries := entries - {token};
        }
        left := left - {token};
      }
    }

    method Put(entry: Session, now: Instant) returns (ghost cut: Table)
      requires Valid()
      modifies this`entries
      ensures Valid() && StepOk(old(entries), Op.Put(entry, now), cut, entries)
    {
      cut := entries;
      if entry.token == "" {
        return;
      }
      PruneExpired(now);
      entries := EnforceLimit(entries, MAX_SESSIONS - 1, ExpiresAt);
      cut := entries;
      entries := entries[entry.token := entry];
      assert entries.Keys == cut.Keys + {entry.token};
    }

    /** token is a fresh random text. */
    method Create(token: string, ttl: int, persistent: bool, now: Instant) returns (s: Session, ghost cut: Table)
      requires Valid() && token != ""
      modifies this`entries
      ensures Valid() && StepOk(old(entries), Op.Put(s, now), cut, entries)
      ensures s == Session(token, now, now + (if ttl <= 0 then this.ttl else ttl), persistent, 0)
    {
      var life := ttl;
      if life <= 0 {
        life := this.ttl;
      }
      s := Session(token, now, now + life, persistent, 0);
      PruneExpired(now);
      entries := EnforceLimit(entries, MAX_SESSIONS - 1, ExpiresAt);
      cut := entries;
      entries := entries[token := s];
      assert entries.Keys == cut.Keys + {token};
    }

    method Get(token: string, now: Instant) returns (found: Option<Session>)
      requires Valid()
      modifies this`entries
      ensures Valid() && StepOk(old(entries), Op.Get(token, now), entries, entries)
      ensures found.Some? <==> token in old(entries) && !Expired(old(entries)[token], now)
      ensures found.Some? ==> token in entries && found.value == entries[token]
      ensures found.Some? ==> found.value.expiresAt >= now && (found.value.armedUntil == 0 || found.value.armedUntil > now)
    {
      if token !in entries || now > entries[token].expiresAt {
        Remove(token);
        return None;
      }
      var entry := entries[token];
      if entry.armedUntil != 0 && now >= entry.armedUntil {
        entry := entry.(armedUntil := 0);
        Replace(token, entry);
      }
      found := Some(entry);
    }

    method SetAgentArmed(token: string, until: Time, now: Instant) returns (found: Option<Session>)
      requires Valid()
      modifies this`entries
      ensures Valid() && StepOk(old(entries), Op.Arm(token, until, now), entries, entries)
      ensures found.Some? <==> token in old(entries) && !Expired(old(entries)[token], now)
      ensures found.Some? ==> token in entries && found.value == entries[token]
    {
      if token !in entries || now > entries[token].expiresAt {
        Remove(token);
        return None;
      }
      var entry := entries[token];
      if until == 0 || until <= now {
        entry := entry.(armedUntil := 0);
      } else {
        var end := until;
        if end > entry.expiresAt {
          end := entry.expiresAt;
        }
        entry := entry.(armedUntil := end);
      }
      Replace(token, entry);
      found := Some(entry);
    }

    method Remove(token: string)
      requires Valid()
      modifies this`entries
      ensures Valid() && entries == old(entries) - {token}
    {
      entries := entries - {token};
      SmallerTable(entries, old(entries));
    }

    method Replace(token: string, s: Session)
      requires Valid() && token in entries
      modifies this`entries
      ensures Valid() && entries == old(entries)[token := s]
    {
      entries := entries[token := s];
      assert entries.Keys == old(entries).Keys;
    }
  }

  lemma SmallerTable(a: Table, b: Table)
    requires a.Keys <= b.Keys
    ensures |a| <= |b|
  {
    SubsetSize(a.Keys, b.Keys);
  }

  // ---------------------------------------------------------------------
  // Whole runs
  // ---------------------------------------------------------------------

  datatype Step = Step(op: Op, cut: Table, after: Table)

  ghost predicate IsRun(t: Table, run: seq<Step>)
    decreases |run|
  {
    run == [] || (StepOk(t, run[0].op, run[0].cut, run[0].after) && IsRun(run[0].after, run[1..]))
  }

  function End(t: Table, run: seq<Step>): Table {
    if run == [] then t else run[|run| - 1].after
  }

  function TimeOf(op: Op, since: Time): Time {
    if op.Delete? then since else op.now
  }

  ghost predicate ClockForward(run: seq<Step>, since: Time)
    decreases |run|
  {
    run == [] || (since <= TimeOf(run[0].op, since) && ClockForward(run[1..], TimeOf(run[0].op, since)))
  }

  function LastTime(run: seq<Step>, since: Time): Time
    decreases |run|
  {
    if run == [] then since else LastTime(run[1..], TimeOf(run[0].op, since))
  }

  /** The map that keeps every session: puts overwrite, arms apply to what is
      unexpired, deletes delete, and nothing else ever goes. */
  function Kept(all: Table, op: Op): Table {
    match op
    case Put(s, _) => if s.token == "" then all else all[s.token := s]
    case Get(_, _) => all
    case Arm(token, until, now) =>
      if token in all && !Expired(all[token], now) then all[token := Armed(all[token], until, now)] else all
    case Delete(token) => all - {token}
  }

  function KeptAll(all: Table, run: seq<Step>): Table
    decreases |run|
  {
    if run == [] then all else KeptAll(Kept(all, run[0].op), run[1..])
  }

  /** Equal but for an arm that has lapsed by now. */
  ghost predicate SameButLapsed(s: Session, full: Session, now: Time) {
    s == full || (full.armedUntil != 0 && full.armedUntil <= now && s == full.(armedUntil := 0))
  }

  /** The step evicted the token: 511 other sessions expired no earlier. */
  ghost predicate Evicts(t: Table, step: Step, token: string) {
    && step.op.Put? && step.op.session.token != ""
    && token in Live(t, step.op.now) && token !in step.cut
    && step.cut.Keys <= t.Keys && |step.cut| == MAX_SESSIONS - 1
    && forall k :: k in step.cut ==> !Expired(t[k], step.op.now) && t[k].expiresAt >= t[token].expiresAt
  }

  /** Evicted, and not put again since. */
  ghost predicate LostBy(t: Table, step: Step, token: string, lost: bool) {
    !(step.op.Put? && token != "" && step.op.session.token == token) && (lost || Evicts(t, step, token))
  }

  ghost predicate Lost(t: Table, run: seq<Step>, token: string, lost: bool)
    decreases |run|
  {
    if run == [] then lost else Lost(run[0].after, run[1..], token, LostBy(t, run[0], token, lost))
  }

  /** What the store holds for a token is what the full map holds; what it has
      dropped was expired by now, or gone to eviction (then: lost). */
  ghost predicate Agrees(t: Table, all: Table, token: string, lost: bool, now: Time) {
    && (token in t ==> token in all && SameButLapsed(t[token], all[token], now))
    && (token !in t && token in all && !lost ==> Expired(all[token], now))
  }

  lemma EvictionMeans(t: Table, step: Step, token: string)
    requires StepOk(t, step.op, step.cut, step.after) && step.op.Put? && step.op.session.token != ""
    requires token in Live(t, step.op.now) && token !in step.cut
    ensures Evicts(t, step, token)
  {
    var live := Live(t, step.op.now);
    assert step.cut.Keys <= live.Keys;
    if |live| <= MAX_SESSIONS - 1 {
      CutOfSmallIsAll(live, step.cut, MAX_SESSIONS - 1, ExpiresAt);
    }
  }

  lemma PutAgrees(t: Table, all: Table, token: string, lost: bool, now: Time, step: Step)
    requires step.op.Put? && StepOk(t, step.op, step.cut, step.after) && Agrees(t, all, token, lost, now)
    requires now <= step.op.now
    ensures Agrees(step.after, Kept(all, step.op), token, LostBy(t, step, token, lost), step.op.now)
  {
    var s, at := step.op.session, step.op.now;
    if s.token != "" && s.token != token && token !in step.cut {
      assert token !in step.after;
      if token in Live(t, at) {
        EvictionMeans(t, step, token);
        assert LostBy(t, step, token, lost);
      } else if token in t {
        assert Expired(t[token], at) && Expired(all[token], at);
      }
    }
  }

  lemma OtherAgrees(t: Table, all: Table, token: string, lost: bool, now: Time, step: Step)
    requires !step.op.Put? && StepOk(t, step.op, step.cut, step.after) && Agrees(t, all, token, lost, now)
    requires now <= TimeOf(step.op, now)
    ensures Agrees(step.after, Kept(all, step.op), token, LostBy(t, step, token, lost), TimeOf(step.op, now))
  {
    assert LostBy(t, step, token, lost) <==> lost;
  }

  lemma StepAgrees(t: Table, all: Table, token: string, lost: bool, now: Time, step: Step)
    requires StepOk(t, step.op, step.cut, step.after) && Agrees(t, all, token, lost, now)
    requires now <= TimeOf(step.op, now)
    ensures Agrees(step.after, Kept(all, step.op), token, LostBy(t, step, token, lost), TimeOf(step.op, now))
  {
    if step.op.Put? {
      PutAgrees(t, all, token, lost, now, step);
    } else {
      OtherAgrees(t, all, token, lost, now, step);
    }
  }

  lemma {:induction false} RunAgrees(t: Table, all: Table, token: string, lost: bool, since: Time, run: seq<Step>)
    requires IsRun(t, run) && ClockForward(run, since) && Agrees(t, all, token, lost, since)
    ensures Agrees(End(t, run), KeptAll(all, run), token, Lost(t, run, token, lost), LastTime(run, since))
    decreases |run|
  {
    if run != [] {
      var step := run[0];
      StepAgrees(t, all, token, lost, since, step);
      RunAgrees(step.after, Kept(all, step.op), token, LostBy(t, step, token, lost), TimeOf(step.op, since), run[1..]);
    }
  }

  /** Over any run on a clock that does not go back, the bounded store holds every
      unexpired session the full map holds, up to a lapsed arm, except those
      evicted since they were put, each when 511 others expired no earlier. */
  lemma OnlyEvictionLoses(run: seq<Step>, token: string, now: Time)
    requires IsRun(map[], run) && ClockForward(run, 0) && LastTime(run, 0) <= now
    ensures var held, all := End(map[], run), KeptAll(map[], run);
      && (token in held ==> token in all && SameButLapsed(held[token], all[token], now))
      && (token in all && !Expired(all[token], now) && !Lost(map[], run, token, false) ==> token in held)
  {
    RunAgrees(map[], map[], token, false, 0, run);
  }

  lemma {:induction false} NeverTooMany(t: Table, run: seq<Step>)
    requires IsRun(t, run) && |t| <= MAX_SESSIONS
    ensures |End(t, run)| <= MAX_SESSIONS
    decreases |run|
  {
    if run != [] {
      var step := run[0];
      match step.op {
        case Put(s, _) =>
          assert s.token != "" ==> step.after.Keys == step.cut.Keys + {s.token};
        case Get(token, _) =>
          SmallerTable(step.after, t);
        case Arm(token, _, _) =>
          SmallerTable(step.after, t);
        case Delete(_) =>
          SmallerTable(step.after, t);
      }
      NeverTooMany(step.after, run[1..]);
    }
  }

  ghost predicate ArmsWithin(t: Table) {
    forall k :: k in t ==> t[k].armedUntil <= t[k].expiresAt
  }

  lemma ArmsStepWithin(t: Table, step: Step)
    requires StepOk(t, step.op, step.cut, step.after) && ArmsWithin(t)
    requires step.op.Put? ==> step.op.session.armedUntil <= step.op.session.expiresAt
    requires step.op.Arm? ==> step.op.now > 0
    ensures ArmsWithin(step.after)
  {
    match step.op
    case Put(s, now) =>
      if s.token != "" {
        assert forall k :: k in step.cut ==> step.cut[k] == t[k];
      }
    case Get(token, now) =>
      assert token in t && !Expired(t[token], now) ==> Disarmed(t[token], now).armedUntil <= t[token].expiresAt;
    case Arm(token, until, now) =>
      assert token in t && !Expired(t[token], now) ==> Armed(t[token], until, now).armedUntil <= t[token].expiresAt;
    case Delete(_) =>
  }

  /** No arm outlasts its session, as long as sessions are put that way. */
  lemma {:induction false} ArmsStayWithin(t: Table, run: seq<Step>)
    requires IsRun(t, run) && ArmsWithin(t)
    requires forall i :: 0 <= i < |run| && run[i].op.Put? ==> run[i].op.session.armedUntil <= run[i].op.session.expiresAt
    ensures ArmsWithin(End(t, run))
    decreases |run|
  {
    if run != [] {
      ArmsStepWithin(t, run[0]);
      ArmsStayWithin(run[0].after, run[1..]);
    }
  }

  // ---------------------------------------------------------------------
  // How long an arm lasts
  // ---------------------------------------------------------------------

  /** The step neither sets the session or its arm again, nor deletes or evicts it. */
  ghost predicate LeavesAlone(t: Table, step: Step, token: string) {
    match step.op
    case Put(s, now) => s.token != token && (s.token != "" && token in Live(t, now) ==> token in step.cut)
    case Get(_, _) => true
    case Arm(other, _, _) => other != token
    case Delete(other) => other != token
  }

  ghost predicate AllLeaveAlone(t: Table, run: seq<Step>, token: string)
    decreases |run|
  {
    run == [] || (LeavesAlone(t, run[0], token) && AllLeaveAlone(run[0].after, run[1..], token))
  }

  /** The session stands with the arm that ends then, or, once that has lapsed, without. */
  ghost predicate StandsArmed(t: Table, token: string, expiresAt: Time, end: Time, now: Time) {
    && token in t && t[token].expiresAt == expiresAt
    && (t[token].armedUntil == end || (t[token].armedUntil == 0 && end <= now))
  }

  lemma StepStands(t: Table, step: Step, token: string, expiresAt: Time, end: Time, since: Time)
    requires StepOk(t, step.op, step.cut, step.after) && LeavesAlone(t, step, token) && StandsArmed(t, token, expiresAt, end, since)
    requires since <= TimeOf(step.op, since) <= expiresAt
    ensures StandsArmed(step.after, token, expiresAt, end, TimeOf(step.op, since))
  {
  }

  lemma {:induction false} RunStands(t: Table, run: seq<Step>, token: string, expiresAt: Time, end: Time, since: Time)
    requires IsRun(t, run) && ClockForward(run, since) && AllLeaveAlone(t, run, token) && LastTime(run, since) <= expiresAt
    requires StandsArmed(t, token, expiresAt, end, since)
    ensures StandsArmed(End(t, run), token, expiresAt, end, LastTime(run, since))
    decreases |run|
  {
    if run != [] {
      LaterTimes(run[1..], TimeOf(run[0].op, since));
      StepStands(t, run[0], token, expiresAt, end, since);
      RunStands(run[0].after, run[1..], token, expiresAt, end, TimeOf(run[0].op, since));
    }
  }

  lemma {:induction false} LaterTimes(run: seq<Step>, since: Time)
    requires ClockForward(run, since)
    ensures since <= LastTime(run, since)
    decreases |run|
  {
    if run != [] {
      LaterTimes(run[1..], TimeOf(run[0].op, since));
    }
  }

  /** The least of the time asked for and the session's end; none when that is past. */
  function ArmEnd(until: Time, expiresAt: Time, now: Time): Option<Time> {
    if until <= now then None else if until < expiresAt then Some(until) else Some(expiresAt)
  }

  /** An arm set at one time lasts exactly until the time asked for, or the session's end
      if that comes first: whatever else the store does, as long as nobody sets, deletes or
      evicts the session, a later read returns the arm before that instant, and none from
      it on. */
  lemma ArmLasts(t: Table, arm: Step, run: seq<Step>, read: Step, token: string, until: Time, now: Instant, later: Instant)
    requires arm.op == Op.Arm(token, until, now) && read.op == Op.Get(token, later)
    requires token in t && now <= t[token].expiresAt && later <= t[token].expiresAt
    requires StepOk(t, arm.op, arm.cut, arm.after) && IsRun(arm.after, run) && StepOk(End(arm.after, run), read.op, read.cut, read.after)
    requires ClockForward(run, now) && LastTime(run, now) <= later && AllLeaveAlone(arm.after, run, token)
    ensures token in read.after && token in arm.after
    ensures var end := ArmEnd(until, t[token].expiresAt, now);
      arm.after[token].armedUntil == if end.Some? then end.value else 0
    ensures var end := ArmEnd(until, t[token].expiresAt, now);
      read.after[token].armedUntil == if end.Some? && later < end.value then end.value else 0
  {
    var expiresAt := t[token].expiresAt;
    RunStands(arm.after, run, token, expiresAt, arm.after[token].armedUntil, now);
  }
}
