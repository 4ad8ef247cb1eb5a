/** The repair limiter: a per-app cooldown and a global hourly cap over a table
    that forgets reservations as they age, compared with one that never does. */
module RepairLimiter {
  import opened Models
  import opened Collections
  import Text

  const COOLDOWN := MINUTE
  const GLOBAL_WINDOW := HOUR
  const GLOBAL_LIMIT := 5

  datatype Refusal = PerAppCooldown | GlobalRateLimit

  datatype Decision =
    | Allowed
    | Refused(reason: Refusal, retryAfter: int, retryAfterSeconds: int)

  datatype Limiter = Limiter(lastByApp: map<string, Time>, global: seq<Time>)

  const EMPTY := Limiter(map[], [])

  function KeyOf(appId: string): string {
    var key := Text.NormalId(appId);
    if key == "" then "unknown" else key
  }

  /** Go's integer division truncates; the numerator here is never negative. */
  function Refuse(reason: Refusal, retryAfter: int): Decision
    requires retryAfter >= 0
  {
    Refused(reason, retryAfter, (retryAfter + SECOND - 1) / SECOND)
  }

  // ---------------------------------------------------------------------
  // The limiter as the server runs it
  // ---------------------------------------------------------------------

  function Since(times: seq<Time>, now: Time): (r: seq<Time>)
    ensures forall at :: at in r <==> at in times && at != 0 && at + GLOBAL_WINDOW > now
  {
    if times == [] then []
    else
      var at := times[0];
      (if at != 0 && at + GLOBAL_WINDOW > now then [at] else []) + Since(times[1..], now)
  }

  function Expire(l: Limiter, now: Time): Limiter {
    Limiter(map k | k in l.lastByApp && (l.lastByApp[k] == 0 || l.lastByApp[k] + COOLDOWN > now) :: l.lastByApp[k],
            Since(l.global, now))
  }

  function CoolingUntil(l: Limiter, key: string): Time {
    if key in l.lastByApp && l.lastByApp[key] != 0 then l.lastByApp[key] + COOLDOWN else 0
  }

  function Judge(l: Limiter, key: string, now: Instant): Decision {
    var cooling := CoolingUntil(l, key) - now;
    if cooling > 0 then Refuse(PerAppCooldown, cooling)
    else if |l.global| >= GLOBAL_LIMIT then
      var wait := l.global[0] + GLOBAL_WINDOW - now;
      Refuse(GlobalRateLimit, if wait > 0 then wait else 0)
    else Allowed
  }

  function Decided(l: Limiter, key: string, now: Instant, reserve: bool): (Limiter, Decision) {
    var swept := Expire(l, now);
    var d := Judge(swept, key, now);
    if d.Allowed? && reserve
    then (Limiter(swept.lastByApp[key := now], swept.global + [now]), d)
    else (swept, d)
  }

  class AgentRepairLimiter {
    var lastByApp: map<string, Time>
    var global: seq<Time>

    ghost function State(): Limiter
      reads this
    {
      Limiter(lastByApp, global)
    }

    constructor ()
      ensures State() == EMPTY
    {
      lastByApp, global := map[], [];
    }

    /** now may be the zero time, which stands for the clock's reading. */
    method Decide(appId: string, now: Time, clock: Instant, reserve: bool) returns (d: Decision)
      requires now >= 0
      modifies this
      ensures (State(), d) == Decided(old(State()), KeyOf(appId), if now == 0 then clock else now, reserve)
    {
      var at: Instant := clock;
      if now != 0 {
        at := now;
      }
      var key := KeyOf(appId);
      ExpireAll(at);
      if key in lastByApp && lastByApp[key] != 0 {
        var retryAfter := lastByApp[key] + COOLDOWN - at;
        if retryAfter > 0 {
          return Refuse(PerAppCooldown, retryAfter);
        }
      }
      if |global| >= GLOBAL_LIMIT {
        var retryAfter := global[0] + GLOBAL_WINDOW - at;
        if retryAfter < 0 {
          retryAfter := 0;
        }
        return Refuse(GlobalRateLimit, retryAfter);
      }
      if reserve {
        lastByApp := lastByApp[key := at];
        global := global + [at];
      }
      d := Allowed;
    }

    method ExpireAll(now: Instant)
      modifies this
      ensures State() == Expire(old(State()), now)
    {
      ExpireApps(now);
      ExpireGlobal(now);
    }

    method ExpireApps(now: Instant)
      modifies this`lastByApp
      ensures lastByApp == Expire(old(State()), now).lastByApp
    {
      ghost var before := lastByApp;
      var left := lastByApp.Keys;
      while left != {}
        invariant left <= before.Keys
        invariant lastByApp ==
          map k | k in before && (k in left || before[k] == 0 || before[k] + COOLDOWN > now) :: before[k]
        decreases left
      {
        var appKey :| appKey in left;
        var at := lastByApp[appKey];
        if at != 0 && at + COOLDOWN <= now {
          lastByApp := lastByApp - {appKey};
        }
        left := left - {appKey};
      }
    }

    method ExpireGlobal(now: Instant)
      modifies this`global
      ensures global == Since(old(global), now)
    {
      var kept := [];
      ghost var rest := Since(global, now);
      for i := 0 to |global|
        invariant global == old(global)
        invariant rest == Since(global[i..], now) && kept + rest == Since(global, now)
      {
        Uncons(global, i);
        rest := Since(global[i + 1..], now);
        var at := global[i];
        if at != 0 && at + GLOBAL_WINDOW > now {
          Associative(kept, [at], rest);
          kept := kept + [at];
        }
      }
      global := kept;
    }
  }

  // ---------------------------------------------------------------------
  // A limiter that never forgets
  // ---------------------------------------------------------------------

  datatype Reservation = Reservation(key: string, at: Instant)

  /** The latest reservation of a key, or 0. */
  function LastAt(log: seq<Reservation>, key: string): Time {
    if log == [] then 0
    else
      var last := log[|log| - 1];
      if last.key == key then last.at else LastAt(log[..|log| - 1], key)
  }

  /** The reservations of the past hour, oldest first. */
  function Recent(log: seq<Reservation>, now: Time): (r: seq<Time>)
    ensures |r| <= |log|
    ensures forall at :: at in r ==> at + GLOBAL_WINDOW > now
  {
    if log == [] then []
    else
      var last := log[|log| - 1];
      Recent(log[..|log| - 1], now) + (if last.at + GLOBAL_WINDOW > now then [last.at] else [])
  }

  function JudgeByLog(log: seq<Reservation>, key: string, now: Instant): Decision {
    var last, recent := LastAt(log, key), Recent(log, now);
    if last != 0 && last + COOLDOWN > now then Refuse(PerAppCooldown, last + COOLDOWN - now)
    else if |recent| >= GLOBAL_LIMIT then
      var oldest := recent[0];
      assert oldest in recent;
      Refuse(GlobalRateLimit, oldest + GLOBAL_WINDOW - now)
    else Allowed
  }

  function DecidedByLog(log: seq<Reservation>, key: string, now: Instant, reserve: bool): (seq<Reservation>, Decision) {
    var d := JudgeByLog(log, key, now);
    (if d.Allowed? && reserve then log + [Reservation(key, now)] else log, d)
  }

  ghost predicate Ordered(log: seq<Reservation>) {
    forall i, j :: 0 <= i < j < |log| ==> log[i].at <= log[j].at
  }

  ghost predicate InOrder(log: seq<Reservation>, now: Time) {
    && Ordered(log)
    && (forall i :: 0 <= i < |log| ==> log[i].at <= now)
  }

  /** The table is what the log looks like from the last sweep. */
  ghost predicate Reflects(l: Limiter, log: seq<Reservation>, swept: Time) {
    && InOrder(log, swept)
    && l.global == Recent(log, swept)
    && (forall k :: k in l.lastByApp ==> l.lastByApp[k] == LastAt(log, k) != 0)
    && (forall k :: LastAt(log, k) != 0 && LastAt(log, k) + COOLDOWN > swept ==> k in l.lastByApp)
  }

  lemma {:induction false} SinceAppend(a: seq<Time>, b: seq<Time>, now: Time)
    ensures Since(a + b, now) == Since(a, now) + Since(b, now)
  {
    if a == [] {
      assert a + b == b;
    } else {
      assert (a + b)[1..] == a[1..] + b;
      SinceAppend(a[1..], b, now);
    }
  }

  /** Sweeping an earlier sweep's remainder forgets nothing more. */
  lemma {:induction false} SweepTwice(log: seq<Reservation>, before: Time, now: Time)
    requires before <= now
    ensures Since(Recent(log, before), now) == Recent(log, now)
  {
    if log != [] {
      var last := log[|log| - 1];
      SweepTwice(log[..|log| - 1], before, now);
      var tail := if last.at + GLOBAL_WINDOW > before then [last.at] else [];
      SinceAppend(Recent(log[..|log| - 1], before), tail, now);
    }
  }

  lemma SweptReflects(l: Limiter, log: seq<Reservation>, swept: Time, now: Time)
    requires Reflects(l, log, swept) && swept <= now
    ensures Reflects(Expire(l, now), log, now)
  {
    SweepTwice(log, swept, now);
  }

  lemma ReservedReflects(l: Limiter, log: seq<Reservation>, key: string, now: Instant)
    requires Reflects(l, log, now)
    ensures Reflects(Limiter(l.lastByApp[key := now], l.global + [now]), log + [Reservation(key, now)], now)
  {
    OneMoreReserved(log, Reservation(key, now), now);
  }

  lemma OneMoreReserved(log: seq<Reservation>, r: Reservation, now: Time)
    ensures forall k :: LastAt(log + [r], k) == if k == r.key then r.at else LastAt(log, k)
    ensures Recent(log + [r], now) == if r.at + GLOBAL_WINDOW > now then Recent(log, now) + [r.at] else Recent(log, now)
  {
    var more := log + [r];
    assert more[..|more| - 1] == log;
  }

  /** One call: same decision, and the tables still agree. */
  lemma DecideAgrees(l: Limiter, log: seq<Reservation>, swept: Time, key: string, now: Instant, reserve: bool)
    requires Reflects(l, log, swept) && swept <= now
    ensures Decided(l, key, now, reserve).1 == DecidedByLog(log, key, now, reserve).1
    ensures Reflects(Decided(l, key, now, reserve).0, DecidedByLog(log, key, now, reserve).0, now)
  {
    SweptReflects(l, log, swept, now);
    var e := Expire(l, now);
    assert |e.global| >= GLOBAL_LIMIT ==> e.global[0] in Recent(log, now);
    assert Judge(e, key, now) == JudgeByLog(log, key, now);
    ReservedReflects(e, log, key, now);
  }

  lemma EmptyAllows(key: string, now: Instant)
    ensures Decided(EMPTY, key, now, true).1 == Allowed
  {
    assert Expire(EMPTY, now) == EMPTY;
    assert CoolingUntil(EMPTY, key) == 0;
  }

  // ---------------------------------------------------------------------
  // Whole runs
  // ---------------------------------------------------------------------

  datatype Call = Call(key: string, now: Instant, reserve: bool)

  ghost predicate ClockForward(calls: seq<Call>, since: Time) {
    && (forall i :: 0 <= i < |calls| ==> since <= calls[i].now)
    && (forall i, j :: 0 <= i < j < |calls| ==> calls[i].now <= calls[j].now)
  }

  function After(l: Limiter, calls: seq<Call>): Limiter
    decreases |calls|
  {
    if calls == [] then l
    else After(Decided(l, calls[0].key, calls[0].now, calls[0].reserve).0, calls[1..])
  }

  function Answers(l: Limiter, calls: seq<Call>): (r: seq<Decision>)
    ensures |r| == |calls|
    decreases |calls|
  {
    if calls == [] then []
    else
      var (next, d) := Decided(l, calls[0].key, calls[0].now, calls[0].reserve);
      [d] + Answers(next, calls[1..])
  }

  function LogAfter(log: seq<Reservation>, calls: seq<Call>): seq<Reservation>
    decreases |calls|
  {
    if calls == [] then log
    else LogAfter(DecidedByLog(log, calls[0].key, calls[0].now, calls[0].reserve).0, calls[1..])
  }

  function AnswersByLog(log: seq<Reservation>, calls: seq<Call>): (r: seq<Decision>)
    ensures |r| == |calls|
    decreases |calls|
  {
    if calls == [] then []
    else
      var (next, d) := DecidedByLog(log, calls[0].key, calls[0].now, calls[0].reserve);
      [d] + AnswersByLog(next, calls[1..])
  }

  function LastNow(calls: seq<Call>, since: Time): Time {
    if calls == [] then since else calls[|calls| - 1].now
  }

  /** On a clock that does not go back, the limiter that sweeps answers every
      call exactly like the one that remembers every reservation. */
  lemma {:induction false} ForgettingIsSafe(l: Limiter, log: seq<Reservation>, swept: Time, calls: seq<Call>)
    requires Reflects(l, log, swept) && ClockForward(calls, swept)
    ensures Answers(l, calls) == AnswersByLog(log, calls)
    ensures Reflects(After(l, calls), LogAfter(log, calls), LastNow(calls, swept))
    decreases |calls|
  {
    if calls != [] {
      var c := calls[0];
      DecideAgrees(l, log, swept, c.key, c.now, c.reserve);
      ForgettingIsSafe(Decided(l, c.key, c.now, c.reserve).0, DecidedByLog(log, c.key, c.now, c.reserve).0, c.now, calls[1..]);
    }
  }

  /** Any six reservations in a row span at least an hour, and two of one key are
      at least a minute apart. */
  ghost predicate Spaced(log: seq<Reservation>) {
    && (forall i :: 0 <= i < |log| - GLOBAL_LIMIT ==> log[i].at + GLOBAL_WINDOW <= log[i + GLOBAL_LIMIT].at)
    && (forall i, j :: 0 <= i < j < |log| && log[i].key == log[j].key ==> log[i].at + COOLDOWN <= log[j].at)
  }

  lemma {:induction false} RecentIsSuffix(log: seq<Reservation>, now: Time, n: nat)
    requires Ordered(log) && 0 < n <= |log|
    ensures log[|log| - n].at + GLOBAL_WINDOW > now <==> |Recent(log, now)| >= n
    decreases |log|
  {
    var rest := log[..|log| - 1];
    if n > 1 {
      RecentIsSuffix(rest, now, n - 1);
      assert rest[|rest| - (n - 1)] == log[|log| - n];
    } else if |rest| > 0 {
      RecentIsSuffix(rest, now, 1);
    }
  }

  /** The remembered time of a key bounds all its reservations. */
  lemma {:induction false} LastAtBounds(log: seq<Reservation>, key: string)
    requires Ordered(log)
    ensures forall i :: 0 <= i < |log| && log[i].key == key ==> log[i].at <= LastAt(log, key)
    ensures LastAt(log, key) != 0 ==> exists i :: 0 <= i < |log| && log[i].key == key && log[i].at == LastAt(log, key)
  {
    if log != [] {
      LastAtBounds(log[..|log| - 1], key);
    }
  }

  ghost predicate CoolingAt(log: seq<Reservation>, key: string, now: Time) {
    exists i :: 0 <= i < |log| && log[i].key == key && log[i].at + COOLDOWN > now
  }

  ghost predicate FullAt(log: seq<Reservation>, now: Time) {
    |log| >= GLOBAL_LIMIT && log[|log| - GLOBAL_LIMIT].at + GLOBAL_WINDOW > now
  }

  /** A call is refused for cooling down exactly when its key was reserved within
      the last minute, and for the global limit exactly when it is not cooling and
      the fifth newest reservation of any key is less than an hour old. */
  lemma RefusalMeans(log: seq<Reservation>, key: string, now: Instant)
    requires Ordered(log)
    ensures var d := JudgeByLog(log, key, now);
      && (d.Refused? && d.reason == PerAppCooldown <==> CoolingAt(log, key, now))
      && (d.Refused? && d.reason == GlobalRateLimit <==> !CoolingAt(log, key, now) && FullAt(log, now))
      && (d.Allowed? <==> !CoolingAt(log, key, now) && !FullAt(log, now))
  {
    LastAtBounds(log, key);
    if |log| >= GLOBAL_LIMIT {
      RecentIsSuffix(log, now, GLOBAL_LIMIT);
    }
  }

  lemma OneMoreIsSpaced(log: seq<Reservation>, r: Reservation)
    requires InOrder(log, r.at) && Spaced(log) && !CoolingAt(log, r.key, r.at) && !FullAt(log, r.at)
    ensures InOrder(log + [r], r.at) && Spaced(log + [r])
  {
  }

  lemma ReservingKeepsSpacing(log: seq<Reservation>, key: string, now: Instant, reserve: bool)
    requires InOrder(log, now) && Spaced(log)
    ensures var next := DecidedByLog(log, key, now, reserve).0; InOrder(next, now) && Spaced(next)
  {
    RefusalMeans(log, key, now);
    if JudgeByLog(log, key, now).Allowed? {
      OneMoreIsSpaced(log, Reservation(key, now));
    }
  }

  lemma {:induction false} RunKeepsSpacing(log: seq<Reservation>, since: Time, calls: seq<Call>)
    requires InOrder(log, since) && Spaced(log) && ClockForward(calls, since)
    ensures Spaced(LogAfter(log, calls))
    decreases |calls|
  {
    if calls != [] {
      var c := calls[0];
      ReservingKeepsSpacing(log, c.key, c.now, c.reserve);
      RunKeepsSpacing(DecidedByLog(log, c.key, c.now, c.reserve).0, c.now, calls[1..]);
    }
  }

  /** The reservations the limiter grants over a run, in order. */
  function Granted(calls: seq<Call>, decisions: seq<Decision>): seq<Reservation>
    requires |calls| == |decisions|
  {
    if calls == [] then []
    else
      (if calls[0].reserve && decisions[0].Allowed? then [Reservation(calls[0].key, calls[0].now)] else [])
      + Granted(calls[1..], decisions[1..])
  }

  lemma {:induction false} LogIsGranted(log: seq<Reservation>, calls: seq<Call>)
    ensures LogAfter(log, calls) == log + Granted(calls, AnswersByLog(log, calls))
    decreases |calls|
  {
    if calls == [] {
      assert log + [] == log;
    } else {
      var c := calls[0];
      var (next, d) := DecidedByLog(log, c.key, c.now, c.reserve);
      LogIsGranted(next, calls[1..]);
      var rest := AnswersByLog(next, calls[1..]);
      assert ([d] + rest)[1..] == rest;
      var piece := if c.reserve && d.Allowed? then [Reservation(c.key, c.now)] else [];
      assert log + (piece + Granted(calls[1..], rest)) == (log + piece) + Granted(calls[1..], rest);
      assert next == log + piece;
    }
  }

  /** The two limits hold of the real limiter's grants over every run. */
  lemma GrantsAreSpaced(calls: seq<Call>)
    requires ClockForward(calls, 0)
    ensures Spaced(Granted(calls, Answers(EMPTY, calls)))
  {
    ForgettingIsSafe(EMPTY, [], 0, calls);
    LogIsGranted([], calls);
    RunKeepsSpacing([], 0, calls);
    var granted := Granted(calls, Answers(EMPTY, calls));
    assert [] + granted == granted;
  }

  // ---------------------------------------------------------------------
  // Display-only calls
  // ---------------------------------------------------------------------

  function Reserving(calls: seq<Call>): seq<Call> {
    if calls == [] then []
    else (if calls[0].reserve then [calls[0]] else []) + Reserving(calls[1..])
  }

  function ReservingDecisions(calls: seq<Call>, decisions: seq<Decision>): seq<Decision>
    requires |calls| == |decisions|
  {
    if calls == [] then []
    else (if calls[0].reserve then [decisions[0]] else []) + ReservingDecisions(calls[1..], decisions[1..])
  }

  lemma {:induction false} DisplayCallsLeaveNoTrace(log: seq<Reservation>, calls: seq<Call>)
    ensures ReservingDecisions(calls, AnswersByLog(log, calls)) == AnswersByLog(log, Reserving(calls))
    decreases |calls|
  {
    if calls != [] {
      var c := calls[0];
      var next := DecidedByLog(log, c.key, c.now, c.reserve).0;
      DisplayCallsLeaveNoTrace(next, calls[1..]);
      var rest := AnswersByLog(next, calls[1..]);
      assert AnswersByLog(log, calls)[1..] == rest;
      if c.reserve {
        assert ([c] + Reserving(calls[1..]))[1..] == Reserving(calls[1..]);
        assert Reserving(calls) == [c] + Reserving(calls[1..]);
      } else {
        assert Reserving(calls) == Reserving(calls[1..]);
        assert next == log;
      }
    }
  }

  lemma {:induction false} ReservingForward(calls: seq<Call>, since: Time)
    requires ClockForward(calls, since)
    ensures ClockForward(Reserving(calls), since)
  {
    if calls != [] {
      ReservingForward(calls[1..], calls[0].now);
    }
  }

  /** Asking for the cooldown, although it sweeps the tables, never changes what
      a later reserving call is told. */
  lemma DisplayCallsChangeNothing(calls: seq<Call>)
    requires ClockForward(calls, 0)
    ensures ReservingDecisions(calls, Answers(EMPTY, calls)) == Answers(EMPTY, Reserving(calls))
  {
    ForgettingIsSafe(EMPTY, [], 0, calls);
    DisplayCallsLeaveNoTrace([], calls);
    ReservingForward(calls, 0);
    ForgettingIsSafe(EMPTY, [], 0, Reserving(calls));
  }

  // ---------------------------------------------------------------------
  // The announced waiting time
  // ---------------------------------------------------------------------

  /** RetryAfter is the least wait: until it has passed the same call is refused
      for the same reason, and once it has passed, with nothing reserved
      meanwhile, that reason is gone (after a global refusal the call is allowed).
      RetryAfterSeconds rounds it up to whole seconds. */
  lemma RetryAfterIsExact(log: seq<Reservation>, key: string, now: Instant, d: Decision)
    requires InOrder(log, now) && Spaced(log) && d == JudgeByLog(log, key, now) && d.Refused?
    ensures d.retryAfter > 0
    ensures forall later: Instant :: now <= later < now + d.retryAfter ==>
      JudgeByLog(log, key, later).Refused? && JudgeByLog(log, key, later).reason == d.reason
    ensures forall later: Instant :: now + d.retryAfter <= later ==>
      var after := JudgeByLog(log, key, later);
      if d.reason == GlobalRateLimit then after.Allowed? else after.Refused? ==> after.reason != d.reason
    ensures (d.retryAfterSeconds - 1) * SECOND < d.retryAfter <= d.retryAfterSeconds * SECOND
  {
    LastAtBounds(log, key);
    if d.reason == GlobalRateLimit {
      FiveAtMost(log, now);
    }
    forall later: Instant | now <= later
      ensures var after := JudgeByLog(log, key, later);
        if later < now + d.retryAfter then after.Refused? && after.reason == d.reason
        else if d.reason == GlobalRateLimit then after.Allowed? else after.Refused? ==> after.reason != d.reason
    {
      RefusalMeans(log, key, now);
      RefusalMeans(log, key, later);
    }
  }

  /** Spacing leaves room for no more than five in an hour, so the oldest of the
      hour is the fifth newest of all. */
  lemma FiveAtMost(log: seq<Reservation>, now: Time)
    requires InOrder(log, now) && Spaced(log) && |Recent(log, now)| >= GLOBAL_LIMIT
    ensures |Recent(log, now)| == GLOBAL_LIMIT
    ensures Recent(log, now)[0] == log[|log| - GLOBAL_LIMIT].at
  {
    if |log| > GLOBAL_LIMIT {
      RecentIsSuffix(log, now, GLOBAL_LIMIT + 1);
    }
    RecentIsSuffix(log, now, GLOBAL_LIMIT);
    RecentFromEnd(log, now, GLOBAL_LIMIT);
  }

  lemma {:induction false} RecentFromEnd(log: seq<Reservation>, now: Time, n: nat)
    requires InOrder(log, now) && 0 < n == |Recent(log, now)| <= |log|
    ensures Recent(log, now)[0] == log[|log| - n].at
    decreases |log|
  {
    var rest := log[..|log| - 1];
    RecentIsSuffix(log, now, n);
    if n > 1 {
      RecentFromEnd(rest, now, n - 1);
      assert rest[|rest| - (n - 1)] == log[|log| - n];
    }
  }

  // ---------------------------------------------------------------------
  // A call that reads an earlier clock than the sweep before it
  // ---------------------------------------------------------------------

  /** A swept table holds nothing that has aged out by then. */
  ghost predicate Clean(l: Limiter, swept: Time) {
    && (forall k :: k in l.lastByApp ==> l.lastByApp[k] + COOLDOWN > swept)
    && (forall at :: at in l.global ==> at + GLOBAL_WINDOW > swept)
  }

  lemma DecidedIsClean(l: Limiter, log: seq<Reservation>, swept: Time, key: string, now: Instant, reserve: bool)
    requires Reflects(l, log, swept) && swept <= now
    ensures Clean(Decided(l, key, now, reserve).0, now)
  {
    var e := Expire(l, now);
    assert forall at :: at in e.global ==> at + GLOBAL_WINDOW > now;
    assert Clean(e, now);
  }

  lemma {:induction false} AfterIsClean(l: Limiter, log: seq<Reservation>, swept: Time, calls: seq<Call>)
    requires Reflects(l, log, swept) && Clean(l, swept) && ClockForward(calls, swept)
    ensures Clean(After(l, calls), LastNow(calls, swept))
    decreases |calls|
  {
    if calls != [] {
      var c := calls[0];
      DecideAgrees(l, log, swept, c.key, c.now, c.reserve);
      DecidedIsClean(l, log, swept, c.key, c.now, c.reserve);
      AfterIsClean(Decided(l, c.key, c.now, c.reserve).0, DecidedByLog(log, c.key, c.now, c.reserve).0, c.now, calls[1..]);
    }
  }

  lemma {:induction false} NothingToSweep(times: seq<Time>, now: Time)
    requires forall at :: at in times ==> at != 0 && at + GLOBAL_WINDOW > now
    ensures Since(times, now) == times
  {
    if times != [] {
      assert times[0] in times && forall at :: at in times[1..] ==> at in times;
      NothingToSweep(times[1..], now);
    }
  }

  lemma {:induction false} RecentAreInstants(log: seq<Reservation>, now: Time)
    ensures forall at :: at in Recent(log, now) ==> at > 0
  {
    if log != [] {
      RecentAreInstants(log[..|log| - 1], now);
    }
  }

  /** A late call is answered as of the last sweep, not as of its own reading. */
  lemma AnsweredAsOfSweep(l: Limiter, log: seq<Reservation>, swept: Instant, key: string, now: Instant, reserve: bool)
    requires Reflects(l, log, swept) && Clean(l, swept) && now < swept
    ensures Decided(l, key, now, reserve).1.Allowed? <==> !CoolingAt(log, key, swept) && !FullAt(log, swept)
  {
    RecentAreInstants(log, swept);
    NothingToSweep(l.global, now);
    assert Expire(l, now).lastByApp == l.lastByApp;
    LastAtBounds(log, key);
    assert key in l.lastByApp <==> CoolingAt(log, key, swept);
    if |log| >= GLOBAL_LIMIT {
      RecentIsSuffix(log, swept, GLOBAL_LIMIT);
    }
  }

  /** After any run on a clock that does not go back, a call with an earlier
      reading is granted against the full log's verdict exactly when a limit that
      stands at its reading no longer stood at the last sweep. It is never refused
      against it. */
  lemma {:induction false} LateCall(calls: seq<Call>, key: string, now: Instant)
    requires ClockForward(calls, 0) && now < LastNow(calls, 0)
    ensures var l, log, swept := After(EMPTY, calls), LogAfter([], calls), LastNow(calls, 0);
      var fast, full := Decided(l, key, now, true).1, DecidedByLog(log, key, now, true).1;
      && (fast.Allowed? && full.Refused? <==>
            (CoolingAt(log, key, now) || FullAt(log, now)) && !CoolingAt(log, key, swept) && !FullAt(log, swept))
      && (fast.Refused? ==> full.Refused?)
  {
    var log, swept: Instant := LogAfter([], calls), LastNow(calls, 0);
    ForgettingIsSafe(EMPTY, [], 0, calls);
    AfterIsClean(EMPTY, [], 0, calls);
    AnsweredAsOfSweep(After(EMPTY, calls), log, swept, key, now, true);
    RefusalMeans(log, key, now);
    RefusalMeans(log, key, swept);
  }

  // ---------------------------------------------------------------------
  // Any clock at all
  // ---------------------------------------------------------------------

  ghost predicate GrantedAt(calls: seq<Call>, answers: seq<Decision>, j: nat)
    requires j < |calls| == |answers|
  {
    calls[j].reserve && answers[j].Allowed?
  }

  /** Call j was granted, and no reading since then, before call i, has left its
      window. */
  ghost predicate Live(calls: seq<Call>, answers: seq<Decision>, j: nat, i: nat, window: int)
    requires j < i <= |calls| == |answers|
  {
    GrantedAt(calls, answers, j) && forall m :: j < m < i ==> calls[m].now < calls[j].now + window
  }

  /** The instants of the first n calls that are live before call i. */
  ghost function LiveTimes(calls: seq<Call>, answers: seq<Decision>, i: nat, n: nat): (r: seq<Time>)
    requires n <= i <= |calls| == |answers|
    ensures |r| <= n
  {
    if n == 0 then []
    else LiveTimes(calls, answers, i, n - 1) + (if Live(calls, answers, n - 1, i, GLOBAL_WINDOW) then [calls[n - 1].now] else [])
  }

  ghost function LiveCalls(calls: seq<Call>, answers: seq<Decision>, i: nat, n: nat): set<nat>
    requires n <= i <= |calls| == |answers|
  {
    set j: nat | 0 <= j < n && Live(calls, answers, j, i, GLOBAL_WINDOW)
  }

  lemma {:induction false} LiveTimesCount(calls: seq<Call>, answers: seq<Decision>, i: nat, n: nat)
    requires n <= i <= |calls| == |answers|
    ensures |LiveTimes(calls, answers, i, n)| == |LiveCalls(calls, answers, i, n)|
  {
    if n > 0 {
      LiveTimesCount(calls, answers, i, n - 1);
      var before := LiveCalls(calls, answers, i, n - 1);
      assert LiveCalls(calls, answers, i, n)
          == if Live(calls, answers, n - 1, i, GLOBAL_WINDOW) then before + {n - 1} else before;
    }
  }

  /** A live reservation of the key among the first n calls. */
  ghost predicate CoolingLive(calls: seq<Call>, answers: seq<Decision>, i: nat, n: nat, key: string)
    requires n <= i <= |calls| == |answers|
  {
    exists j :: 0 <= j < n && calls[j].key == key && Live(calls, answers, j, i, COOLDOWN)
  }

  /** The table is what is live among the first n calls before call i. */
  ghost predicate ShowsLive(l: Limiter, calls: seq<Call>, answers: seq<Decision>, i: nat, n: nat)
    requires n <= i <= |calls| == |answers|
  {
    && l.global == LiveTimes(calls, answers, i, n)
    && (forall k :: k in l.lastByApp ==> CoolingLive(calls, answers, i, n, k))
    && (forall j :: 0 <= j < n && Live(calls, answers, j, i, COOLDOWN) ==>
          calls[j].key in l.lastByApp && l.lastByApp[calls[j].key] == calls[j].now)
  }

  lemma {:induction false} SweepTimes(calls: seq<Call>, answers: seq<Decision>, i: nat, n: nat)
    requires n <= i < |calls| == |answers|
    ensures Since(LiveTimes(calls, answers, i, n), calls[i].now) == LiveTimes(calls, answers, i + 1, n)
  {
    if n > 0 {
      SweepTimes(calls, answers, i, n - 1);
      var last := if Live(calls, answers, n - 1, i, GLOBAL_WINDOW) then [calls[n - 1].now] else [];
      SinceAppend(LiveTimes(calls, answers, i, n - 1), last, calls[i].now);
      LiveNext(calls, answers, n - 1, i, GLOBAL_WINDOW);
    }
  }

  lemma LiveNext(calls: seq<Call>, answers: seq<Decision>, j: nat, i: nat, window: int)
    requires j < i < |calls| == |answers|
    ensures Live(calls, answers, j, i + 1, window) <==>
      Live(calls, answers, j, i, window) && calls[i].now < calls[j].now + window
  {
  }

  lemma SweepShows(l: Limiter, calls: seq<Call>, answers: seq<Decision>, i: nat)
    requires i < |calls| == |answers| && ShowsLive(l, calls, answers, i, i)
    ensures ShowsLive(Expire(l, calls[i].now), calls, answers, i + 1, i)
  {
    var e := Expire(l, calls[i].now);
    SweepTimes(calls, answers, i, i);
    forall k | k in e.lastByApp ensures CoolingLive(calls, answers, i + 1, i, k) {
      assert CoolingLive(calls, answers, i, i, k);
      var j :| 0 <= j < i && calls[j].key == k && Live(calls, answers, j, i, COOLDOWN);
      LiveNext(calls, answers, j, i, COOLDOWN);
    }
    forall j | 0 <= j < i && Live(calls, answers, j, i + 1, COOLDOWN)
      ensures calls[j].key in e.lastByApp && e.lastByApp[calls[j].key] == calls[j].now
    {
      LiveNext(calls, answers, j, i, COOLDOWN);
    }
  }

  /** What a swept table answers. */
  lemma JudgedByLive(e: Limiter, calls: seq<Call>, answers: seq<Decision>, i: nat)
    requires i < |calls| == |answers| && ShowsLive(e, calls, answers, i + 1, i)
    ensures Judge(e, calls[i].key, calls[i].now).Allowed? <==>
      !CoolingLive(calls, answers, i + 1, i, calls[i].key) && |LiveCalls(calls, answers, i + 1, i)| < GLOBAL_LIMIT
  {
    var key, now := calls[i].key, calls[i].now;
    LiveTimesCount(calls, answers, i + 1, i);
    if CoolingLive(calls, answers, i + 1, i, key) {
      var j :| 0 <= j < i && calls[j].key == key && Live(calls, answers, j, i + 1, COOLDOWN);
      assert now < calls[j].now + COOLDOWN;
    }
  }

  lemma GrantShows(e: Limiter, calls: seq<Call>, answers: seq<Decision>, i: nat)
    requires i < |calls| == |answers| && ShowsLive(e, calls, answers, i + 1, i)
    requires answers[i] == Judge(e, calls[i].key, calls[i].now)
    ensures ShowsLive(if GrantedAt(calls, answers, i) then Limiter(e.lastByApp[calls[i].key := calls[i].now], e.global + [calls[i].now]) else e,
                      calls, answers, i + 1, i + 1)
  {
    JudgedByLive(e, calls, answers, i);
    var l := if GrantedAt(calls, answers, i) then Limiter(e.lastByApp[calls[i].key := calls[i].now], e.global + [calls[i].now]) else e;
    assert Live(calls, answers, i, i + 1, GLOBAL_WINDOW) <==> GrantedAt(calls, answers, i);
    assert Live(calls, answers, i, i + 1, COOLDOWN) <==> GrantedAt(calls, answers, i);
    forall k | k in l.lastByApp ensures CoolingLive(calls, answers, i + 1, i + 1, k) {
      if k in e.lastByApp {
        assert CoolingLive(calls, answers, i + 1, i, k);
      } else {
        assert calls[i].key == k;
      }
    }
  }

  lemma {:induction false} AfterOneMore(l: Limiter, calls: seq<Call>, i: nat)
    requires i < |calls|
    ensures var before, c := After(l, calls[..i]), calls[i];
      Answers(l, calls)[i] == Decided(before, c.key, c.now, c.reserve).1
      && After(l, calls[..i + 1]) == Decided(before, c.key, c.now, c.reserve).0
    decreases i
  {
    var c := calls[0];
    var next := Decided(l, c.key, c.now, c.reserve).0;
    assert calls[..i + 1][0] == c && calls[..i + 1][1..] == calls[1..][..i];
    if i > 0 {
      AfterOneMore(next, calls[1..], i - 1);
      assert calls[..i][0] == c && calls[..i][1..] == calls[1..][..i - 1];
    } else {
      assert calls[..0] == [] && calls[1..][..0] == [];
    }
  }

  lemma {:induction false} TableShowsLive(calls: seq<Call>, i: nat)
    requires i <= |calls|
    ensures ShowsLive(After(EMPTY, calls[..i]), calls, Answers(EMPTY, calls), i, i)
  {
    if i > 0 {
      var answers, c := Answers(EMPTY, calls), calls[i - 1];
      var before := After(EMPTY, calls[..i - 1]);
      TableShowsLive(calls, i - 1);
      AfterOneMore(EMPTY, calls, i - 1);
      SweepShows(before, calls, answers, i - 1);
      GrantShows(Expire(before, c.now), calls, answers, i - 1);
    }
  }

  /** Over any run, whatever the clock does: a call is allowed exactly when no
      reservation of its key and fewer than five of all keys are still live, a
      reservation dying with the first reading, its own call's or an earlier
      one's, that lies beyond its window. */
  lemma {:induction false} AnyClock(calls: seq<Call>, i: nat)
    requires i < |calls|
    ensures var answers := Answers(EMPTY, calls);
      answers[i].Allowed? <==>
        !CoolingLive(calls, answers, i + 1, i, calls[i].key) && |LiveCalls(calls, answers, i + 1, i)| < GLOBAL_LIMIT
  {
    var answers := Answers(EMPTY, calls);
    var before := After(EMPTY, calls[..i]);
    TableShowsLive(calls, i);
    AfterOneMore(EMPTY, calls, i);
    SweepShows(before, calls, answers, i);
    JudgedByLive(Expire(before, calls[i].now), calls, answers, i);
  }

  /** The earlier grants a call's own reading says are within the window. */
  ghost function Within(calls: seq<Call>, answers: seq<Decision>, i: nat, window: int): set<nat>
    requires i < |calls| == |answers|
  {
    set j: nat | 0 <= j < i && GrantedAt(calls, answers, j) && calls[i].now < calls[j].now + window
  }

  /** By its own reading the call must be refused. */
  ghost predicate OverLimit(calls: seq<Call>, answers: seq<Decision>, i: nat)
    requires i < |calls| == |answers|
  {
    || (exists j :: j in Within(calls, answers, i, COOLDOWN) && calls[j].key == calls[i].key)
    || |Within(calls, answers, i, GLOBAL_WINDOW)| >= GLOBAL_LIMIT
  }

  /** The clock read a late instant and then an early one, and between the two
      lies the end of a window that began at start. */
  predicate WentBackOver(start: Time, late: Time, early: Time) {
    early < start + COOLDOWN <= late || early < start + GLOBAL_WINDOW <= late
  }

  lemma NoLongerLive(calls: seq<Call>, answers: seq<Decision>, j: nat, i: nat, window: int) returns (m: nat)
    requires j < i < |calls| == |answers| && window in {COOLDOWN, GLOBAL_WINDOW}
    requires j in Within(calls, answers, i, window) && !Live(calls, answers, j, i + 1, window)
    ensures j < m < i && WentBackOver(calls[j].now, calls[m].now, calls[i].now)
  {
    m :| j < m < i + 1 && calls[m].now >= calls[j].now + window;
  }

  /** Five within the hour, and not all of them live. */
  lemma SomeDied(calls: seq<Call>, answers: seq<Decision>, i: nat) returns (j: nat)
    requires i < |calls| == |answers|
    requires |Within(calls, answers, i, GLOBAL_WINDOW)| > |LiveCalls(calls, answers, i + 1, i)|
    ensures j < i && j in Within(calls, answers, i, GLOBAL_WINDOW) && !Live(calls, answers, j, i + 1, GLOBAL_WINDOW)
  {
    var within, live := Within(calls, answers, i, GLOBAL_WINDOW), LiveCalls(calls, answers, i + 1, i);
    if within <= live {
      SubsetSize(within, live);
    }
    j :| j in within && j !in live;
  }

  /** A limit broken means that the clock went back over the end of a window: some
      call between an earlier grant and this one read an instant beyond the
      grant's window, while this one reads an instant within it. */
  lemma {:induction false} BreachMeansClockWentBack(calls: seq<Call>, i: nat)
    requires i < |calls| && Answers(EMPTY, calls)[i].Allowed? && OverLimit(calls, Answers(EMPTY, calls), i)
    ensures exists j, m :: 0 <= j < m < i && WentBackOver(calls[j].now, calls[m].now, calls[i].now)
  {
    var answers := Answers(EMPTY, calls);
    AnyClock(calls, i);
    if j :| j in Within(calls, answers, i, COOLDOWN) && calls[j].key == calls[i].key {
      assert !Live(calls, answers, j, i + 1, COOLDOWN);
      var m := NoLongerLive(calls, answers, j, i, COOLDOWN);
    } else {
      var j := SomeDied(calls, answers, i);
      var m := NoLongerLive(calls, answers, j, i, GLOBAL_WINDOW);
    }
  }

  // ---------------------------------------------------------------------
  // A run that breaks the limit
  // ---------------------------------------------------------------------

  /** A normalised key of any length. */
  lemma NormalKey(n: nat) returns (key: string)
    requires n > 0
    ensures |key| == n && KeyOf(key) == key
  {
    key := seq(n, _ => 'a');
    Text.TrimmedIsFixed(key);
    assert Text.ToLower(key) == key;
  }

  ghost predicate AllNormal(calls: seq<Call>) {
    forall i :: 0 <= i < |calls| ==> KeyOf(calls[i].key) == calls[i].key
  }

  lemma {:induction false} LogAfterSnoc(log: seq<Reservation>, calls: seq<Call>, c: Call)
    ensures LogAfter(log, calls + [c]) == DecidedByLog(LogAfter(log, calls), c.key, c.now, c.reserve).0
    decreases |calls|
  {
    if calls == [] {
      assert [] + [c] == [c] && [c][1..] == [];
    } else {
      TailOfConcat(calls, [c]);
      LogAfterSnoc(DecidedByLog(log, calls[0].key, calls[0].now, calls[0].reserve).0, calls[1..], c);
    }
  }

  /** n different apps have reserved at instant 1. */
  ghost predicate AtOnce(log: seq<Reservation>, n: nat) {
    |log| == n && forall i :: 0 <= i < n ==> log[i].at == 1 && |log[i].key| <= n
  }

  ghost predicate Burst(calls: seq<Call>, n: nat) {
    && AllNormal(calls) && AtOnce(LogAfter([], calls), n)
    && forall i :: 0 <= i < |calls| ==> calls[i].now == 1
  }

  lemma OneMoreAtOnce(log: seq<Reservation>, n: nat, key: string)
    requires AtOnce(log, n) && n < GLOBAL_LIMIT && |key| == n + 1
    ensures AtOnce(DecidedByLog(log, key, 1, true).0, n + 1)
  {
    RefusalMeans(log, key, 1);
  }

  lemma {:induction false} BurstReached(n: nat) returns (calls: seq<Call>)
    requires n <= GLOBAL_LIMIT
    ensures Burst(calls, n)
  {
    calls := [];
    if n > 0 {
      var before := BurstReached(n - 1);
      var key := NormalKey(n);
      var c := Call(key, 1, true);
      LogAfterSnoc([], before, c);
      OneMoreAtOnce(LogAfter([], before), n - 1, key);
      calls := before + [c];
    }
  }

  lemma LimitStands(log: seq<Reservation>, n: nat, key: string)
    requires AtOnce(log, n) && n == GLOBAL_LIMIT && |key| == n + 1
    ensures FullAt(log, HOUR) && !FullAt(log, 1 + HOUR) && !CoolingAt(log, key, 1 + HOUR)
  {
  }

  /** The limiter, after a run of calls under normalised keys, grants a call with
      an earlier reading what the full log refuses. */
  ghost predicate ForgotTooMuch(calls: seq<Call>, key: string, now: Instant) {
    && ClockForward(calls, 0) && now < LastNow(calls, 0) && AllNormal(calls) && KeyOf(key) == key
    && Decided(After(EMPTY, calls), key, now, true).1.Allowed?
    && DecidedByLog(LogAfter([], calls), key, now, true).1.Refused?
  }

  lemma LookedAt(burst: seq<Call>, n: nat, look: Call, key: string)
    requires Burst(burst, n) && n == GLOBAL_LIMIT && look.now == 1 + HOUR && !look.reserve && KeyOf(look.key) == look.key
    requires |key| == n + 1 && KeyOf(key) == key
    ensures ForgotTooMuch(burst + [look], key, HOUR)
  {
    LogAfterSnoc([], burst, look);
    LimitStands(LogAfter([], burst), n, key);
    LateCall(burst + [look], key, HOUR);
  }

  /** Five apps reserve at once; an hour later somebody looks at the cooldown; then
      a sixth app's call arrives whose clock was read just before the hour was up. */
  lemma ClockMustNotGoBack()
    ensures exists calls, key, now :: ForgotTooMuch(calls, key, now)
  {
    var n: nat := GLOBAL_LIMIT;
    var burst := BurstReached(n);
    var seen := NormalKey(1);
    var sixth := NormalKey(n + 1);
    LookedAt(burst, n, Call(seen, 1 + HOUR, false), sixth);
  }

  lemma SweptTooEarly(log: seq<Reservation>, key: string)
    requires |log| == GLOBAL_LIMIT && forall i :: 0 <= i < |log| ==> log[i].at == 1 && log[i].key != key
    ensures Reflects(EMPTY, log, 1 + HOUR)
    ensures Decided(EMPTY, key, HOUR, true).1.Allowed? && DecidedByLog(log, key, HOUR, true).1.Refused?
  {
    RecentIsSuffix(log, 1 + HOUR, 1);
    forall k ensures LastAt(log, k) <= 1 {
      LastAtBounds(log, k);
    }
    RefusalMeans(log, key, HOUR);
  }
}
