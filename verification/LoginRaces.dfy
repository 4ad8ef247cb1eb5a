/** Logins that overlap: each handler checks the throttle, then verifies the password,
    and only then, in a second call, records the outcome; other handlers may do either
    in between. */
module LoginRaces {
  import opened Models
  import opened Eviction
  import opened Collections
  import opened LoginThrottle

  /** The limiter calls of the handlers, each for its key. */
  datatype Event =
    | Check(key: string, now: Instant)
    | Fail(key: string, now: Instant)
    | Succeed(key: string)

  /** One call; cut is the table a failure leaves after pruning and eviction, before its
      own entry is written. */
  datatype Turn = Turn(event: Event, cut: Table, after: Table)

  /** The logins past their check, by key. */
  type Flying = multiset<string>

  /** What the limiter's methods promise; only a login past its check records. */
  ghost predicate TurnOk(t: Table, flying: Flying, turn: Turn) {
    match turn.event
    case Check(_, now) => turn.after == Pruned(t, now)
    case Fail(key, now) =>
      && key in flying
      && IsCut(Pruned(t, now), turn.cut, MAX_KEYS - 1, Stamp)
      && turn.after == turn.cut[key := Failed(Lookup(turn.cut, key), now)]
    case Succeed(key) => key in flying && turn.after == t - {key}
  }

  function FlyingAfter(t: Table, flying: Flying, e: Event): Flying {
    match e
    case Check(key, now) => if Blocked(t, key, now) then flying else flying + multiset{key}
    case Fail(key, _) => flying - multiset{key}
    case Succeed(key) => flying - multiset{key}
  }

  function TimeOf(e: Event, since: Time): Time {
    if e.Succeed? then since else e.now
  }

  ghost predicate IsRaceRun(t: Table, flying: Flying, run: seq<Turn>, since: Time)
    decreases |run|
  {
    run == [] ||
    (var e := run[0].event;
     && since <= TimeOf(e, since) && TurnOk(t, flying, run[0])
     && IsRaceRun(run[0].after, FlyingAfter(t, flying, e), run[1..], TimeOf(e, since)))
  }

  /** The key does not log in, keeps its entry, and never has more than n logins past
      their check. */
  ghost predicate Pressed(t: Table, flying: Flying, run: seq<Turn>, key: string, n: nat)
    decreases |run|
  {
    flying[key] <= n &&
    (run == [] ||
     (KeepsKey(t, run[0], key) && Pressed(run[0].after, FlyingAfter(t, flying, run[0].event), run[1..], key, n)))
  }

  ghost predicate KeepsKey(t: Table, turn: Turn, key: string) {
    match turn.event
    case Check(_, _) => true
    case Fail(_, now) => key in Pruned(t, now) ==> key in turn.cut
    case Succeed(k) => k != key
  }

  function FailureTimes(run: seq<Turn>, key: string): seq<Time>
    decreases |run|
  {
    if run == [] then [] else FailureOf(run[0].event, key) + FailureTimes(run[1..], key)
  }

  function FailureOf(e: Event, key: string): seq<Time> {
    if e.Fail? && e.key == key then [e.now as Time] else []
  }

  lemma FailTells(t: Table, turn: Turn, key: string, n: nat, flying: nat, r: Record, since: Time) returns (more: Record)
    requires turn.event.Fail? && since <= turn.event.now && KeepsKey(t, turn, key) && n >= 1
    requires IsCut(Pruned(t, turn.event.now), turn.cut, MAX_KEYS - 1, Stamp)
    requires turn.after == turn.cut[turn.event.key := Failed(Lookup(turn.cut, turn.event.key), turn.event.now)]
    requires Tells(Lookup(t, key), r, since, n, flying) && (turn.event.key == key ==> flying >= 1)
    ensures Tells(Lookup(turn.after, key), more, turn.event.now, n, if turn.event.key == key then flying - 1 else flying)
    ensures more.times == r.times + FailureOf(turn.event, key)
  {
    var now := turn.event.now;
    var pruned := Fresh(Lookup(t, key), now);
    assert Lookup(Pruned(t, now), key) == pruned;
    assert Lookup(turn.cut, key) == pruned;
    FreshTells(Lookup(t, key), r, since, now, n, flying);
    more := r;
    if turn.event.key == key {
      FailureTells(pruned, r, now, n, flying);
      more := Extended(pruned, r, now);
    }
  }

  lemma CheckedTells(t: Table, key: string, checked: string, now: Instant, n: nat, flying: nat, r: Record, since: Time)
    requires since <= now && Tells(Lookup(t, key), r, since, n, flying)
    requires checked == key && !Blocked(t, key, now) ==> flying < n
    ensures Tells(Lookup(Pruned(t, now), key), r, now, n, if checked == key && !Blocked(t, key, now) then flying + 1 else flying)
  {
    assert Lookup(Pruned(t, now), key) == Fresh(Lookup(t, key), now);
    FreshTells(Lookup(t, key), r, since, now, n, flying);
    if checked == key && !Blocked(t, key, now) {
      CheckTells(Fresh(Lookup(t, key), now), r, now, n, flying);
    }
  }

  lemma FlyingOf(t: Table, flying: Flying, e: Event, key: string)
    requires !e.Check? ==> e.key in flying
    ensures FlyingAfter(t, flying, e)[key] ==
      if e.key != key then flying[key]
      else if !e.Check? then flying[key] - 1
      else if Blocked(t, key, e.now) then flying[key] else flying[key] + 1
  {
  }

  lemma TurnTells(t: Table, flying: Flying, turn: Turn, key: string, n: nat, r: Record, since: Time) returns (more: Record)
    requires TurnOk(t, flying, turn) && KeepsKey(t, turn, key) && since <= TimeOf(turn.event, since)
    requires Tells(Lookup(t, key), r, since, n, flying[key]) && n >= 1 && FlyingAfter(t, flying, turn.event)[key] <= n
    ensures Tells(Lookup(turn.after, key), more, TimeOf(turn.event, since), n, FlyingAfter(t, flying, turn.event)[key])
    ensures more.times == r.times + FailureOf(turn.event, key)
  {
    FlyingOf(t, flying, turn.event, key);
    match turn.event
    case Check(checked, now) =>
      CheckedTells(t, key, checked, now, n, flying[key], r, since);
      more := r;
    case Fail(_, _) =>
      more := FailTells(t, turn, key, n, flying[key], r, since);
    case Succeed(_) =>
      assert Lookup(turn.after, key) == Lookup(t, key);
      more := r;
  }

  lemma {:induction false} RaceTells(t: Table, flying: Flying, run: seq<Turn>, key: string, n: nat, r: Record, since: Time) returns (more: Record)
    requires IsRaceRun(t, flying, run, since) && Pressed(t, flying, run, key, n) && n >= 1
    requires Tells(Lookup(t, key), r, since, n, flying[key])
    ensures WellFormed(more, n) && more.times == r.times + FailureTimes(run, key)
    decreases |run|
  {
    if run == [] {
      more := r;
      assert r.times + [] == r.times;
    } else {
      var e := run[0].event;
      var next := TurnTells(t, flying, run[0], key, n, r, since);
      more := RaceTells(run[0].after, FlyingAfter(t, flying, e), run[1..], key, n, next, TimeOf(e, since));
      Associative(r.times, FailureOf(e, key), FailureTimes(run[1..], key));
    }
  }

  /** However the handlers overlap, on a clock that does not go back: a key that neither
      logs in nor is evicted, and never has more than n logins past their check, has at
      most 2n + 6 failures in five minutes. */
  lemma {:induction false} FailuresPerWindow(run: seq<Turn>, key: string, n: nat, i: nat)
    requires IsRaceRun(map[], multiset{}, run, 0) && Pressed(map[], multiset{}, run, key, n) && n >= 1
    requires i + 2 * n + 6 < |FailureTimes(run, key)|
    ensures FailureTimes(run, key)[i + 2 * n + 6] - FailureTimes(run, key)[i] > WINDOW
  {
    var r := RaceTells(map[], multiset{}, run, key, n, Record([], []), 0);
    assert r.times == FailureTimes(run, key);
    FailuresSpanWindow(r, n, i);
  }

  // ---------------------------------------------------------------------
  // The bound is reached
  // ---------------------------------------------------------------------

  /** Calls for one key in an otherwise empty table. */
  datatype Move = Enter(now: Instant) | Miss(now: Instant)

  function EventOf(m: Move): Event {
    match m
    case Enter(now) => Check(VICTIM, now)
    case Miss(now) => Fail(VICTIM, now)
  }

  function EntryAfter(e: Option<Attempt>, m: Move): Option<Attempt> {
    if m.Enter? then Fresh(e, m.now) else Some(Failed(Fresh(e, m.now), m.now))
  }

  function CountAfter(c: nat, m: Move): nat {
    if m.Enter? then c + 1 else if c > 0 then c - 1 else 0
  }

  function Many(c: nat): (r: Flying)
    ensures r[VICTIM] == c
  {
    if c == 0 then multiset{} else Many(c - 1) + multiset{VICTIM}
  }

  function Turns(e: Option<Attempt>, moves: seq<Move>): seq<Turn>
    decreases |moves|
  {
    if moves == [] then []
    else
      [Turn(EventOf(moves[0]), Solo(VICTIM, Fresh(e, moves[0].now)), Solo(VICTIM, EntryAfter(e, moves[0])))]
      + Turns(EntryAfter(e, moves[0]), moves[1..])
  }

  /** Nobody enters while the key is locked or n have entered, and only who has entered
      misses. */
  predicate MayMove(e: Option<Attempt>, c: nat, m: Move, n: nat) {
    if m.Enter? then !(e.Some? && Locked(e.value, m.now)) && c < n else c > 0
  }

  predicate Playable(e: Option<Attempt>, c: nat, moves: seq<Move>, n: nat, since: Time)
    decreases |moves|
  {
    c <= n &&
    (moves == [] ||
     (since <= moves[0].now && MayMove(e, c, moves[0], n)
      && Playable(EntryAfter(e, moves[0]), CountAfter(c, moves[0]), moves[1..], n, moves[0].now)))
  }

  function MissTimes(moves: seq<Move>): seq<Time>
    decreases |moves|
  {
    if moves == [] then [] else MissTime(moves[0]) + MissTimes(moves[1..])
  }

  function MissTime(m: Move): seq<Time> {
    if m.Miss? then [m.now as Time] else []
  }

  lemma MoveIsTurn(e: Option<Attempt>, c: nat, m: Move, n: nat)
    requires MayMove(e, c, m, n)
    ensures var turn := Turn(EventOf(m), Solo(VICTIM, Fresh(e, m.now)), Solo(VICTIM, EntryAfter(e, m)));
      && TurnOk(Solo(VICTIM, e), Many(c), turn) && KeepsKey(Solo(VICTIM, e), turn, VICTIM)
      && FlyingAfter(Solo(VICTIM, e), Many(c), turn.event) == Many(CountAfter(c, m))
  {
    var kept := Fresh(e, m.now);
    assert Pruned(Solo(VICTIM, e), m.now) == Solo(VICTIM, kept);
    assert |Solo(VICTIM, kept)| <= 1;
    if m.Miss? {
      assert Many(c) == Many(c - 1) + multiset{VICTIM};
      assert Solo(VICTIM, EntryAfter(e, m)) == Solo(VICTIM, kept)[VICTIM := Failed(kept, m.now)];
    }
  }

  lemma {:induction false} PlayableRuns(e: Option<Attempt>, c: nat, moves: seq<Move>, n: nat, since: Time)
    requires Playable(e, c, moves, n, since)
    ensures IsRaceRun(Solo(VICTIM, e), Many(c), Turns(e, moves), since)
    ensures Pressed(Solo(VICTIM, e), Many(c), Turns(e, moves), VICTIM, n)
    ensures FailureTimes(Turns(e, moves), VICTIM) == MissTimes(moves)
    decreases |moves|
  {
    if moves != [] {
      var m := moves[0];
      MoveIsTurn(e, c, m, n);
      PlayableRuns(EntryAfter(e, m), CountAfter(c, m), moves[1..], n, m.now);
      assert Turns(e, moves)[1..] == Turns(EntryAfter(e, m), moves[1..]);
      assert FailureOf(EventOf(m), VICTIM) == MissTime(m);
    }
  }

  /** One move in front. */
  lemma FirstMove(e: Option<Attempt>, c: nat, m: Move, rest: seq<Move>, n: nat, since: Time)
    requires since <= m.now && c <= n && MayMove(e, c, m, n) && Playable(EntryAfter(e, m), CountAfter(c, m), rest, n, m.now)
    ensures Playable(e, c, [m] + rest, n, since)
  {
    assert ([m] + rest)[1..] == rest;
  }

  function Enters(k: nat, now: Instant): seq<Move> {
    if k == 0 then [] else [Enter(now)] + Enters(k - 1, now)
  }

  function Misses(k: nat, now: Instant): seq<Move> {
    if k == 0 then [] else [Miss(now)] + Misses(k - 1, now)
  }

  /** Logins that fail one after the other. */
  function Pairs(k: nat, now: Instant): seq<Move> {
    if k == 0 then [] else [Enter(now)] + ([Miss(now)] + Pairs(k - 1, now))
  }

  /** The entry within its window. */
  predicate Within(a: Attempt, now: Time) {
    a.first > 0 && 0 <= now - a.first <= WINDOW
  }

  lemma {:induction false} EntersPlay(a: Attempt, c: nat, k: nat, now: Instant, rest: seq<Move>, n: nat)
    requires Within(a, now) && a.lockedUntil == 0 && c + k <= n
    requires Playable(Some(a), c + k, rest, n, now)
    ensures Playable(Some(a), c, Enters(k, now) + rest, n, now)
    decreases k
  {
    if k == 0 {
      assert [] + rest == rest;
    } else {
      EntersPlay(a, c + 1, k - 1, now, rest, n);
      FirstMove(Some(a), c, Enter(now), Enters(k - 1, now) + rest, n, now);
      Associative([Enter(now)], Enters(k - 1, now), rest);
    }
  }

  /** k more failures in the window. */
  function Later(a: Attempt, k: nat, now: Instant): Attempt
    decreases k
  {
    if k == 0 then a else Later(Failed(Some(a), now), k - 1, now)
  }

  lemma {:induction false} LaterMeans(a: Attempt, k: nat, now: Instant)
    requires Within(a, now) && (a.failures >= MAX_FAILURES ==> a.lockedUntil == now + LOCKOUT)
    ensures Later(a, k, now) == Attempt(a.failures + k, a.first, if a.failures + k >= MAX_FAILURES then now + LOCKOUT else a.lockedUntil)
    decreases k
  {
    if k > 0 {
      LaterMeans(Failed(Some(a), now), k - 1, now);
    }
  }

  lemma {:induction false} MissesPlay(a: Attempt, c: nat, k: nat, now: Instant, rest: seq<Move>, n: nat)
    requires Within(a, now) && k <= c <= n
    requires Playable(Some(Later(a, k, now)), c - k, rest, n, now)
    ensures Playable(Some(a), c, Misses(k, now) + rest, n, now)
    decreases k
  {
    if k == 0 {
      assert [] + rest == rest;
    } else {
      var next := Failed(Some(a), now);
      assert Fresh(Some(a), now) == Some(a);
      MissesPlay(next, c - 1, k - 1, now, rest, n);
      FirstMove(Some(a), c, Miss(now), Misses(k - 1, now) + rest, n, now);
      Associative([Miss(now)], Misses(k - 1, now), rest);
    }
  }

  lemma PairsFirst(k: nat, now: Instant, rest: seq<Move>)
    requires k > 0
    ensures Pairs(k, now) + rest == [Enter(now)] + ([Miss(now)] + (Pairs(k - 1, now) + rest))
  {
    Associative([Miss(now)], Pairs(k - 1, now), rest);
    Associative([Enter(now)], [Miss(now)] + Pairs(k - 1, now), rest);
  }

  lemma {:induction false} PairsPlay(a: Attempt, c: nat, k: nat, now: Instant, rest: seq<Move>, n: nat)
    requires Within(a, now) && a.lockedUntil == 0 && a.failures + k < MAX_FAILURES && c < n
    requires Playable(Some(Later(a, k, now)), c, rest, n, now)
    ensures Playable(Some(a), c, Pairs(k, now) + rest, n, now)
    decreases k
  {
    if k == 0 {
      assert [] + rest == rest;
    } else {
      var next := Failed(Some(a), now);
      assert Fresh(Some(a), now) == Some(a);
      PairsPlay(next, c, k - 1, now, rest, n);
      var tail := Pairs(k - 1, now) + rest;
      FirstMove(Some(a), c + 1, Miss(now), tail, n, now);
      FirstMove(Some(a), c, Enter(now), [Miss(now)] + tail, n, now);
      PairsFirst(k, now, rest);
    }
  }

  const END: Instant := 1 + WINDOW
  const NEXT: Instant := 2 + WINDOW

  /** Three more failures, n more logins past their check, and all but one of them fail. */
  function FirstWindow(n: nat): seq<Move>
    requires n >= 1
  {
    Pairs(3, END) + (Enters(n, END) + Misses(n - 1, END))
  }

  /** The last one fails when the window has passed, and so opens a new one, in which
      three, and then n, more fail. */
  function SecondWindow(n: nat): seq<Move> {
    [Miss(NEXT)] + (Pairs(3, NEXT) + (Enters(n, NEXT) + Misses(n, NEXT)))
  }

  function Moves(n: nat): seq<Move>
    requires n >= 1
  {
    [Enter(1)] + ([Miss(1)] + (FirstWindow(n) + SecondWindow(n)))
  }

  lemma {:induction false} StartsEarlier(e: Option<Attempt>, c: nat, moves: seq<Move>, n: nat, since: Time, later: Time)
    requires Playable(e, c, moves, n, later) && since <= later
    ensures Playable(e, c, moves, n, since)
  {
  }

  lemma SecondPlays(a: Attempt, n: nat)
    requires n >= 1 && a.first == 1 && a.lockedUntil == (if a.failures >= MAX_FAILURES then END + LOCKOUT else 0)
    ensures Playable(Some(a), 1, SecondWindow(n), n, END)
  {
    var b := Attempt(1, NEXT, 0);
    LaterMeans(Attempt(4, NEXT, 0), n, NEXT);
    LaterMeans(b, 3, NEXT);
    MissesPlay(Attempt(4, NEXT, 0), n, n, NEXT, [], n);
    assert Misses(n, NEXT) + [] == Misses(n, NEXT);
    EntersPlay(Attempt(4, NEXT, 0), 0, n, NEXT, Misses(n, NEXT), n);
    PairsPlay(b, 0, 3, NEXT, Enters(n, NEXT) + Misses(n, NEXT), n);
    FirstMove(Some(a), 1, Miss(NEXT), Pairs(3, NEXT) + (Enters(n, NEXT) + Misses(n, NEXT)), n, END);
  }

  lemma FirstPlays(n: nat)
    requires n >= 1
    ensures Playable(Some(Attempt(1, 1, 0)), 0, FirstWindow(n) + SecondWindow(n), n, END)
  {
    var a, four := Attempt(1, 1, 0), Attempt(4, 1, 0);
    LaterMeans(four, n - 1, END);
    LaterMeans(a, 3, END);
    SecondPlays(Later(four, n - 1, END), n);
    MissesPlay(four, n, n - 1, END, SecondWindow(n), n);
    EntersPlay(four, 0, n, END, Misses(n - 1, END) + SecondWindow(n), n);
    PairsPlay(a, 0, 3, END, Enters(n, END) + (Misses(n - 1, END) + SecondWindow(n)), n);
    Associative(Enters(n, END), Misses(n - 1, END), SecondWindow(n));
    Associative(Pairs(3, END), Enters(n, END) + Misses(n - 1, END), SecondWindow(n));
  }

  lemma AllPlay(n: nat)
    requires n >= 1
    ensures Playable(None, 0, Moves(n), n, 0)
  {
    var rest := FirstWindow(n) + SecondWindow(n);
    FirstPlays(n);
    StartsEarlier(Some(Attempt(1, 1, 0)), 0, rest, n, 1, END);
    FirstMove(None, 1, Miss(1), rest, n, 1);
    FirstMove(None, 0, Enter(1), [Miss(1)] + rest, n, 0);
  }

  lemma {:induction false} MissTimesJoin(a: seq<Move>, b: seq<Move>)
    ensures MissTimes(a + b) == MissTimes(a) + MissTimes(b)
    decreases |a|
  {
    if a == [] {
      assert a + b == b;
      assert [] + MissTimes(b) == MissTimes(b);
    } else {
      TailOfConcat(a, b);
      MissTimesJoin(a[1..], b);
      Associative(MissTime(a[0]), MissTimes(a[1..]), MissTimes(b));
    }
  }

  /** n instants, all at now. */
  ghost predicate AllAt(s: seq<Time>, n: nat, now: Time) {
    |s| == n && forall i :: 0 <= i < n ==> s[i] == now
  }

  lemma AllAtJoin(a: seq<Time>, b: seq<Time>, n: nat, m: nat, now: Time)
    requires AllAt(a, n, now) && AllAt(b, m, now)
    ensures AllAt(a + b, n + m, now)
  {
  }

  lemma {:induction false} EnterTimes(k: nat, now: Instant)
    ensures MissTimes(Enters(k, now)) == []
    decreases k
  {
    if k > 0 {
      EnterTimes(k - 1, now);
      MissTimesJoin([Enter(now)], Enters(k - 1, now));
    }
  }

  lemma OneTime(now: Instant)
    ensures AllAt(MissTimes([Miss(now)]), 1, now) && MissTimes([Enter(now)]) == []
  {
    assert [Miss(now)][1..] == [] && [Enter(now)][1..] == [];
  }

  lemma {:induction false} BlockTimes(k: nat, now: Instant)
    ensures AllAt(MissTimes(Misses(k, now)), k, now) && AllAt(MissTimes(Pairs(k, now)), k, now)
    decreases k
  {
    if k > 0 {
      BlockTimes(k - 1, now);
      OneTime(now);
      MissTimesJoin([Miss(now)], Misses(k - 1, now));
      AllAtJoin(MissTimes([Miss(now)]), MissTimes(Misses(k - 1, now)), 1, k - 1, now);
      MissTimesJoin([Miss(now)], Pairs(k - 1, now));
      AllAtJoin(MissTimes([Miss(now)]), MissTimes(Pairs(k - 1, now)), 1, k - 1, now);
      MissTimesJoin([Enter(now)], [Miss(now)] + Pairs(k - 1, now));
      assert [] + MissTimes([Miss(now)] + Pairs(k - 1, now)) == MissTimes([Miss(now)] + Pairs(k - 1, now));
    }
  }

  /** Three after another, then n that enter before k of them fail. */
  lemma WindowTimes(n: nat, k: nat, now: Instant)
    ensures AllAt(MissTimes(Pairs(3, now) + (Enters(n, now) + Misses(k, now))), 3 + k, now)
  {
    BlockTimes(3, now);
    BlockTimes(k, now);
    EnterTimes(n, now);
    MissTimesJoin(Enters(n, now), Misses(k, now));
    assert [] + MissTimes(Misses(k, now)) == MissTimes(Misses(k, now));
    MissTimesJoin(Pairs(3, now), Enters(n, now) + Misses(k, now));
    AllAtJoin(MissTimes(Pairs(3, now)), MissTimes(Misses(k, now)), 3, k, now);
  }

  lemma FirstTimes(n: nat)
    requires n >= 1
    ensures AllAt(MissTimes(FirstWindow(n)), n + 2, END)
  {
    WindowTimes(n, n - 1, END);
  }

  lemma SecondTimes(n: nat)
    ensures AllAt(MissTimes(SecondWindow(n)), n + 4, NEXT)
  {
    var rest := Pairs(3, NEXT) + (Enters(n, NEXT) + Misses(n, NEXT));
    WindowTimes(n, n, NEXT);
    OneTime(NEXT);
    MissTimesJoin([Miss(NEXT)], rest);
    AllAtJoin(MissTimes([Miss(NEXT)]), MissTimes(rest), 1, 3 + n, NEXT);
  }

  lemma AllTimes(n: nat)
    requires n >= 1
    ensures var times := MissTimes(Moves(n)); |times| == 2 * n + 7 && times[1] == END && times[2 * n + 6] == NEXT
  {
    FirstTimes(n);
    SecondTimes(n);
    MissTimesJoin(FirstWindow(n), SecondWindow(n));
    MissTimesJoin([Miss(1)], FirstWindow(n) + SecondWindow(n));
    MissTimesJoin([Enter(1)], [Miss(1)] + (FirstWindow(n) + SecondWindow(n)));
  }

  /** The bound is the best for every n: a login that was past its check when the key was
      locked, and fails when the window has passed, takes the lock away. So 2n + 6
      failures can fall a nanosecond apart. */
  lemma BoundReached(n: nat)
    requires n >= 1
    ensures exists run, key ::
      && IsRaceRun(map[], multiset{}, run, 0) && Pressed(map[], multiset{}, run, key, n)
      && |FailureTimes(run, key)| == 2 * n + 7
      && FailureTimes(run, key)[2 * n + 6] - FailureTimes(run, key)[1] == 1
  {
    AllPlay(n);
    AllTimes(n);
    PlayableRuns(None, 0, Moves(n), n, 0);
    var run := Turns(None, Moves(n));
    assert IsRaceRun(map[], multiset{}, run, 0) && Pressed(map[], multiset{}, run, VICTIM, n);
  }
}
