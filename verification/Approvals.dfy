/** The replay guard for approval tokens: a map of used keys that is swept of
    expired ones, compared with the record of every acceptance. */
module Approvals {
  import opened Models
  import Text

  datatype Payload = Payload(
    planId: string,
    actorId: string,
    actionId: string,
    targetKind: string,
    targetId: string,
    nonce: string,
    expiresAt: int)

  const PLAN_ID := "current_recommendation"
  /** Seconds from year 1 to 1970. */
  const UNIX_EPOCH := 62_135_596_800

  function Expiry(p: Payload): Time {
    (UNIX_EPOCH + p.expiresAt) * SECOND
  }

  function KeyOf(p: Payload): string {
    p.actorId + "|" + p.planId + "|" + p.actionId + "|" + p.targetKind + "|" + p.targetId + "|" + Text.TrimSpace(p.nonce)
  }

  predicate HasNonce(p: Payload) {
    Text.TrimSpace(p.nonce) != ""
  }

  /** The checks after signature and decoding; knownAction is the registry. */
  predicate Verified(p: Payload, actorId: string, knownAction: string -> bool, now: Instant) {
    && p.planId == PLAN_ID
    && Text.TrimSpace(p.actionId) != ""
    && knownAction(p.actionId)
    && p.actorId == actorId
    && p.expiresAt > 0
    && now <= Expiry(p)
  }

  // ---------------------------------------------------------------------
  // The guard as the server runs it
  // ---------------------------------------------------------------------

  type Used = map<string, Time>

  function Sweep(used: Used, now: Time): Used {
    map k | k in used && used[k] > now :: used[k]
  }

  function Consumed(used: Used, key: string, expiry: Time, now: Time): (Used, bool) {
    var swept := Sweep(used, now);
    if key in swept then (swept, false) else (swept[key := expiry], true)
  }

  class ReplayGuard {
    var consumed: Used

    constructor ()
      ensures consumed == map[]
    {
      consumed := map[];
    }

    method Consume(p: Payload, now: Instant) returns (ok: bool)
      modifies this
      ensures Text.TrimSpace(p.nonce) == "" ==> !ok && consumed == old(consumed)
      ensures Text.TrimSpace(p.nonce) != "" ==> (consumed, ok) == Consumed(old(consumed), KeyOf(p), Expiry(p), now)
    {
      if !HasNonce(p) {
        return false;
      }
      ghost var before := consumed;
      var left := consumed.Keys;
      while left != {}
        invariant left <= before.Keys
        invariant consumed == map k | k in before && (k in left || before[k] > now) :: before[k]
        decreases left
      {
        var key :| key in left;
        if consumed[key] <= now {
          consumed := consumed - {key};
        }
        left := left - {key};
      }
      assert consumed == Sweep(before, now);
      var key := KeyOf(p);
      if key in consumed {
        return false;
      }
      consumed := consumed[key := Expiry(p)];
      ok := true;
    }
  }

  // ---------------------------------------------------------------------
  // A record that never forgets
  // ---------------------------------------------------------------------

  datatype Acceptance = Acceptance(key: string, expiry: Time)

  /** An earlier acceptance still guards the key. */
  ghost predicate Guarded(log: seq<Acceptance>, key: string, now: Time) {
    exists i :: 0 <= i < |log| && log[i].key == key && log[i].expiry > now
  }

  ghost predicate Reflects(used: Used, log: seq<Acceptance>, swept: Time) {
    forall k, t: Time :: t >= swept ==> (k in used && used[k] > t <==> Guarded(log, k, t))
  }

  lemma GuardedAppend(log: seq<Acceptance>, a: Acceptance, key: string, now: Time)
    ensures Guarded(log + [a], key, now) <==> Guarded(log, key, now) || (a.key == key && a.expiry > now)
  {
    var more := log + [a];
    assert more[|log|] == a;
    if Guarded(log, key, now) {
      var i :| 0 <= i < |log| && log[i].key == key && log[i].expiry > now;
      assert more[i] == log[i];
    }
  }

  /** One call on a clock that has not gone back: it is accepted exactly when no
      earlier acceptance of its key is still unexpired. */
  lemma ConsumeAgrees(used: Used, log: seq<Acceptance>, swept: Time, key: string, expiry: Time, now: Time)
    requires Reflects(used, log, swept) && swept <= now
    ensures Consumed(used, key, expiry, now).1 <==> !Guarded(log, key, now)
    ensures var more := if Consumed(used, key, expiry, now).1 then log + [Acceptance(key, expiry)] else log;
      Reflects(Consumed(used, key, expiry, now).0, more, now)
  {
    var (next, ok) := Consumed(used, key, expiry, now);
    var more := if ok then log + [Acceptance(key, expiry)] else log;
    forall k, t: Time | t >= now ensures k in next && next[k] > t <==> Guarded(more, k, t) {
      GuardedAppend(log, Acceptance(key, expiry), k, t);
      if k == key && Guarded(log, k, t) {
        var i :| 0 <= i < |log| && log[i].key == k && log[i].expiry > t;
        assert Guarded(log, k, now);
      }
    }
  }

  // ---------------------------------------------------------------------
  // Whole runs
  // ---------------------------------------------------------------------

  datatype Call = Call(key: string, expiry: Time, now: Time)

  ghost predicate ClockForward(calls: seq<Call>, since: Time) {
    && (forall i :: 0 <= i < |calls| ==> since <= calls[i].now)
    && (forall i, j :: 0 <= i < j < |calls| ==> calls[i].now <= calls[j].now)
  }

  function Answers(used: Used, calls: seq<Call>): (r: seq<bool>)
    ensures |r| == |calls|
    decreases |calls|
  {
    if calls == [] then []
    else
      var (next, ok) := Consumed(used, calls[0].key, calls[0].expiry, calls[0].now);
      [ok] + Answers(next, calls[1..])
  }

  /** An earlier accepted call of the same key has not expired by call j. */
  ghost predicate StillGuarded(calls: seq<Call>, answers: seq<bool>, j: nat)
    requires j < |calls| == |answers|
  {
    exists i :: 0 <= i < j && answers[i] && calls[i].key == calls[j].key && calls[i].expiry > calls[j].now
  }

  /** Looking from the second call on: the first one guards as an acceptance. */
  lemma GuardedFromFirst(calls: seq<Call>, all: seq<bool>, j: nat)
    requires 0 < j < |calls| == |all|
    ensures StillGuarded(calls, all, j) <==>
      || (all[0] && calls[0].key == calls[j].key && calls[0].expiry > calls[j].now)
      || StillGuarded(calls[1..], all[1..], j - 1)
  {
    if StillGuarded(calls[1..], all[1..], j - 1) {
      var i :| 0 <= i < j - 1 && all[1..][i] && calls[1..][i].key == calls[j].key && calls[1..][i].expiry > calls[j].now;
      assert all[i + 1] && calls[i + 1].key == calls[j].key;
    }
    if StillGuarded(calls, all, j) {
      var i :| 0 <= i < j && all[i] && calls[i].key == calls[j].key && calls[i].expiry > calls[j].now;
      assert i > 0 ==> all[1..][i - 1] && calls[1..][i - 1] == calls[i];
    }
  }

  lemma {:induction false} AnswersFrom(used: Used, log: seq<Acceptance>, swept: Time, calls: seq<Call>, j: nat)
    requires Reflects(used, log, swept) && ClockForward(calls, swept) && j < |calls|
    ensures Answers(used, calls)[j] <==>
      !Guarded(log, calls[j].key, calls[j].now) && !StillGuarded(calls, Answers(used, calls), j)
    decreases |calls|
  {
    var c := calls[0];
    ConsumeAgrees(used, log, swept, c.key, c.expiry, c.now);
    if j > 0 {
      var (next, ok) := Consumed(used, c.key, c.expiry, c.now);
      AnswersFrom(next, if ok then log + [Acceptance(c.key, c.expiry)] else log, c.now, calls[1..], j - 1);
      GuardedAppend(log, Acceptance(c.key, c.expiry), calls[j].key, calls[j].now);
      assert Answers(used, calls)[1..] == Answers(next, calls[1..]);
      GuardedFromFirst(calls, Answers(used, calls), j);
    }
  }

  /** Over any run on a clock that does not go back, a call is accepted exactly
      when no earlier accepted call of its key is still unexpired: the swept map
      answers as a record of all acceptances would. */
  lemma AcceptedIffUnguarded(calls: seq<Call>, j: nat)
    requires ClockForward(calls, 0) && j < |calls|
    ensures Answers(map[], calls)[j] <==> !StillGuarded(calls, Answers(map[], calls), j)
  {
    assert Reflects(map[], [], 0);
    AnswersFrom(map[], [], 0, calls, j);
  }

  /** A token consumed strictly before its expiry is accepted at most once. */
  lemma SingleUse(calls: seq<Call>, i: nat, j: nat)
    requires ClockForward(calls, 0) && i < j < |calls| && calls[i].key == calls[j].key
    requires calls[j].now < calls[i].expiry
    ensures !(Answers(map[], calls)[i] && Answers(map[], calls)[j])
  {
    AcceptedIffUnguarded(calls, j);
  }

  /** The bound is exact: presented twice and to nobody else in between, the same
      token is accepted again just when its expiry has been reached, an instant at
      which verification still lets it through. */
  lemma ReusedExactlyAfterExpiry(c: Call, again: Time)
    requires 0 <= c.now <= again
    ensures Answers(map[], [c, c.(now := again)]) == [true, c.expiry <= again]
  {
    var calls := [c, c.(now := again)];
    AcceptedIffUnguarded(calls, 0);
    AcceptedIffUnguarded(calls, 1);
    assert calls[0] == c;
  }

  lemma VerifiedAtExpiry(p: Payload, knownAction: string -> bool, now: Instant)
    requires Verified(p, p.actorId, knownAction, now)
    ensures Verified(p, p.actorId, knownAction, Expiry(p))
    ensures Answers(map[], [Call(KeyOf(p), Expiry(p), Expiry(p)), Call(KeyOf(p), Expiry(p), Expiry(p))]) == [true, true]
  {
    ReusedExactlyAfterExpiry(Call(KeyOf(p), Expiry(p), Expiry(p)), Expiry(p));
  }

  // ---------------------------------------------------------------------
  // On any clock
  // ---------------------------------------------------------------------

  /** Since call i, no call up to j has read an instant at or beyond its expiry. */
  ghost predicate Unreached(calls: seq<Call>, i: nat, j: nat)
    requires i <= j < |calls|
  {
    forall m :: i < m <= j ==> calls[m].now < calls[i].expiry
  }

  /** An accepted call of the same key is in the map when call j is answered. */
  ghost predicate GuardedByReadings(calls: seq<Call>, answers: seq<bool>, j: nat)
    requires j < |calls| == |answers|
  {
    exists i :: 0 <= i < j && answers[i] && calls[i].key == calls[j].key && Unreached(calls, i, j)
  }

  /** An entry of the map has outlived the readings up to j. */
  ghost predicate HeldOver(used: Used, calls: seq<Call>, j: nat)
    requires j < |calls|
  {
    calls[j].key in used && forall m :: 0 <= m <= j ==> calls[m].now < used[calls[j].key]
  }

  lemma UnreachedLater(calls: seq<Call>, i: nat, j: nat)
    requires 0 < i <= j < |calls|
    ensures Unreached(calls, i, j) <==> Unreached(calls[1..], i - 1, j - 1)
  {
    if Unreached(calls[1..], i - 1, j - 1) {
      forall m | i < m <= j ensures calls[m].now < calls[i].expiry {
        assert calls[1..][m - 1] == calls[m];
      }
    }
  }

  lemma ReadingsFromFirst(calls: seq<Call>, all: seq<bool>, j: nat)
    requires 0 < j < |calls| == |all|
    ensures GuardedByReadings(calls, all, j) <==>
      || (all[0] && calls[0].key == calls[j].key && Unreached(calls, 0, j))
      || GuardedByReadings(calls[1..], all[1..], j - 1)
  {
    if GuardedByReadings(calls[1..], all[1..], j - 1) {
      var i :| 0 <= i < j - 1 && all[1..][i] && calls[1..][i].key == calls[j].key && Unreached(calls[1..], i, j - 1);
      UnreachedLater(calls, i + 1, j);
      assert all[i + 1] && calls[i + 1].key == calls[j].key;
    }
    if GuardedByReadings(calls, all, j) {
      var i :| 0 <= i < j && all[i] && calls[i].key == calls[j].key && Unreached(calls, i, j);
      if i > 0 {
        UnreachedLater(calls, i, j);
        assert all[1..][i - 1] && calls[1..][i - 1] == calls[i];
      }
    }
  }

  /** What one call makes of the entries that outlive the readings up to j. */
  lemma HeldAfterFirst(used: Used, calls: seq<Call>, j: nat)
    requires 0 < j < |calls|
    ensures var (next, ok) := Consumed(used, calls[0].key, calls[0].expiry, calls[0].now);
      HeldOver(next, calls[1..], j - 1) <==>
        if ok && calls[0].key == calls[j].key then Unreached(calls, 0, j) else HeldOver(used, calls, j)
    ensures Consumed(used, calls[0].key, calls[0].expiry, calls[0].now).1 && calls[0].key == calls[j].key ==> !HeldOver(used, calls, j)
  {
    var (next, ok) := Consumed(used, calls[0].key, calls[0].expiry, calls[0].now);
    var rest := calls[1..];
    assert rest[j - 1] == calls[j];
    if HeldOver(next, rest, j - 1) {
      forall m | 0 < m <= j ensures calls[m].now < next[calls[j].key] {
        assert rest[m - 1] == calls[m];
      }
    }
  }

  lemma {:induction false} AnswersByReadings(used: Used, calls: seq<Call>, j: nat)
    requires j < |calls|
    ensures Answers(used, calls)[j] <==> !HeldOver(used, calls, j) && !GuardedByReadings(calls, Answers(used, calls), j)
    decreases |calls|
  {
    if j > 0 {
      var c := calls[0];
      var (next, ok) := Consumed(used, c.key, c.expiry, c.now);
      AnswersByReadings(next, calls[1..], j - 1);
      HeldAfterFirst(used, calls, j);
      assert Answers(used, calls)[1..] == Answers(next, calls[1..]);
      ReadingsFromFirst(calls, Answers(used, calls), j);
    }
  }

  /** Over any run, whatever the clock does: a call is accepted exactly when every
      earlier accepted call of its key has expired by some reading since, its own or
      another call's. */
  lemma {:induction false} AnyClock(calls: seq<Call>, j: nat)
    requires j < |calls|
    ensures Answers(map[], calls)[j] <==>
      forall i :: 0 <= i < j && Answers(map[], calls)[i] && calls[i].key == calls[j].key ==>
        exists m :: i < m <= j && calls[i].expiry <= calls[m].now
  {
    AnswersByReadings(map[], calls, j);
    var answers := Answers(map[], calls);
    if forall i :: 0 <= i < j && answers[i] && calls[i].key == calls[j].key ==> exists m :: i < m <= j && calls[i].expiry <= calls[m].now {
      assert !GuardedByReadings(calls, answers, j);
    }
    forall i | 0 <= i < j && answers[i] && calls[i].key == calls[j].key && answers[j]
      ensures exists m :: i < m <= j && calls[i].expiry <= calls[m].now
    {
      assert !Unreached(calls, i, j);
    }
  }

  /** Some call after i, up to j, has read the expiry or a later instant. */
  ghost predicate ExpiryRead(calls: seq<Call>, expiry: Time, i: nat, j: nat)
    requires j < |calls|
  {
    exists m :: i < m <= j && expiry <= calls[m].now
  }

  /** The next presentation after an accepted one. */
  lemma AcceptedAgain(calls: seq<Call>, i: nat, j: nat)
    requires i < j < |calls| && calls[i].key == calls[j].key && Answers(map[], calls)[i]
    requires forall m :: i < m < j && calls[m].key == calls[j].key ==> !Answers(map[], calls)[m]
    ensures Answers(map[], calls)[j] <==> ExpiryRead(calls, calls[i].expiry, i, j)
  {
    var answers := Answers(map[], calls);
    AnyClock(calls, i);
    AnyClock(calls, j);
    if ExpiryRead(calls, calls[i].expiry, i, j) {
      forall n | 0 <= n < j && answers[n] && calls[n].key == calls[j].key ensures exists m :: n < m <= j && calls[n].expiry <= calls[m].now {
        if n < i {
          var m :| n < m <= i && calls[n].expiry <= calls[m].now;
        }
      }
    }
  }

  /** A token already used serves a second handler, which verifies it at v and, its
      review done, consumes it in call j, exactly when v is no later than the expiry
      and the guard has since read an instant no earlier: in that call, whose own
      review may outlast the token, or in any other before it. */
  lemma StraddlingReview(p: Payload, knownAction: string -> bool, first: Instant, v: Instant, calls: seq<Call>, i: nat, j: nat)
    requires Verified(p, p.actorId, knownAction, first)
    requires i < j < |calls| && calls[i].key == calls[j].key == KeyOf(p) && calls[i].expiry == Expiry(p)
    requires Answers(map[], calls)[i] && forall m :: i < m < j && calls[m].key == KeyOf(p) ==> !Answers(map[], calls)[m]
    ensures Verified(p, p.actorId, knownAction, v) && Answers(map[], calls)[j] <==> v <= Expiry(p) && ExpiryRead(calls, Expiry(p), i, j)
  {
    AcceptedAgain(calls, i, j);
  }

  /** The readings need not be in order: with one call of another token in between
      that has read the expiry, a token is accepted again by a call that itself reads
      an earlier instant. */
  lemma ReusedBeforeExpiry(p: Payload, q: Payload, first: Instant, again: Instant)
    requires KeyOf(p) != KeyOf(q) && first <= again < Expiry(p)
    ensures Answers(map[], [Call(KeyOf(p), Expiry(p), first), Call(KeyOf(q), Expiry(q), Expiry(p)), Call(KeyOf(p), Expiry(p), again)])
      == [true, true, true]
  {
    var calls := [Call(KeyOf(p), Expiry(p), first), Call(KeyOf(q), Expiry(q), Expiry(p)), Call(KeyOf(p), Expiry(p), again)];
    assert calls[0].key == KeyOf(p) && calls[1].key == KeyOf(q) && calls[1].now == Expiry(p);
    AnyClock(calls, 0);
    AnyClock(calls, 1);
    AnyClock(calls, 2);
  }

  // ---------------------------------------------------------------------
  // What a token is good for
  // ---------------------------------------------------------------------

  /** A token is refused for another plan, a blank or unregistered action, another user, an
      expiry that is not after 1970, or once that is past; and for nothing else. */
  lemma RefusedExactly(p: Payload, actorId: string, knownAction: string -> bool, now: Instant)
    ensures !Verified(p, actorId, knownAction, now) <==>
      || p.planId != "current_recommendation" || Text.TrimSpace(p.actionId) == "" || !knownAction(p.actionId)
      || p.actorId != actorId || p.expiresAt < 1 || Expiry(p) < now
  {
  }

  /** Expiries are whole seconds, and zero is the start of 1970. */
  lemma ExpiriesAreSeconds(p: Payload, q: Payload)
    ensures Expiry(p) - Expiry(q) == (p.expiresAt - q.expiresAt) * 1_000_000_000
    ensures p.expiresAt == 0 ==> Expiry(p) == 62_135_596_800 * 1_000_000_000
  {
  }

  lemma {:induction false} TailsAgree(head: string, a: string, b: string)
    requires head + a == head + b
    ensures a == b
  {
    assert a == (head + a)[|head|..] && b == (head + b)[|head|..];
  }

  /** Two tokens for the same user, plan, action and target are one token to the guard
      exactly when their nonces are the same but for blanks around them. */
  lemma NonceTellsTokens(p: Payload, q: Payload)
    requires q == p.(nonce := q.nonce, expiresAt := q.expiresAt)
    ensures KeyOf(p) == KeyOf(q) <==> Text.TrimSpace(p.nonce) == Text.TrimSpace(q.nonce)
  {
    var head := p.actorId + "|" + p.planId + "|" + p.actionId + "|" + p.targetKind + "|" + p.targetId + "|";
    if KeyOf(p) == KeyOf(q) {
      TailsAgree(head, Text.TrimSpace(p.nonce), Text.TrimSpace(q.nonce));
    }
  }

  /** And tokens of different users, all else being equal, are different to it. */
  lemma ActorTellsTokens(p: Payload, q: Payload)
    requires q == p.(actorId := q.actorId) && |p.actorId| == |q.actorId|
    ensures KeyOf(p) == KeyOf(q) <==> p.actorId == q.actorId
  {
    var rest := "|" + p.planId + "|" + p.actionId + "|" + p.targetKind + "|" + p.targetId + "|" + Text.TrimSpace(p.nonce);
    assert KeyOf(p) == p.actorId + rest && KeyOf(q) == q.actorId + rest;
    assert (p.actorId + rest)[..|p.actorId|] == p.actorId && (q.actorId + rest)[..|q.actorId|] == q.actorId;
  }
}
