/** The repair handlers on any limiter clock: each of them reads its clock before the
    limiter takes its lock, so the limiter may see its calls' instants out of order. */
module RepairClocks {
  import opened Collections
  import opened RepairControl
  import R = RepairRuns
  import L = RepairLimiter

  /** The limiter call an event makes, if any. */
  function CallOf(s: System, e: Event): seq<L.Call> {
    match e
    case Reserve(id, now) => if id < |s.handlers| && s.handlers[id].stage.Cleared? then [L.Call(s.handlers[id].key, now, true)] else []
    case ShowCooldown(key, now) => [L.Call(key, now, false)]
    case _ => []
  }

  function CallsOf(s: System, events: seq<Event>): seq<L.Call>
    decreases |events|
  {
    if events == [] then [] else CallOf(s, events[0]) + CallsOf(Step(s, events[0]), events[1..])
  }

  /** The limiter is what its calls have made of it, and each grant is the answer to a
      call of its own, in their order. */
  ghost predicate Traced(s: System, calls: seq<L.Call>, granted: seq<nat>) {
    s.limiter == L.After(L.EMPTY, calls) && GrantsTraced(s.grants, calls, granted)
  }

  ghost predicate GrantsTraced(grants: seq<L.Reservation>, calls: seq<L.Call>, granted: seq<nat>) {
    && |granted| == |grants|
    && (forall g, f :: 0 <= g < f < |granted| ==> granted[g] < granted[f])
    && (forall g :: 0 <= g < |granted| ==> IsGrant(grants[g], calls, granted[g]))
  }

  ghost predicate IsGrant(r: L.Reservation, calls: seq<L.Call>, i: nat) {
    i < |calls| && calls[i].key == r.key && calls[i].now == r.at && L.GrantedAt(calls, L.Answers(L.EMPTY, calls), i)
  }

  lemma {:induction false} AnswersSnoc(l: L.Limiter, calls: seq<L.Call>, c: L.Call)
    ensures L.After(l, calls + [c]) == L.Decided(L.After(l, calls), c.key, c.now, c.reserve).0
    ensures L.Answers(l, calls + [c]) == L.Answers(l, calls) + [L.Decided(L.After(l, calls), c.key, c.now, c.reserve).1]
    decreases |calls|
  {
    if calls == [] {
      assert [] + [c] == [c] && [c][1..] == [];
    } else {
      var first := calls[0];
      assert (calls + [c])[0] == first && (calls + [c])[1..] == calls[1..] + [c];
      AnswersSnoc(L.Decided(l, first.key, first.now, first.reserve).0, calls[1..], c);
    }
  }

  lemma {:induction false} GrantStays(r: L.Reservation, calls: seq<L.Call>, c: L.Call, i: nat)
    requires IsGrant(r, calls, i)
    ensures IsGrant(r, calls + [c], i)
  {
    AnswersSnoc(L.EMPTY, calls, c);
  }

  lemma {:induction false} GrantsStay(grants: seq<L.Reservation>, calls: seq<L.Call>, granted: seq<nat>, c: L.Call)
    requires GrantsTraced(grants, calls, granted)
    ensures GrantsTraced(grants, calls + [c], granted)
  {
    forall g | 0 <= g < |granted| ensures IsGrant(grants[g], calls + [c], granted[g]) {
      GrantStays(grants[g], calls, c, granted[g]);
    }
  }

  lemma {:induction false} GrantJoins(grants: seq<L.Reservation>, calls: seq<L.Call>, granted: seq<nat>, c: L.Call)
    requires GrantsTraced(grants, calls, granted) && IsGrant(L.Reservation(c.key, c.now), calls + [c], |calls|)
    ensures GrantsTraced(grants + [L.Reservation(c.key, c.now)], calls + [c], granted + [|calls|])
  {
    forall g | 0 <= g < |granted| ensures granted[g] < |calls| {
      assert IsGrant(grants[g], calls, granted[g]);
    }
    GrantsStay(grants, calls, granted, c);
  }

  lemma {:induction false} NewGrant(calls: seq<L.Call>, c: L.Call)
    requires c.reserve && L.Decided(L.After(L.EMPTY, calls), c.key, c.now, true).1.Allowed?
    ensures IsGrant(L.Reservation(c.key, c.now), calls + [c], |calls|)
  {
    AnswersSnoc(L.EMPTY, calls, c);
  }

  /** One more limiter call, which appends its reservation if it is granted one. */
  lemma {:induction false} CallTraced(s: System, t: System, calls: seq<L.Call>, granted: seq<nat>, c: L.Call) returns (more: seq<nat>)
    requires Traced(s, calls, granted)
    requires var (limiter, d) := L.Decided(s.limiter, c.key, c.now, c.reserve);
      t.limiter == limiter && t.grants == if c.reserve && d.Allowed? then s.grants + [L.Reservation(c.key, c.now)] else s.grants
    ensures Traced(t, calls + [c], more)
  {
    AnswersSnoc(L.EMPTY, calls, c);
    if c.reserve && L.Decided(s.limiter, c.key, c.now, true).1.Allowed? {
      NewGrant(calls, c);
      GrantJoins(s.grants, calls, granted, c);
      more := granted + [|calls|];
    } else {
      GrantsStay(s.grants, calls, granted, c);
      more := granted;
    }
  }

  lemma {:induction false} StepTraced(s: System, e: Event, calls: seq<L.Call>, granted: seq<nat>) returns (more: seq<nat>)
    requires Traced(s, calls, granted)
    ensures Traced(Step(s, e), calls + CallOf(s, e), more)
  {
    if CallOf(s, e) == [] {
      assert calls + [] == calls;
      more := granted;
    } else {
      more := CallTraced(s, Step(s, e), calls, granted, CallOf(s, e)[0]);
      assert CallOf(s, e) == [CallOf(s, e)[0]];
    }
  }

  lemma {:induction false} RunTraced(s: System, events: seq<Event>, calls: seq<L.Call>, granted: seq<nat>) returns (more: seq<nat>)
    requires Traced(s, calls, granted) && BookkeepingOk(s)
    ensures Traced(R.Run(s, events), calls + CallsOf(s, events), more) && BookkeepingOk(R.Run(s, events))
    decreases |events|
  {
    if events == [] {
      assert calls + [] == calls;
      more := granted;
    } else {
      var e := events[0];
      var next := StepTraced(s, e, calls, granted);
      StepKeepsBookkeeping(s, e);
      Associative(calls, CallOf(s, e), CallsOf(Step(s, e), events[1..]));
      more := RunTraced(Step(s, e), events[1..], calls + CallOf(s, e), next);
    }
  }

  /** The limiter's condition for allowing call i, whatever its clock does; and if the
      call's own reading says that a limit was broken, the clock has gone back. */
  ghost predicate RightlyGranted(calls: seq<L.Call>, i: nat, key: string) {
    && i < |calls| && calls[i].key == key && calls[i].reserve
    && var answers := L.Answers(L.EMPTY, calls);
       && !L.CoolingLive(calls, answers, i + 1, i, key)
       && |L.LiveCalls(calls, answers, i + 1, i)| < L.GLOBAL_LIMIT
       && (L.OverLimit(calls, answers, i) ==>
             exists j, m :: 0 <= j < m < i && L.WentBackOver(calls[j].now, calls[m].now, calls[i].now))
  }

  /** Over any interleaving, on any clocks: every action sent was granted by a limiter
      call of its own key that no other action shares, under the condition above. */
  lemma {:induction false} EveryActionGranted(events: seq<Event>) returns (granted: seq<nat>)
    ensures var s, calls := R.Run(INITIAL, events), CallsOf(INITIAL, events);
      && (forall d :: 0 <= d < |s.sent| ==> s.sent[d].slot < |granted| && RightlyGranted(calls, granted[s.sent[d].slot], s.sent[d].key))
      && (forall d, e :: 0 <= d < e < |s.sent| ==> granted[s.sent[d].slot] != granted[s.sent[e].slot])
  {
    assert L.After(L.EMPTY, []) == L.EMPTY;
    granted := RunTraced(INITIAL, events, [], []);
    var s, calls := R.Run(INITIAL, events), CallsOf(INITIAL, events);
    assert [] + calls == calls;
    forall d | 0 <= d < |s.sent| ensures s.sent[d].slot < |granted| && RightlyGranted(calls, granted[s.sent[d].slot], s.sent[d].key) {
      assert HoldsSlot(s, s.handlers[s.sent[d].handler], s.sent[d].slot);
      GrantIsRight(s, calls, granted, s.sent[d].slot);
    }
  }

  lemma {:induction false} GrantIsRight(s: System, calls: seq<L.Call>, granted: seq<nat>, g: nat)
    requires Traced(s, calls, granted) && g < |granted|
    ensures RightlyGranted(calls, granted[g], s.grants[g].key)
  {
    var i := granted[g];
    assert IsGrant(s.grants[g], calls, i);
    L.AnyClock(calls, i);
    if L.OverLimit(calls, L.Answers(L.EMPTY, calls), i) {
      L.BreachMeansClockWentBack(calls, i);
    }
  }
}
