/** A review that outlasts its token: runs in which one token serves twice. */
module TokenReuse {
  import opened Models
  import opened RepairGates
  import opened Collections
  import opened RepairControl
  import opened RepairRuns
  import L = RepairLimiter
  import A = Approvals
  import Text

  /** The life of one token handler: it verifies at v, and has its review's answer
      at c, when it consumes, reserves and sends. */
  function Life(id: nat, r: Request, f: Facts, v: Instant, c: Instant): seq<Event> {
    [Begin(r), Verify(id, v), Check(id, f)] + [Consume(id, c), Reserve(id, c), Send(id)]
  }

  /** The limiter lets the key through, and no acceptance of the token guards it. */
  ghost predicate Clear(s: System, r: Request, key: string, now: Instant)
    requires NeedsToken(r)
  {
    && s.guardAt <= now && s.limiterAt <= now
    && L.Decided(s.limiter, key, now, true).1.Allowed?
    && A.Consumed(s.used, A.KeyOf(r.payload), A.Expiry(r.payload), now).1
  }

  /** What a handler that gets through leaves behind. */
  ghost predicate Acted(s: System, t: System, r: Request, key: string, v: Instant, c: Instant)
    requires NeedsToken(r)
  {
    && t.permits == s.permits + [Permit(r.payload, v, c)] && t.grants == s.grants + [L.Reservation(key, c)]
    && |t.sent| == |s.sent| + 1 && s.sent <= t.sent && t.sent[|s.sent|].permit == Some(|s.permits|)
    && t.guardAt == c && t.limiterAt == c
  }

  lemma TokenPasses(s: System, id: nat, r: Request, v: Instant)
    requires TokenVerified(r, v) && id < |s.handlers| && s.handlers[id] == Handler(r, None, "", Checking)
    ensures Step(s, Verify(id, v)) == s.(handlers := s.handlers[id := Handler(r, Some(v), "", Checking)])
  {
  }

  lemma CheckPasses(s: System, id: nat, r: Request, f: Facts, order: Order, v: Instant)
    requires id < |s.handlers| && s.handlers[id] == Handler(r, Some(v), "", Checking)
    requires NeedsToken(r) && Permitted(r, f) == Some(order)
    ensures var t := Step(s, Check(id, f));
      && t.handlers == s.handlers[id := Handler(r, Some(v), order.key, Passed(|s.checks|))]
      && t == s.(handlers := t.handlers, checks := t.checks)
  {
    assert Step(s, Check(id, f)) == Pass(s, id, PassedCheck(r, Some(v), f, order));
  }

  lemma BeforeConsuming(s: System, r: Request, f: Facts, v: Instant) returns (t: System)
    requires TokenVerified(r, v) && Permitted(r, f).Some?
    ensures var e := [Begin(r), Verify(|s.handlers|, v), Check(|s.handlers|, f)]; t == Run(s, e) && Possible(s, e)
    ensures var id := |s.handlers|;
      && |t.handlers| == id + 1 && t.handlers[id] == Handler(r, Some(v), Permitted(r, f).value.key, Passed(|s.checks|))
      && t == s.(handlers := t.handlers, checks := t.checks)
  {
    var id := |s.handlers|;
    var order := Permitted(r, f).value;
    var one := Step(s, Begin(r));
    TokenPasses(one, id, r, v);
    var two := Step(one, Verify(id, v));
    CheckPasses(two, id, r, f, order, v);
    t := Step(two, Check(id, f));
    RunOfThree(s, Begin(r), Verify(id, v), Check(id, f));
  }

  lemma FromConsuming(s: System, id: nat, key: string, c: Instant) returns (t: System)
    requires id < |s.handlers| && s.handlers[id].stage.Passed? && CanConsume(s.handlers[id]) && s.handlers[id].key == key
    requires Clear(s, s.handlers[id].request, key, c) && s.handlers[id].verifiedAt.value <= c
    ensures var e := [Consume(id, c), Reserve(id, c), Send(id)]; t == Run(s, e) && Possible(s, e)
    ensures Acted(s, t, s.handlers[id].request, key, s.handlers[id].verifiedAt.value, c)
  {
    var one := Step(s, Consume(id, c));
    assert one == Consuming(s, id, c);
    var two := Step(one, Reserve(id, c));
    assert two == Reserving(one, id, c);
    t := Step(two, Send(id));
    assert t == Sending(two, id);
    RunOfThree(s, Consume(id, c), Reserve(id, c), Send(id));
  }

  lemma RunOfThree(s: System, a: Event, b: Event, c: Event)
    ensures Run(s, [a, b, c]) == Step(Step(Step(s, a), b), c)
    ensures Possible(s, [a, b, c]) <==> Due(s, a) && Due(Step(s, a), b) && Due(Step(Step(s, a), b), c)
  {
    assert [a, b, c][1..] == [b, c] && [b, c][1..] == [c] && [c][1..] == [];
    RunStep(s, [a, b, c]);
    RunStep(Step(s, a), [b, c]);
    RunStep(Step(Step(s, a), b), [c]);
  }

  lemma RunStep(s: System, e: seq<Event>)
    requires e != []
    ensures Run(s, e) == Run(Step(s, e[0]), e[1..])
    ensures Possible(s, e) <==> Due(s, e[0]) && Possible(Step(s, e[0]), e[1..])
  {
  }

  lemma LifeActs(s: System, r: Request, f: Facts, v: Instant, c: Instant)
    requires TokenVerified(r, v) && Permitted(r, f).Some? && v <= c && Clear(s, r, Permitted(r, f).value.key, c)
    ensures var e := Life(|s.handlers|, r, f, v, c);
      Possible(s, e) && Acted(s, Run(s, e), r, Permitted(r, f).value.key, v, c)
  {
    var id := |s.handlers|;
    var before := BeforeConsuming(s, r, f, v);
    var after := FromConsuming(before, id, Permitted(r, f).value.key, c);
    RunsJoin(s, [Begin(r), Verify(id, v), Check(id, f)], [Consume(id, c), Reserve(id, c), Send(id)]);
  }

  lemma {:induction false} RunsJoin(s: System, a: seq<Event>, b: seq<Event>)
    ensures Run(s, a + b) == Run(Run(s, a), b)
    ensures Possible(s, a + b) <==> Possible(s, a) && Possible(Run(s, a), b)
    decreases |a|
  {
    if a == [] {
      assert a + b == b;
    } else {
      TailOfConcat(a, b);
      RunStep(s, a + b);
      RunsJoin(Step(s, a[0]), a[1..], b);
    }
  }

  /** Two actions behind one token, the second verified before it expired. */
  ghost predicate ServedTwice(events: seq<Event>, d: nat, e: nat) {
    && Possible(INITIAL, events)
    && var s := Run(INITIAL, events);
       && d < e < |s.sent| && s.sent[d].permit.Some? && s.sent[e].permit.Some?
       && s.sent[d].permit.value < |s.permits| && s.sent[e].permit.value < |s.permits|
       && var p, q := s.permits[s.sent[d].permit.value], s.permits[s.sent[e].permit.value];
          p.payload == q.payload && q.verifiedAt < A.Expiry(q.payload) < q.at
  }

  lemma FirstClear(r: Request, key: string, first: Instant)
    requires NeedsToken(r)
    ensures Clear(INITIAL, r, key, first)
  {
    L.EmptyAllows(key, first);
  }

  lemma TwoActed(s: System, t: System, u: System, r: Request, key: string, first: Instant, v: Instant, c: Instant)
    requires NeedsToken(r) && Acted(s, t, r, key, first, first) && Acted(t, u, r, key, v, c) && s.sent == [] && s.permits == []
    ensures |u.sent| == 2 && |u.permits| == 2 && u.sent[0].permit == Some(0) && u.sent[1].permit == Some(1)
    ensures u.permits[0].payload == r.payload && u.permits[1] == Permit(r.payload, v, c)
  {
    assert u.sent[0] == t.sent[0];
  }

  lemma FirstLife(r: Request, f: Facts, first: Instant)
    requires TokenVerified(r, first) && Permitted(r, f).Some?
    ensures var e := Life(0, r, f, first, first);
      Possible(INITIAL, e) && Acted(INITIAL, Run(INITIAL, e), r, Permitted(r, f).value.key, first, first) && SharedOk(Run(INITIAL, e))
  {
    FirstClear(r, Permitted(r, f).value.key, first);
    LifeActs(INITIAL, r, f, first, first);
    AnyRun(Life(0, r, f, first, first));
  }

  lemma SecondLife(s: System, r: Request, f: Facts, first: Instant, v: Instant, c: Instant) returns (e: seq<Event>)
    requires SharedOk(s) && TokenVerified(r, v) && Permitted(r, f).Some? && Acted(INITIAL, s, r, Permitted(r, f).value.key, first, first)
    requires v < A.Expiry(r.payload) < c && first + MINUTE <= c
    ensures Possible(s, e) && Acted(s, Run(s, e), r, Permitted(r, f).value.key, v, c)
  {
    var key := Permitted(r, f).value.key;
    assert s.permits == [Permit(r.payload, first, first)] && s.grants == [L.Reservation(key, first)];
    AgainClear(s, r, key, first, c);
    LifeActs(s, r, f, v, c);
    e := Life(|s.handlers|, r, f, v, c);
  }

  lemma TwoLives(one: seq<Event>, two: seq<Event>, r: Request, key: string, first: Instant, v: Instant, c: Instant)
    requires NeedsToken(r) && v < A.Expiry(r.payload) < c
    requires Possible(INITIAL, one) && Acted(INITIAL, Run(INITIAL, one), r, key, first, first)
    requires Possible(Run(INITIAL, one), two) && Acted(Run(INITIAL, one), Run(Run(INITIAL, one), two), r, key, v, c)
    ensures ServedTwice(one + two, 0, 1)
  {
    RunsJoin(INITIAL, one, two);
    TwoActed(INITIAL, Run(INITIAL, one), Run(Run(INITIAL, one), two), r, key, first, v, c);
  }

  /** Once a token has served, it serves again for a handler that verifies it before
      the expiry and consumes it after, on the same app a minute later or more. */
  lemma ReviewOutlastsToken(r: Request, f: Facts, first: Instant, v: Instant, c: Instant) returns (events: seq<Event>)
    requires TokenVerified(r, first) && TokenVerified(r, v) && Permitted(r, f).Some?
    requires v < A.Expiry(r.payload) < c && first + MINUTE <= c
    ensures ServedTwice(events, 0, 1)
  {
    var one := Life(0, r, f, first, first);
    FirstLife(r, f, first);
    var two := SecondLife(Run(INITIAL, one), r, f, first, v, c);
    TwoLives(one, two, r, Permitted(r, f).value.key, first, v, c);
    events := one + two;
  }

  const TWO_MINUTES := A.Payload(A.PLAN_ID, "u", RESTART_APP, "app", "a", "n", 120)

  lemma ExampleVerified(now: Instant)
    requires now <= A.Expiry(TWO_MINUTES)
    ensures TokenVerified(Approval(TWO_MINUTES, "u", "allow_once"), now)
  {
    Text.TrimmedIsFixed(RESTART_APP);
  }

  lemma ExamplePermitted() returns (f: Facts)
    ensures Permitted(Approval(TWO_MINUTES, "u", "allow_once"), f).Some?
  {
    var app := Container("a", {Identifier("a")}, false, Running, Offline, false, true, true);
    f := Facts(true, true, true, [], [app], true, "", true);
    Text.TrimmedIsFixed(RESTART_APP);
    Text.TrimmedIsFixed("allow_once");
    Text.TrimmedIsFixed("a");
    Text.TrimmedIsFixed("n");
    assert |Identifier("a")| == 1;
    assert Named(app, Identifier("a"));
  }

  /** Such runs exist: a token of two minutes, used at once, presented again just
      before it expires, and reviewed until just after. */
  lemma TokenCanServeTwice()
    ensures exists events :: ServedTwice(events, 0, 1)
  {
    var r := Approval(TWO_MINUTES, "u", "allow_once");
    var expiry := A.Expiry(TWO_MINUTES);
    var f := ExamplePermitted();
    ExampleVerified(expiry - 120 * SECOND);
    ExampleVerified(expiry - 1);
    var events := ReviewOutlastsToken(r, f, expiry - 120 * SECOND, expiry - 1, expiry + 1);
  }

  lemma AgainClear(s: System, r: Request, key: string, first: Instant, c: Instant)
    requires SharedOk(s) && NeedsToken(r) && s.guardAt == first && s.limiterAt == first
    requires s.permits == [Permit(r.payload, first, first)] && s.grants == [L.Reservation(key, first)]
    requires A.Expiry(r.payload) < c && first + MINUTE <= c
    ensures Clear(s, r, key, c)
  {
    L.RefusalMeans(s.grants, key, c);
    L.DecideAgrees(s.limiter, s.grants, first, key, c, true);
    A.ConsumeAgrees(s.used, Accepted(s.permits), first, A.KeyOf(r.payload), A.Expiry(r.payload), c);
  }
}
