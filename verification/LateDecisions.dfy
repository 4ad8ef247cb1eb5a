/** What may still come of a repair request that several admins decide: exactly which
    approvals can still act, and which decisions can still write, from any state a
    run can reach. */
module LateDecisions {
  import opened Models
  import opened RepairGates
  import opened Collections
  import opened RequestRaces
  import C = RepairControl
  import L = RepairLimiter
  import R = RepairRequests
  import Text

  // ---------------------------------------------------------------------
  // Which decisions can still act, and which can still write
  // ---------------------------------------------------------------------

  lemma OneStep(w: World, e: Event)
    ensures Run(w, [e]) == Step(w, e) && (Possible(w, [e]) <==> Due(w, e))
  {
    assert [e][1..] == [];
  }

  lemma {:induction false} RunsJoin(w: World, a: seq<Event>, b: seq<Event>)
    ensures Run(w, a + b) == Run(Run(w, a), b)
    ensures Possible(w, a + b) <==> Possible(w, a) && Possible(Run(w, a), b)
    decreases |a|
  {
    if a == [] {
      assert a + b == b;
    } else {
      TailOfConcat(a, b);
      RunsJoin(Step(w, a[0]), a[1..], b);
    }
  }

  lemma OneMore(a: seq<Event>, e: Event)
    requires Possible(START, a) && Due(Run(START, a), e)
    ensures Possible(START, a + [e]) && Run(START, a + [e]) == Step(Run(START, a), e)
  {
    OneStep(Run(START, a), e);
    RunsJoin(START, a, [e]);
  }

  /** A possible run that goes on from a. */
  ghost predicate Extends(a: seq<Event>, b: seq<Event>) {
    a <= b && Possible(START, b)
  }

  /** The approval has loaded its request, or nobody has settled it yet. */
  predicate Open(w: World, h: nat)
    requires IsDecision(w, h)
  {
    h in w.loadedAt || RequestOf(w, h) !in w.settledAt
  }

  /** Some state of the server would permit the action. */
  predicate Actable(r: Request)
    requires r.Decision?
  {
    RestartsApp(r.actionId) && Identifier(r.appId) != ""
  }

  ghost predicate MayAct(w: World, h: nat)
    requires IsDecision(w, h)
  {
    var handler := w.sys.handlers[h];
    HasSent(w.sys, h) || handler.stage.Cleared? || handler.stage.Reserved?
    || (handler.stage.Checking? && Actable(handler.request) && Open(w, h))
  }

  ghost predicate MayWrite(w: World, h: nat)
    requires IsDecision(w, h)
  {
    h !in w.written && (MayAct(w, h) || (w.sys.handlers[h].stage.Checking? && !Supported(w, h) && Open(w, h)))
  }

  lemma PermittedIsActable(r: Request, f: Facts)
    requires r.Decision? && Permitted(r, f).Some?
    ensures Actable(r)
  {
  }

  lemma ActableIsPermitted(r: Request) returns (f: Facts)
    requires r.Decision? && Actable(r)
    ensures Permitted(r, f).Some?
  {
    var app := Container("a", {Identifier(r.appId)}, false, Running, Offline, false, true, true);
    f := Facts(true, false, true, [], [app], true, "", true);
    assert Named(app, Identifier(r.appId));
  }

  /** An approval of the request that has not written and still can. */
  ghost predicate OpenApproval(w: World, h: nat, id: string) {
    IsDecision(w, h) && RequestOf(w, h) == id && MayWrite(w, h)
  }

  predicate OpenDenial(w: World, n: nat, id: string) {
    CanDeny(w, n) && w.denials[n].requestId == id
  }

  ghost predicate OpenDecision(w: World, id: string) {
    (exists h :: OpenApproval(w, h, id)) || (exists n :: OpenDenial(w, n, id))
  }

  /** How an event can change one approval's handler. */
  ghost predicate HandlerFollows(s: C.System, t: C.System, h: nat, loaded: bool)
    requires h < |s.handlers|
  {
    && h < |t.handlers| && t.handlers[h].request == s.handlers[h].request
    && (t.handlers[h].request.Decision? ==>
          var before, after := s.handlers[h].stage, t.handlers[h].stage;
          && (HasSent(t, h) ==> HasSent(s, h) || before.Reserved?)
          && (after.Reserved? ==> before.Reserved? || before.Cleared?)
          && (after.Checking? ==> before.Checking?)
          && (after.Cleared? ==> before.Cleared? || (before.Checking? && loaded && Actable(s.handlers[h].request))))
  }

  /** A handler that has only just begun. */
  ghost predicate IsNewcomer(t: C.System, h: nat)
    requires h < |t.handlers|
  {
    t.handlers[h].stage.Checking? && !HasSent(t, h)
  }

  lemma SentBefore(s: C.System, step: C.Event, h: nat)
    requires C.SentOk(s) && HasSent(C.Step(s, step), h)
    ensures HasSent(s, h) || (h < |s.handlers| && s.handlers[h].stage.Reserved?)
  {
    var t := C.Step(s, step);
    StepOnSent(s, step);
    var d :| 0 <= d < |t.sent| && t.sent[d].handler == h;
    if d < |s.sent| {
      assert s.sent[d].handler == h;
    } else {
      assert step == C.Event.Send(h);
    }
  }

  lemma StepOnDecision(s: C.System, step: C.Event, h: nat)
    requires C.SentOk(s) && h < |s.handlers|
    ensures HandlerFollows(s, C.Step(s, step), h, step.Check? && step.id == h)
  {
    StepOnHandlers(s, step);
    if HasSent(C.Step(s, step), h) {
      SentBefore(s, step, h);
    }
    if step.Check? && step.id == h && s.handlers[h].request.Decision? && Permitted(s.handlers[h].request, step.facts).Some? {
      PermittedIsActable(s.handlers[h].request, step.facts);
    }
  }

  lemma StepOnNewcomer(s: C.System, step: C.Event, h: nat)
    requires C.SentOk(s) && |s.handlers| <= h < |C.Step(s, step).handlers|
    ensures IsNewcomer(C.Step(s, step), h)
  {
    assert step.Begin?;
    assert C.Step(s, step).sent == s.sent;
    forall d | 0 <= d < |s.sent| ensures s.sent[d].handler < |s.handlers| {}
  }

  /** What any event leaves of the decisions: handlers go forward, only pending
      requests are loaded, and what is settled or written stays so. */
  ghost predicate Follows(w: World, t: World) {
    && |w.sys.handlers| <= |t.sys.handlers|
    && (forall h :: 0 <= h < |w.sys.handlers| ==> HandlerFollows(w.sys, t.sys, h, h in w.loadedAt))
    && (forall h :: |w.sys.handlers| <= h < |t.sys.handlers| ==> IsNewcomer(t.sys, h) && h !in t.loadedAt)
    && StoreFollows(w, t)
  }

  ghost predicate StoreFollows(w: World, t: World) {
    && (forall h :: h in t.loadedAt && h !in w.loadedAt ==> IsDecision(w, h) && RequestOf(w, h) !in w.settledAt)
    && w.settledAt.Keys <= t.settledAt.Keys && w.written <= t.written
    && (forall n, id :: OpenDenial(t, n, id) ==> OpenDenial(w, n, id) || id !in w.settledAt)
  }

  lemma SameSystemFollows(w: World, t: World)
    requires t.sys == w.sys && StoreFollows(w, t) && LoadsOk(w)
    ensures Follows(w, t)
  {
  }

  lemma StepStoreFollows(w: World, e: Event)
    requires StatusOk(w)
    ensures StoreFollows(w, Step(w, e))
  {
    forall n, id | OpenDenial(Step(w, e), n, id) && !OpenDenial(w, n, id) ensures id !in w.settledAt {
      assert e.LoadForDenial?;
    }
  }

  lemma StepFollows(w: World, e: Event)
    requires Ok(w)
    ensures Follows(w, Step(w, e))
  {
    var t := Step(w, e);
    StepStoreFollows(w, e);
    if e.Act? && Applies(w, e.step) {
      StepOnHandlers(w.sys, e.step);
      assert t.sys == C.Step(w.sys, e.step) && t.loadedAt == w.loadedAt;
      forall h | 0 <= h < |w.sys.handlers| ensures HandlerFollows(w.sys, t.sys, h, h in w.loadedAt) {
        StepOnDecision(w.sys, e.step, h);
      }
      forall h | |w.sys.handlers| <= h < |t.sys.handlers| ensures IsNewcomer(t.sys, h) && h !in t.loadedAt {
        StepOnNewcomer(w.sys, e.step, h);
      }
    } else {
      SameSystemFollows(w, t);
    }
  }

  /** An approval that has missed its request never gets it open again. */
  lemma StaysMissed(w: World, t: World, h: nat)
    requires Follows(w, t) && IsDecision(w, h) && !Open(w, h)
    ensures IsDecision(t, h) && !Open(t, h)
  {
    assert HandlerFollows(w.sys, t.sys, h, h in w.loadedAt);
  }

  lemma StaysIdle(w: World, t: World, h: nat)
    requires Follows(w, t) && IsDecision(w, h) && !MayAct(w, h)
    ensures IsDecision(t, h) && !MayAct(t, h)
  {
    assert HandlerFollows(w.sys, t.sys, h, h in w.loadedAt);
    if !Open(w, h) {
      StaysMissed(w, t, h);
    }
  }

  lemma StaysSilent(w: World, t: World, h: nat)
    requires Follows(w, t) && IsDecision(w, h) && !MayWrite(w, h)
    ensures IsDecision(t, h) && !MayWrite(t, h)
  {
    assert HandlerFollows(w.sys, t.sys, h, h in w.loadedAt);
    if h !in w.written {
      StaysIdle(w, t, h);
      if !Open(w, h) {
        StaysMissed(w, t, h);
      }
    }
  }

  lemma {:induction false} IdleForGood(w: World, more: seq<Event>, h: nat)
    requires Ok(w) && Possible(w, more) && IsDecision(w, h) && !MayAct(w, h)
    ensures IsDecision(Run(w, more), h) && !MayAct(Run(w, more), h)
    decreases |more|
  {
    if more != [] {
      StepKeeps(w, more[0]);
      StepFollows(w, more[0]);
      StaysIdle(w, Step(w, more[0]), h);
      IdleForGood(Step(w, more[0]), more[1..], h);
    }
  }

  /** All that changes is the handler itself, up to its action. */
  ghost predicate HandlerAdvances(s: C.System, t: C.System, h: nat)
    requires h < |s.handlers|
  {
    && |t.handlers| == |s.handlers| && t.handlers[h].request == s.handlers[h].request
    && (forall k :: 0 <= k < |s.handlers| && k != h ==> t.handlers[k] == s.handlers[k])
    && s.sent <= t.sent
  }

  ghost predicate Advances(w: World, after: World, h: nat)
    requires IsDecision(w, h)
  {
    && HandlerAdvances(w.sys, after.sys, h) && w.loadedAt.Keys <= after.loadedAt.Keys
    && after.written == w.written && after.denials == w.denials && after.settledAt == w.settledAt
  }

  lemma SendAdvances(s: C.System, h: nat)
    requires h < |s.handlers| && s.handlers[h].stage.Reserved?
    ensures var t := C.Step(s, C.Event.Send(h)); HandlerAdvances(s, t, h) && HasSent(t, h)
  {
    var t := C.Step(s, C.Event.Send(h));
    assert t == C.Sending(s, h);
    assert t.sent[|s.sent|].handler == h;
  }

  /** An hour after its last reading the limiter lets any key through. */
  lemma ReserveAdvances(s: C.System, h: nat) returns (now: Instant)
    requires C.SharedOk(s) && h < |s.handlers| && s.handlers[h].stage.Cleared?
    ensures C.Due(s, C.Reserve(h, now))
    ensures var t := C.Step(s, C.Reserve(h, now)); HandlerAdvances(s, t, h) && t.handlers[h].stage.Reserved?
  {
    var key := s.handlers[h].key;
    now := (if s.limiterAt > 0 then s.limiterAt else 0) + HOUR;
    L.RefusalMeans(s.grants, key, now);
    L.DecideAgrees(s.limiter, s.grants, s.limiterAt, key, now, true);
    assert C.Step(s, C.Reserve(h, now)) == C.Reserving(s, h, now);
  }

  lemma CheckAdvances(s: C.System, h: nat) returns (f: Facts)
    requires h < |s.handlers| && s.handlers[h].stage.Checking? && s.handlers[h].request.Decision? && Actable(s.handlers[h].request)
    ensures var t := C.Step(s, C.Check(h, f)); HandlerAdvances(s, t, h) && t.handlers[h].stage.Cleared?
  {
    var r := s.handlers[h].request;
    f := ActableIsPermitted(r);
    assert C.Step(s, C.Check(h, f)) == C.Pass(s, h, C.PassedCheck(r, s.handlers[h].verifiedAt, f, Permitted(r, f).value));
  }

  /** One step of the repair paths more. */
  lemma OneMoreAct(a: seq<Event>, step: C.Event) returns (b: seq<Event>)
    requires Possible(START, a) && C.Due(Run(START, a).sys, step) && Applies(Run(START, a), step)
    ensures b == a + [Act(step)] && Extends(a, b)
    ensures var w := Run(START, a); Run(START, b) == w.(sys := C.Step(w.sys, step), ticks := w.ticks + 1)
  {
    OneMore(a, Act(step));
    b := a + [Act(step)];
  }

  lemma AdvancesOn(w: World, v: World, t: World, h: nat)
    requires IsDecision(w, h) && Advances(w, v, h) && IsDecision(v, h) && Advances(v, t, h)
    ensures Advances(w, t, h)
  {
  }

  lemma GoesOnFromReserved(a: seq<Event>, h: nat) returns (b: seq<Event>)
    requires Possible(START, a) && IsDecision(Run(START, a), h) && Run(START, a).sys.handlers[h].stage.Reserved?
    ensures Extends(a, b) && Advances(Run(START, a), Run(START, b), h) && HasSent(Run(START, b).sys, h)
  {
    SendAdvances(Run(START, a).sys, h);
    b := OneMoreAct(a, C.Event.Send(h));
  }

  lemma GoesOnFromCleared(a: seq<Event>, h: nat) returns (b: seq<Event>)
    requires Possible(START, a) && IsDecision(Run(START, a), h) && Run(START, a).sys.handlers[h].stage.Cleared?
    ensures Extends(a, b) && Advances(Run(START, a), Run(START, b), h) && HasSent(Run(START, b).sys, h)
  {
    AnyRun(a);
    var now := ReserveAdvances(Run(START, a).sys, h);
    var reserved := OneMoreAct(a, C.Reserve(h, now));
    b := GoesOnFromReserved(reserved, h);
    AdvancesOn(Run(START, a), Run(START, reserved), Run(START, b), h);
  }

  lemma GoesOnFromLoaded(a: seq<Event>, h: nat) returns (b: seq<Event>)
    requires Possible(START, a) && IsDecision(Run(START, a), h) && h in Run(START, a).loadedAt
    requires var handler := Run(START, a).sys.handlers[h]; handler.stage.Checking? && Actable(handler.request)
    ensures Extends(a, b) && Advances(Run(START, a), Run(START, b), h) && HasSent(Run(START, b).sys, h)
  {
    var f := CheckAdvances(Run(START, a).sys, h);
    var checked := OneMoreAct(a, C.Check(h, f));
    b := GoesOnFromCleared(checked, h);
    AdvancesOn(Run(START, a), Run(START, checked), Run(START, b), h);
  }

  lemma FiledIsPending(w: World, id: string)
    requires StatusOk(w) && id !in w.settledAt
    ensures var t := Step(w, File(id)); IsPending(t, id) && t == w.(status := t.status, ticks := t.ticks)
  {
  }

  lemma PendingIsLoaded(w: World, h: nat)
    requires IsDecision(w, h) && IsPending(w, RequestOf(w, h))
    ensures var t := Step(w, Load(h)); h in t.loadedAt && w.loadedAt.Keys <= t.loadedAt.Keys && t == w.(loadedAt := t.loadedAt, ticks := t.ticks)
  {
  }

  /** An open request can be loaded, filed first if need be. */
  lemma LoadsOpen(a: seq<Event>, h: nat) returns (b: seq<Event>)
    requires Possible(START, a) && IsDecision(Run(START, a), h) && Open(Run(START, a), h)
    ensures Extends(a, b) && h in Run(START, b).loadedAt && Run(START, b).sys == Run(START, a).sys
    ensures Advances(Run(START, a), Run(START, b), h)
  {
    AnyRun(a);
    var w := Run(START, a);
    b := a;
    if h !in w.loadedAt {
      var id := RequestOf(w, h);
      FiledIsPending(w, id);
      OneMore(a, File(id));
      var filed := a + [File(id)];
      PendingIsLoaded(Run(START, filed), h);
      OneMore(filed, Load(h));
      b := filed + [Load(h)];
    }
  }

  lemma GoesOn(a: seq<Event>, h: nat) returns (b: seq<Event>)
    requires Possible(START, a) && IsDecision(Run(START, a), h) && MayAct(Run(START, a), h)
    ensures Extends(a, b) && Advances(Run(START, a), Run(START, b), h) && HasSent(Run(START, b).sys, h)
  {
    var w := Run(START, a);
    var stage := w.sys.handlers[h].stage;
    if HasSent(w.sys, h) {
      b := a;
    } else if stage.Reserved? {
      b := GoesOnFromReserved(a, h);
    } else if stage.Cleared? {
      b := GoesOnFromCleared(a, h);
    } else {
      var loaded := LoadsOpen(a, h);
      b := GoesOnFromLoaded(loaded, h);
      AdvancesOn(w, Run(START, loaded), Run(START, b), h);
    }
  }

  /** From any reachable state: an approval can still come to act exactly when it has
      passed its checks, or has them before it with a supported action and its request
      either loaded already or not settled by anybody yet. */
  lemma {:induction false} ActsExactly(a: seq<Event>, h: nat)
    requires Possible(START, a) && IsDecision(Run(START, a), h)
    ensures (exists b :: Extends(a, b) && HasSent(Run(START, b).sys, h)) <==> MayAct(Run(START, a), h)
  {
    AnyRun(a);
    if MayAct(Run(START, a), h) {
      var b := GoesOn(a, h);
    } else {
      forall b | Extends(a, b) ensures !HasSent(Run(START, b).sys, h) {
        assert a + b[|a|..] == b;
        RunsJoin(START, a, b[|a|..]);
        IdleForGood(Run(START, a), b[|a|..], h);
      }
    }
  }

  /** In particular, once a request is settled: an approval that some state of the
      server permits acts for it all the same exactly when it had loaded it. */
  lemma {:induction false} SettledActsAgain(a: seq<Event>, h: nat, f: Facts)
    requires Possible(START, a) && IsDecision(Run(START, a), h) && RequestOf(Run(START, a), h) in Run(START, a).settledAt
    requires Run(START, a).sys.handlers[h].stage.Checking? && Permitted(Run(START, a).sys.handlers[h].request, f).Some?
    ensures (exists b :: Extends(a, b) && HasSent(Run(START, b).sys, h)) <==> h in Run(START, a).loadedAt
  {
    ActsExactly(a, h);
    AnyRun(a);
    var w := Run(START, a);
    PermittedIsActable(w.sys.handlers[h].request, f);
    if HasSent(w.sys, h) {
      C.NotSentBy(w.sys, h);
    }
  }

  lemma WritesMeansOpen(w: World, e: Event, id: string)
    requires Ok(w) && Writes(w, e, id)
    ensures OpenDecision(w, id)
  {
    if e.Deny? {
      assert OpenDenial(w, e.denial, id);
    } else {
      assert OpenApproval(w, e.handler, id);
    }
  }

  /** No event opens a decision on a settled request. */
  lemma NothingOpens(w: World, t: World, id: string)
    requires Follows(w, t) && id in w.settledAt && !OpenDecision(w, id)
    ensures id in t.settledAt && !OpenDecision(t, id)
  {
    forall h: nat | IsDecision(t, h) && RequestOf(t, h) == id ensures !OpenApproval(t, h, id) {
      if h < |w.sys.handlers| {
        assert HandlerFollows(w.sys, t.sys, h, h in w.loadedAt) && !OpenApproval(w, h, id);
        StaysSilent(w, t, h);
      } else {
        assert IsNewcomer(t.sys, h) && !Open(t, h);
      }
    }
    forall n: nat ensures !OpenDenial(t, n, id) {
      assert !OpenDenial(w, n, id);
    }
  }

  lemma {:induction false} ClosedForGood(w: World, more: seq<Event>, id: string)
    requires Ok(w) && Possible(w, more) && id in w.settledAt && !OpenDecision(w, id)
    ensures Ok(Run(w, more)) && !OpenDecision(Run(w, more), id)
    decreases |more|
  {
    if more != [] {
      StepKeeps(w, more[0]);
      StepFollows(w, more[0]);
      NothingOpens(w, Step(w, more[0]), id);
      ClosedForGood(Step(w, more[0]), more[1..], id);
    }
  }

  /** The request is written at the end of some run that goes on from a. */
  ghost predicate WrittenAfter(a: seq<Event>, b: seq<Event>, e: Event, id: string) {
    Extends(a, b) && Writes(Run(START, b), e, id)
  }

  lemma ApprovalWrites(a: seq<Event>, h: nat, id: string) returns (b: seq<Event>, e: Event)
    requires Possible(START, a) && OpenApproval(Run(START, a), h, id)
    ensures WrittenAfter(a, b, e, id)
  {
    if MayAct(Run(START, a), h) {
      b := GoesOn(a, h);
      e := Settle(h, true);
    } else {
      b := LoadsOpen(a, h);
      e := Reject(h);
    }
  }

  /** From any reachable state: a settled request will be written again in some run
      exactly when a denial that loaded it has not written yet, or an approval that
      loaded it has not and either can still act or finds the action unsupported. */
  lemma {:induction false} WrittenAgainExactly(a: seq<Event>, id: string)
    requires Possible(START, a) && id in Run(START, a).settledAt
    ensures (exists b, e :: WrittenAfter(a, b, e, id)) <==> OpenDecision(Run(START, a), id)
  {
    AnyRun(a);
    var w := Run(START, a);
    if h :| OpenApproval(w, h, id) {
      var b, e := ApprovalWrites(a, h, id);
    } else if n :| OpenDenial(w, n, id) {
      assert WrittenAfter(a, a, Deny(n), id);
    } else {
      forall b, e | Extends(a, b) ensures !Writes(Run(START, b), e, id) {
        assert a + b[|a|..] == b;
        RunsJoin(START, a, b[|a|..]);
        ClosedForGood(w, b[|a|..], id);
        if Writes(Run(START, b), e, id) {
          WritesMeansOpen(Run(START, b), e, id);
        }
      }
    }
  }

  // ---------------------------------------------------------------------
  // Such overlaps happen
  // ---------------------------------------------------------------------

  const ID := "repair-1"
  const REQUEST := Decision(ID, RESTART_APP, "a")

  /** Two approvals and a denial have loaded the pending request. */
  ghost predicate AllLoaded(w: World) {
    && w.sys == C.INITIAL.(handlers := [C.Handler(REQUEST, None, "", C.Checking), C.Handler(REQUEST, None, "", C.Checking)])
    && 0 in w.loadedAt && 1 in w.loadedAt && |w.denials| == 1 && w.denials[0].requestId == ID && !w.denials[0].written && w.written == {}
  }

  lemma Begun() returns (a: seq<Event>)
    ensures Possible(START, a)
    ensures var w := Run(START, a);
      && w.sys == C.INITIAL.(handlers := [C.Handler(REQUEST, None, "", C.Checking), C.Handler(REQUEST, None, "", C.Checking)])
      && IsPending(w, ID) && w.loadedAt == map[] && w.denials == [] && w.written == {}
  {
    OneMore([], File(ID));
    assert [] + [File(ID)] == [File(ID)];
    var one := OneMoreAct([File(ID)], C.Begin(REQUEST));
    a := OneMoreAct(one, C.Begin(REQUEST));
    assert Run(START, a).sys.handlers == [C.Handler(REQUEST, None, "", C.Checking)] + [C.Handler(REQUEST, None, "", C.Checking)];
  }

  lemma LoadAll() returns (a: seq<Event>)
    ensures Possible(START, a) && AllLoaded(Run(START, a))
  {
    a := Begun();
    PendingIsLoaded(Run(START, a), 0);
    OneMore(a, Load(0));
    a := a + [Load(0)];
    PendingIsLoaded(Run(START, a), 1);
    OneMore(a, Load(1));
    a := a + [Load(1)];
    OneMore(a, LoadForDenial(ID));
    a := a + [LoadForDenial(ID)];
  }

  /** After a the request stands denied; after b it stands executed, and two actions
      have been sent for it. */
  ghost predicate DeniedThenExecuted(a: seq<Event>, b: seq<Event>, id: string) {
    && Possible(START, a) && Extends(a, b)
    && id in Run(START, a).status && Run(START, a).status[id] == R.Denied
    && id in Run(START, b).status && Run(START, b).status[id] == R.Executed
    && exists d, e :: d != e && SentFor(Run(START, b), d, id) && SentFor(Run(START, b), e, id)
  }

  lemma ExampleActable()
    ensures Actable(REQUEST)
  {
    Text.TrimmedIsFixed(RESTART_APP);
    Text.TrimmedIsFixed("a");
    assert |Identifier("a")| == 1;
  }

  lemma SettleWrites(a: seq<Event>, h: nat) returns (b: seq<Event>)
    requires Possible(START, a) && CanSettle(Run(START, a), h)
    ensures Extends(a, b)
    ensures var w := Run(START, a); Run(START, b) == WrittenBy(w, h, R.Executed).(ticks := w.ticks + 1)
  {
    OneMore(a, Settle(h, true));
    b := a + [Settle(h, true)];
  }

  lemma DenyWrites(a: seq<Event>, n: nat) returns (b: seq<Event>)
    requires Possible(START, a) && CanDeny(Run(START, a), n)
    ensures Extends(a, b)
    ensures var w := Run(START, a); Run(START, b) == DeniedBy(w, n).(ticks := w.ticks + 1)
  {
    OneMore(a, Deny(n));
    b := a + [Deny(n)];
  }

  /** The second approval still waits, the first has acted. */
  ghost predicate HalfDone(w: World) {
    && |w.sys.handlers| == 2 && w.sys.handlers[0].request == REQUEST && w.sys.handlers[1] == C.Handler(REQUEST, None, "", C.Checking)
    && HasSent(w.sys, 0) && 1 in w.loadedAt && 1 !in w.written
  }

  lemma FirstActs() returns (a: seq<Event>)
    ensures Possible(START, a) && HalfDone(Run(START, a)) && CanSettle(Run(START, a), 0)
    ensures CanDeny(Run(START, a), 0) && Run(START, a).denials[0].requestId == ID
  {
    ExampleActable();
    var loaded := LoadAll();
    a := GoesOn(loaded, 0);
  }

  /** The first approval acts and settles, then the denial overwrites that. */
  lemma DeniedAfterAction() returns (a: seq<Event>)
    ensures Possible(START, a) && HalfDone(Run(START, a))
    ensures ID in Run(START, a).status && Run(START, a).status[ID] == R.Denied
  {
    var acted := FirstActs();
    var settled := SettleWrites(acted, 0);
    a := DenyWrites(settled, 0);
  }

  lemma SentStays(s: C.System, t: C.System, h: nat)
    requires HasSent(s, h) && s.sent <= t.sent
    ensures HasSent(t, h)
  {
    var d :| 0 <= d < |s.sent| && s.sent[d].handler == h;
    assert t.sent[d] == s.sent[d];
  }

  lemma BothActed(w: World)
    requires |w.sys.handlers| == 2 && w.sys.handlers[0].request == REQUEST && w.sys.handlers[1].request == REQUEST
    requires HasSent(w.sys, 0) && HasSent(w.sys, 1)
    ensures exists d, e :: d != e && SentFor(w, d, ID) && SentFor(w, e, ID)
  {
    var d :| 0 <= d < |w.sys.sent| && w.sys.sent[d].handler == 0;
    var e :| 0 <= e < |w.sys.sent| && w.sys.sent[e].handler == 1;
    assert SentFor(w, d, ID) && SentFor(w, e, ID);
  }

  lemma SecondActs(a: seq<Event>) returns (b: seq<Event>)
    requires Possible(START, a) && HalfDone(Run(START, a))
    ensures Extends(a, b) && ID in Run(START, b).status && Run(START, b).status[ID] == R.Executed
    ensures exists d, e :: d != e && SentFor(Run(START, b), d, ID) && SentFor(Run(START, b), e, ID)
  {
    ExampleActable();
    var again := GoesOn(a, 1);
    SentStays(Run(START, a).sys, Run(START, again).sys, 0);
    b := SettleWrites(again, 1);
    BothActed(Run(START, b));
  }

  /** Two approvals and a denial load a pending request; one approval acts and
      settles it, the denial overwrites that, and later the other approval acts too
      and settles it again. */
  lemma OverlapHappens()
    ensures exists a, b, id :: DeniedThenExecuted(a, b, id)
  {
    var denied := DeniedAfterAction();
    var settled := SecondActs(denied);
    assert DeniedThenExecuted(denied, settled, ID);
  }

  // ---------------------------------------------------------------------
  // Once for each decision
  // ---------------------------------------------------------------------

  /** Whose decision the event would write. */
  datatype Decider = Approver(handler: nat) | Denier(denial: nat)

  predicate WritesFor(w: World, e: Event, d: Decider) {
    match d
    case Approver(h) => (e.Settle? && e.handler == h) || (e.Reject? && e.handler == h)
    case Denier(n) => e.Deny? && e.denial == n
  }

  /** The decision has written. */
  predicate HasWritten(w: World, d: Decider) {
    match d
    case Approver(h) => h in w.written
    case Denier(n) => n < |w.denials| && w.denials[n].written
  }

  /** A decision that writes has written from then on, and one that has never writes
      again. */
  lemma WritesOnce(w: World, e: Event, id: string, d: Decider)
    requires Ok(w)
    ensures Writes(w, e, id) && WritesFor(w, e, d) ==> !HasWritten(w, d) && HasWritten(Step(w, e), d)
    ensures HasWritten(w, d) ==> HasWritten(Step(w, e), d)
  {
  }
}
