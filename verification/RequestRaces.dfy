/** Repair requests decided by several admins at once. Each decision loads the
    request, and only later, without looking again, writes it back: an approval
    after its action, a denial at once. Between the two, other decisions and all
    the other repair paths may run. */
module RequestRaces {
  import opened Models
  import opened RepairGates
  import opened Collections
  import C = RepairControl
  import U = RepairRuns
  import L = RepairLimiter
  import R = RepairRequests
  import Text

  /** A denial that has loaded its request, and whether it has written since. */
  datatype Denial = Denial(requestId: string, loadedAt: nat, written: bool)

  /** The repair paths, the stored statuses, which approvals have loaded and which
      have written back. ticks counts the events; settledAt says when a request was
      first written back. */
  datatype World = World(
    sys: C.System,
    status: map<string, R.RequestStatus>,
    ticks: nat,
    settledAt: map<string, nat>,
    loadedAt: map<nat, nat>,
    written: set<nat>,
    denials: seq<Denial>)

  const START := World(C.INITIAL, map[], 0, map[], map[], {}, [])

  /** Load, Act and Settle are an approval's steps, Reject is its end when the
      request's action is not supported; Act is any step of any path. */
  datatype Event =
    | File(requestId: string)
    | Load(handler: nat)
    | Act(step: C.Event)
    | Settle(handler: nat, ok: bool)
    | Reject(handler: nat)
    | LoadForDenial(requestId: string)
    | Deny(denial: nat)

  predicate IsDecision(w: World, h: nat) {
    h < |w.sys.handlers| && w.sys.handlers[h].request.Decision?
  }

  function RequestOf(w: World, h: nat): string
    requires IsDecision(w, h)
  {
    w.sys.handlers[h].request.requestId
  }

  predicate Supported(w: World, h: nat)
    requires IsDecision(w, h)
  {
    RestartsApp(w.sys.handlers[h].request.actionId)
  }

  predicate IsPending(w: World, id: string) {
    id in w.status && w.status[id] == R.Pending
  }

  /** An approval goes no further unless it has loaded the request pending. */
  predicate Applies(w: World, step: C.Event) {
    step.Check? && IsDecision(w, step.id) ==> step.id in w.loadedAt
  }

  /** The write replaces whatever status is stored by then. */
  function Written(w: World, id: string, status: R.RequestStatus): World {
    w.(status := w.status[id := status], settledAt := if id in w.settledAt then w.settledAt else w.settledAt[id := w.ticks])
  }

  ghost predicate HasSent(s: C.System, h: nat) {
    exists d :: 0 <= d < |s.sent| && s.sent[d].handler == h
  }

  /** An approval writes once, after its action. */
  ghost predicate CanSettle(w: World, h: nat) {
    IsDecision(w, h) && HasSent(w.sys, h) && h !in w.written
  }

  predicate CanReject(w: World, h: nat) {
    IsDecision(w, h) && h in w.loadedAt && w.sys.handlers[h].stage.Checking? && !Supported(w, h) && h !in w.written
  }

  predicate CanDeny(w: World, n: nat) {
    n < |w.denials| && !w.denials[n].written
  }

  function WrittenBy(w: World, h: nat, status: R.RequestStatus): World
    requires IsDecision(w, h)
  {
    Written(w, RequestOf(w, h), status).(written := w.written + {h})
  }

  function DeniedBy(w: World, n: nat): World
    requires n < |w.denials|
  {
    Written(w, w.denials[n].requestId, R.Denied).(denials := w.denials[n := w.denials[n].(written := true)])
  }

  ghost function Effect(w: World, e: Event): World {
    match e
    case File(id) => if id in w.status then w else w.(status := w.status[id := R.Pending])
    case Load(h) =>
      if IsDecision(w, h) && h !in w.loadedAt && IsPending(w, RequestOf(w, h)) then w.(loadedAt := w.loadedAt[h := w.ticks]) else w
    case Act(step) => if Applies(w, step) then w.(sys := C.Step(w.sys, step)) else w
    case Settle(h, ok) => if CanSettle(w, h) then WrittenBy(w, h, if ok then R.Executed else R.Failed) else w
    case Reject(h) => if CanReject(w, h) then WrittenBy(w, h, R.Failed) else w
    case LoadForDenial(id) => if IsPending(w, id) then w.(denials := w.denials + [Denial(id, w.ticks, false)]) else w
    case Deny(n) => if CanDeny(w, n) then DeniedBy(w, n) else w
  }

  /** The event writes the request's status. */
  ghost predicate Writes(w: World, e: Event, id: string) {
    match e
    case Settle(h, _) => CanSettle(w, h) && RequestOf(w, h) == id
    case Reject(h) => CanReject(w, h) && RequestOf(w, h) == id
    case Deny(n) => CanDeny(w, n) && w.denials[n].requestId == id
    case _ => false
  }

  ghost function Step(w: World, e: Event): World {
    var after := Effect(w, e);
    after.(ticks := w.ticks + 1)
  }

  ghost predicate Due(w: World, e: Event) {
    e.Act? ==> C.Due(w.sys, e.step)
  }

  // ---------------------------------------------------------------------
  // Every decision that goes on has loaded a request nobody had settled
  // ---------------------------------------------------------------------

  ghost predicate LoadedInTime(w: World, id: string, at: nat) {
    id in w.status && at < w.ticks && (id in w.settledAt ==> at < w.settledAt[id] < w.ticks)
  }

  ghost predicate StatusOk(w: World) {
    && (forall id :: id in w.status ==> (w.status[id] == R.Pending <==> id !in w.settledAt))
    && (forall id :: id in w.settledAt ==> id in w.status && w.settledAt[id] < w.ticks)
  }

  ghost predicate LoadsOk(w: World) {
    && (forall h :: h in w.loadedAt ==> IsDecision(w, h) && LoadedInTime(w, RequestOf(w, h), w.loadedAt[h]))
    && (forall n :: 0 <= n < |w.denials| ==> LoadedInTime(w, w.denials[n].requestId, w.denials[n].loadedAt))
  }

  /** What holds of the statuses and the loads, but for the repair paths. */
  ghost predicate StoreOk(w: World) {
    StatusOk(w) && LoadsOk(w)
  }

  ghost predicate GoingOk(w: World) {
    && (forall h :: 0 <= h < |w.sys.handlers| && IsDecision(w, h) && Going(w.sys.handlers[h]) ==> h in w.loadedAt)
    && (forall d :: 0 <= d < |w.sys.sent| && IsDecision(w, w.sys.sent[d].handler) ==> w.sys.sent[d].handler in w.loadedAt)
  }

  ghost predicate Ok(w: World) {
    C.Ok(w.sys) && StoreOk(w) && GoingOk(w)
  }

  /** Past its check, and not finished. */
  predicate Going(h: C.Handler) {
    C.CheckOf(h).Some?
  }

  /** No step changes what a handler was asked, and only a check gets one going. */
  lemma StepOnHandlers(s: C.System, step: C.Event)
    ensures var t := C.Step(s, step);
      && |s.handlers| <= |t.handlers|
      && (forall h :: 0 <= h < |s.handlers| ==> t.handlers[h].request == s.handlers[h].request)
      && (forall h :: 0 <= h < |t.handlers| && Going(t.handlers[h]) ==>
            h < |s.handlers| && (Going(s.handlers[h]) || (step.Check? && step.id == h)))
  {
  }

  lemma StepOnSent(s: C.System, step: C.Event)
    ensures var t := C.Step(s, step);
      && s.sent <= t.sent
      && (forall d :: |s.sent| <= d < |t.sent| ==> t.sent[d].handler < |s.handlers| && Going(s.handlers[t.sent[d].handler]))
  {
  }

  lemma ActLoads(w: World, step: C.Event)
    requires LoadsOk(w) && Applies(w, step)
    ensures LoadsOk(Step(w, Act(step)))
  {
    var t := Step(w, Act(step));
    StepOnHandlers(w.sys, step);
    forall h | h in t.loadedAt ensures IsDecision(t, h) && LoadedInTime(t, RequestOf(t, h), t.loadedAt[h]) {
      assert IsDecision(w, h) && LoadedInTime(w, RequestOf(w, h), w.loadedAt[h]);
    }
    forall n | 0 <= n < |t.denials| ensures LoadedInTime(t, t.denials[n].requestId, t.denials[n].loadedAt) {
      assert LoadedInTime(w, w.denials[n].requestId, w.denials[n].loadedAt);
    }
  }

  lemma ActGoing(w: World, step: C.Event)
    requires GoingOk(w) && C.SentOk(w.sys) && Applies(w, step)
    ensures GoingOk(Step(w, Act(step)))
  {
    var t := Step(w, Act(step));
    StepOnHandlers(w.sys, step);
    StepOnSent(w.sys, step);
    forall d | 0 <= d < |t.sys.sent| && IsDecision(t, t.sys.sent[d].handler) ensures t.sys.sent[d].handler in t.loadedAt {
      if d < |w.sys.sent| {
        assert t.sys.sent[d] == w.sys.sent[d];
        assert w.sys.sent[d].handler < |w.sys.handlers|;
      }
    }
  }

  lemma ActSystem(s: C.System, step: C.Event)
    requires C.Ok(s) && C.Due(s, step)
    ensures C.Ok(C.Step(s, step))
  {
    C.StepKeepsShared(s, step);
    C.StepKeepsGates(s, step);
    C.StepKeepsBookkeeping(s, step);
  }

  lemma ActKeeps(w: World, step: C.Event)
    requires Ok(w) && C.Due(w.sys, step) && Applies(w, step)
    ensures Ok(Step(w, Act(step)))
  {
    ActSystem(w.sys, step);
    ActLoads(w, step);
    ActGoing(w, step);
  }

  /** A write leaves all loads as they were. */
  lemma WriteKeeps(w: World, t: World, id: string, status: R.RequestStatus)
    requires StoreOk(w) && id in w.status && status != R.Pending
    requires t == Written(w, id, status).(ticks := w.ticks + 1, written := t.written, denials := t.denials)
    requires |t.denials| == |w.denials|
    requires forall n :: 0 <= n < |w.denials| ==> t.denials[n] == w.denials[n].(written := t.denials[n].written)
    ensures StoreOk(t)
  {
    forall h | h in t.loadedAt ensures IsDecision(t, h) && LoadedInTime(t, RequestOf(t, h), t.loadedAt[h]) {
      assert LoadedInTime(w, RequestOf(w, h), w.loadedAt[h]);
    }
    forall n | 0 <= n < |t.denials| ensures LoadedInTime(t, t.denials[n].requestId, t.denials[n].loadedAt) {
      assert LoadedInTime(w, w.denials[n].requestId, w.denials[n].loadedAt);
    }
  }

  /** The load is an old one, or made just now of a pending request. */
  ghost predicate LoadKnown(w: World, id: string, at: nat) {
    LoadedInTime(w, id, at) || (IsPending(w, id) && at == w.ticks)
  }

  /** Other events settle nothing: they file or load. */
  lemma LoadingKeeps(w: World, t: World)
    requires StoreOk(w) && t == w.(ticks := w.ticks + 1, status := t.status, loadedAt := t.loadedAt, denials := t.denials)
    requires w.status.Keys <= t.status.Keys && forall id :: id in t.status ==> t.status[id] == if id in w.status then w.status[id] else R.Pending
    requires forall h :: h in t.loadedAt ==> IsDecision(w, h) && LoadKnown(w, RequestOf(w, h), t.loadedAt[h])
    requires forall n :: 0 <= n < |t.denials| ==> LoadKnown(w, t.denials[n].requestId, t.denials[n].loadedAt)
    ensures StoreOk(t)
  {
    forall h | h in t.loadedAt ensures IsDecision(t, h) && LoadedInTime(t, RequestOf(t, h), t.loadedAt[h]) {
      assert LoadKnown(w, RequestOf(w, h), t.loadedAt[h]);
    }
  }

  lemma LoadsKeep(w: World, e: Event)
    requires StoreOk(w) && (e.File? || e.Load? || e.LoadForDenial?)
    ensures StoreOk(Step(w, e)) && Step(w, e).sys == w.sys
  {
    LoadingKeeps(w, Step(w, e));
  }

  lemma NothingKeeps(w: World)
    requires StoreOk(w)
    ensures StoreOk(w.(ticks := w.ticks + 1))
  {
    LoadingKeeps(w, w.(ticks := w.ticks + 1));
  }

  /** The other events leave the repair paths alone. */
  lemma OtherStore(w: World, e: Event)
    requires StoreOk(w) && GoingOk(w) && !e.Act?
    ensures StoreOk(Step(w, e)) && Step(w, e).sys == w.sys
  {
    NothingKeeps(w);
    match e
    case Settle(h, _) =>
      if CanSettle(w, h) {
        WritesKeep(w, e, RequestOf(w, h));
      }
    case Reject(h) =>
      if CanReject(w, h) {
        WritesKeep(w, e, RequestOf(w, h));
      }
    case Deny(n) =>
      if CanDeny(w, n) {
        WritesKeep(w, e, w.denials[n].requestId);
      }
    case _ => LoadsKeep(w, e);
  }

  lemma WritesKeep(w: World, e: Event, id: string)
    requires StoreOk(w) && GoingOk(w) && Writes(w, e, id)
    ensures StoreOk(Step(w, e)) && Step(w, e).sys == w.sys
  {
    match e
    case Settle(h, ok) =>
      SentHasLoaded(w, h);
      assert LoadedInTime(w, id, w.loadedAt[h]);
      WriteKeeps(w, Step(w, e), id, if ok then R.Executed else R.Failed);
    case Reject(h) =>
      assert LoadedInTime(w, id, w.loadedAt[h]);
      WriteKeeps(w, Step(w, e), id, R.Failed);
    case Deny(n) =>
      assert LoadedInTime(w, id, w.denials[n].loadedAt);
      WriteKeeps(w, Step(w, e), id, R.Denied);
  }

  lemma SentHasLoaded(w: World, h: nat)
    requires GoingOk(w) && IsDecision(w, h) && HasSent(w.sys, h)
    ensures h in w.loadedAt
  {
    var d :| 0 <= d < |w.sys.sent| && w.sys.sent[d].handler == h;
  }

  lemma OtherKeeps(w: World, e: Event)
    requires Ok(w) && !e.Act?
    ensures Ok(Step(w, e))
  {
    OtherStore(w, e);
    OtherGoing(w, e);
  }

  lemma OtherGoing(w: World, e: Event)
    requires GoingOk(w) && !e.Act?
    ensures GoingOk(Step(w, e))
  {
    var t := Step(w, e);
    assert t.sys == w.sys && w.loadedAt.Keys <= t.loadedAt.Keys;
  }

  lemma StepKeeps(w: World, e: Event)
    requires Ok(w) && Due(w, e)
    ensures Ok(Step(w, e))
  {
    if e.Act? {
      if Applies(w, e.step) {
        ActKeeps(w, e.step);
      } else {
        OtherKeeps(w, Deny(|w.denials|));
      }
    } else {
      OtherKeeps(w, e);
    }
  }

  ghost function Run(w: World, events: seq<Event>): World
    decreases |events|
  {
    if events == [] then w else Run(Step(w, events[0]), events[1..])
  }

  ghost predicate Possible(w: World, events: seq<Event>)
    decreases |events|
  {
    events == [] || (Due(w, events[0]) && Possible(Step(w, events[0]), events[1..]))
  }

  lemma {:induction false} RunKeeps(w: World, events: seq<Event>)
    requires Ok(w) && Possible(w, events)
    ensures Ok(Run(w, events))
    decreases |events|
  {
    if events != [] {
      StepKeeps(w, events[0]);
      RunKeeps(Step(w, events[0]), events[1..]);
    }
  }

  lemma {:induction false} AnyRun(events: seq<Event>)
    requires Possible(START, events)
    ensures Ok(Run(START, events))
  {
    U.AnyRun([]);
    RunKeeps(START, events);
  }

  /** The action was sent for this request. */
  ghost predicate SentFor(w: World, d: nat, id: string) {
    d < |w.sys.sent| && IsDecision(w, w.sys.sent[d].handler) && RequestOf(w, w.sys.sent[d].handler) == id
  }

  /** Over any interleaving: an approval acts only if it loaded the request before
      anybody first settled it. So two actions for one request mean two approvals
      that both loaded it in that time; and on the same app they are a minute apart. */
  lemma {:induction false} TwoActionsOverlap(events: seq<Event>, id: string, d: nat, e: nat)
    requires Possible(START, events) && SentFor(Run(START, events), d, id) && SentFor(Run(START, events), e, id) && d != e
    ensures var w := Run(START, events);
      var h, k := w.sys.sent[d].handler, w.sys.sent[e].handler;
      && h != k && h in w.loadedAt && k in w.loadedAt
      && (id in w.settledAt ==> w.loadedAt[h] < w.settledAt[id] && w.loadedAt[k] < w.settledAt[id])
      && w.sys.sent[d].slot < |w.sys.grants| && w.sys.sent[e].slot < |w.sys.grants|
      && (w.sys.sent[d].key == w.sys.sent[e].key ==>
            var x, y := U.ReservedAt(w.sys, d), U.ReservedAt(w.sys, e);
            x + MINUTE <= y || y + MINUTE <= x)
  {
    AnyRun(events);
    var w := Run(START, events);
    var s := w.sys;
    assert LoadedInTime(w, id, w.loadedAt[s.sent[d].handler]) && LoadedInTime(w, id, w.loadedAt[s.sent[e].handler]);
    assert C.HoldsSlot(s, s.handlers[s.sent[d].handler], s.sent[d].slot) && C.HoldsSlot(s, s.handlers[s.sent[e].handler], s.sent[e].slot);
    if s.sent[d].key == s.sent[e].key {
      U.KeyAndMinute(s, d, e);
    }
  }

  lemma OnlyWritesChange(w: World, e: Event, id: string)
    requires id in w.status && !Writes(w, e, id)
    ensures id in Step(w, e).status && Step(w, e).status[id] == w.status[id]
  {
  }

  /** A settled request changes again only through a decision that had loaded it
      before it was first settled. */
  lemma {:induction false} SettledAgain(events: seq<Event>, e: Event, id: string)
    requires Possible(START, events) && id in Run(START, events).settledAt && Writes(Run(START, events), e, id)
    ensures var w := Run(START, events);
      if e.Deny? then w.denials[e.denial].loadedAt < w.settledAt[id]
      else e.handler in w.loadedAt && w.loadedAt[e.handler] < w.settledAt[id]
  {
    AnyRun(events);
    var w := Run(START, events);
    if e.Deny? {
      assert LoadedInTime(w, id, w.denials[e.denial].loadedAt);
    } else {
      if e.Settle? {
        SentHasLoaded(w, e.handler);
      }
      assert LoadedInTime(w, id, w.loadedAt[e.handler]);
    }
  }
}
