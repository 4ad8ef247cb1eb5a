/** Repair requests of standard users: created pending, decided once by an admin,
    with at most one container action each. */
module RepairRequests {
  import opened Models
  import opened Collections
  import opened RepairGates
  import Text

  datatype RequestStatus = Pending | Denied | Executed | Failed

  datatype RepairRequest = RepairRequest(
    id: string,
    requesterId: string,
    appId: string,
    actionId: string,
    createdAt: Instant,
    status: RequestStatus,
    resolvedAt: Option<Instant>,
    resolvedBy: string,
    note: string)

  /** A call to the container client on behalf of a request. */
  datatype Action = Action(requestId: string, start: bool, ok: bool)

  datatype Board = Board(requests: seq<RepairRequest>, actions: seq<Action>)

  // ---------------------------------------------------------------------
  // Store lookups
  // ---------------------------------------------------------------------

  predicate HasId(requests: seq<RepairRequest>, id: string) {
    exists i :: 0 <= i < |requests| && requests[i].id == id
  }

  /** The first request with this id. */
  function ById(requests: seq<RepairRequest>, id: string): (r: Option<RepairRequest>)
    ensures r.Some? <==> HasId(requests, id)
    ensures r.Some? ==> r.value in requests && r.value.id == id
  {
    if requests == [] then None
    else if requests[0].id == id then Some(requests[0])
    else
      var r := ById(requests[1..], id);
      assert HasId(requests, id) ==> HasId(requests[1..], id) by {
        if HasId(requests, id) {
          var i :| 0 <= i < |requests| && requests[i].id == id;
          assert requests[1..][i - 1].id == id;
        }
      }
      r
  }

  predicate IsPendingFor(r: RepairRequest, requesterId: string, appId: string, actionId: string) {
    r.requesterId == requesterId && r.status == Pending && r.appId == appId && r.actionId == actionId
  }

  /** Replaces the first request with the same id, or appends. */
  function Upserted(requests: seq<RepairRequest>, r: RepairRequest): seq<RepairRequest> {
    if requests == [] then [r]
    else if requests[0].id == r.id then [r] + requests[1..]
    else [requests[0]] + Upserted(requests[1..], r)
  }

  lemma UpsertedFrom(requests: seq<RepairRequest>, r: RepairRequest, i: nat)
    requires i < |requests|
    ensures requests[..i] + Upserted(requests[i..], r) ==
      if requests[i].id == r.id then requests[i := r] else requests[..i + 1] + Upserted(requests[i + 1..], r)
  {
    Uncons(requests, i);
    if requests[i].id == r.id {
      assert requests[i := r] == requests[..i] + ([r] + requests[i + 1..]);
    } else {
      Snoc(requests, i);
      Associative(requests[..i], [requests[i]], Upserted(requests[i + 1..], r));
    }
  }

  // ---------------------------------------------------------------------
  // The two operations
  // ---------------------------------------------------------------------

  /** What the snapshot and the client answer is an input. fullApp is the id of
      the app the given id resolves to in the unfiltered snapshot. */
  datatype CreateInput = CreateInput(
    requesterId: string,
    appId: string,
    actionId: string,
    visible: bool,
    fullApp: Option<string>,
    controllable: bool,
    newId: string,
    now: Instant)

  datatype CreateResult = BadRequest | NotFound | Duplicate(request: RepairRequest) | Created(request: RepairRequest)

  datatype TargetApp = TargetApp(exited: bool, blacklisted: bool, repairAllowed: bool)

  datatype DecideInput = DecideInput(
    id: string,
    choice: string,
    note: string,
    actor: string,
    controlEnabled: bool,
    app: Option<TargetApp>,
    reviewAllows: bool,
    slotReserved: bool,
    clientSucceeds: bool,
    outcome: string,
    now: Instant)

  datatype DecideResult = BadChoice | NoSuchRequest | NotPending | Resolved(request: RepairRequest) | Refused

  function NewRequest(x: CreateInput): RepairRequest
    requires x.fullApp.Some?
  {
    RepairRequest(x.newId, x.requesterId, x.fullApp.value, RESTART_APP, x.now, Pending, None, "", "")
  }

  function WantedAction(x: CreateInput): string {
    if Text.TrimSpace(x.actionId) == "" then RESTART_APP else Text.TrimSpace(x.actionId)
  }

  function FindPending(requests: seq<RepairRequest>, requesterId: string, appId: string, actionId: string): (r: Option<RepairRequest>)
    ensures r.Some? ==> r.value in requests && IsPendingFor(r.value, requesterId, appId, actionId)
    ensures r.None? ==> forall q :: q in requests ==> !IsPendingFor(q, requesterId, appId, actionId)
  {
    if requests == [] then None
    else if IsPendingFor(requests[0], requesterId, appId, actionId) then Some(requests[0])
    else FindPending(requests[1..], requesterId, appId, actionId)
  }

  function CreateStep(b: Board, x: CreateInput): (Board, CreateResult) {
    if Text.TrimSpace(x.appId) == "" || !RestartsApp(WantedAction(x)) then (b, BadRequest)
    else if !x.visible || x.fullApp.None? then (b, NotFound)
    else if !x.controllable then (b, BadRequest)
    else
      var existing := FindPending(b.requests, x.requesterId, x.fullApp.value, RESTART_APP);
      if existing.Some? then (b, Duplicate(existing.value))
      else (b.(requests := Upserted(b.requests, NewRequest(x))), Created(NewRequest(x)))
  }

  function ResolvedAs(r: RepairRequest, status: RequestStatus, x: DecideInput, note: string): RepairRequest {
    r.(status := status, resolvedAt := Some(x.now), resolvedBy := x.actor, note := Text.TrimSpace(note))
  }

  function Resolve(b: Board, r: RepairRequest): Board {
    b.(requests := Upserted(b.requests, r))
  }

  predicate GatesPass(x: DecideInput) {
    && x.controlEnabled
    && x.app.Some? && !x.app.value.blacklisted && x.app.value.repairAllowed
    && x.reviewAllows && x.slotReserved
  }

  function Approve(b: Board, r: RepairRequest, x: DecideInput): (Board, DecideResult) {
    if !RestartsApp(r.actionId) then
      var failed := ResolvedAs(r, Failed, x, "Unsupported repair action.");
      (Resolve(b, failed), Resolved(failed))
    else if !GatesPass(x) then (b, Refused)
    else
      var acted := b.(actions := b.actions + [Action(r.id, x.app.value.exited, x.clientSucceeds)]);
      var done := ResolvedAs(r, if x.clientSucceeds then Executed else Failed, x, x.outcome);
      (Resolve(acted, done), Resolved(done))
  }

  function DecideStep(b: Board, x: DecideInput): (Board, DecideResult) {
    var choice := Text.TrimSpace(x.choice);
    if choice != "approve" && choice != "deny" then (b, BadChoice)
    else
      var found := ById(b.requests, Text.TrimSpace(x.id));
      if found.None? then (b, NoSuchRequest)
      else if found.value.status != Pending then (b, NotPending)
      else if choice == "deny" then
        var denied := ResolvedAs(found.value, Denied, x, x.note);
        (Resolve(b, denied), Resolved(denied))
      else Approve(b, found.value, x)
  }

  class RequestBoard {
    var requests: seq<RepairRequest>
    var actions: seq<Action>

    ghost function State(): Board
      reads this
    {
      Board(requests, actions)
    }

    constructor ()
      ensures State() == Board([], [])
    {
      requests, actions := [], [];
    }

    method Upsert(r: RepairRequest)
      modifies this
      ensures requests == Upserted(old(requests), r) && actions == old(actions)
    {
      for i := 0 to |requests|
        invariant requests == old(requests) && actions == old(actions)
        invariant Upserted(requests, r) == requests[..i] + Upserted(requests[i..], r)
      {
        UpsertedFrom(requests, r, i);
        if requests[i].id == r.id {
          requests := requests[i := r];
          return;
        }
      }
      assert requests[..|requests|] == requests;
      requests := requests + [r];
    }

    method Find(id: string) returns (r: Option<RepairRequest>)
      ensures r == ById(requests, id)
    {
      for i := 0 to |requests|
        invariant ById(requests, id) == ById(requests[i..], id)
      {
        assert requests[i..][1..] == requests[i + 1..];
        if requests[i].id == id {
          return Some(requests[i]);
        }
      }
      r := None;
    }

    method FindDuplicate(requesterId: string, appId: string, actionId: string) returns (r: Option<RepairRequest>)
      ensures r == FindPending(requests, requesterId, appId, actionId)
    {
      for i := 0 to |requests|
        invariant FindPending(requests, requesterId, appId, actionId) == FindPending(requests[i..], requesterId, appId, actionId)
      {
        assert requests[i..][1..] == requests[i + 1..];
        if IsPendingFor(requests[i], requesterId, appId, actionId) {
          return Some(requests[i]);
        }
      }
      r := None;
    }

    method Create(x: CreateInput) returns (result: CreateResult)
      modifies this
      ensures (State(), result) == CreateStep(old(State()), x)
    {
      if Text.TrimSpace(x.appId) == "" {
        return BadRequest;
      }
      var actionId := Text.TrimSpace(x.actionId);
      if actionId == "" {
        actionId := RESTART_APP;
      }
      if !RestartsApp(actionId) {
        return BadRequest;
      }
      if !x.visible || x.fullApp.None? {
        return NotFound;
      }
      if !x.controllable {
        return BadRequest;
      }
      var existing := FindDuplicate(x.requesterId, x.fullApp.value, RESTART_APP);
      if existing.Some? {
        return Duplicate(existing.value);
      }
      var request := NewRequest(x);
      Upsert(request);
      result := Created(request);
    }

    method Decide(x: DecideInput) returns (result: DecideResult)
      modifies this
      ensures (State(), result) == DecideStep(old(State()), x)
    {
      var choice := Text.TrimSpace(x.choice);
      if choice != "approve" && choice != "deny" {
        return BadChoice;
      }
      var found := Find(Text.TrimSpace(x.id));
      if found.None? {
        return NoSuchRequest;
      }
      var request := found.value;
      if request.status != Pending {
        return NotPending;
      }
      if choice == "deny" {
        var denied := ResolvedAs(request, Denied, x, x.note);
        Upsert(denied);
        return Resolved(denied);
      }
      if !RestartsApp(request.actionId) {
        var failed := ResolvedAs(request, Failed, x, "Unsupported repair action.");
        Upsert(failed);
        return Resolved(failed);
      }
      if !x.controlEnabled || x.app.None? || x.app.value.blacklisted || !x.app.value.repairAllowed {
        return Refused;
      }
      if !x.reviewAllows || !x.slotReserved {
        return Refused;
      }
      actions := actions + [Action(request.id, x.app.value.exited, x.clientSucceeds)];
      var status := Executed;
      if !x.clientSucceeds {
        status := Failed;
      }
      var done := ResolvedAs(request, status, x, x.outcome);
      Upsert(done);
      result := Resolved(done);
    }
  }

  // ---------------------------------------------------------------------
  // What every run keeps
  // ---------------------------------------------------------------------

  ghost predicate UniqueIds(requests: seq<RepairRequest>) {
    forall i, j :: 0 <= i < j < |requests| ==> requests[i].id != requests[j].id
  }

  ghost predicate OnePendingEach(requests: seq<RepairRequest>) {
    forall q, r :: q in requests && r in requests && IsPendingFor(q, r.requesterId, r.appId, r.actionId) && r.status == Pending ==>
      q == r
  }

  /** The request an action was for shows how it went. */
  ghost predicate Shown(requests: seq<RepairRequest>, a: Action) {
    exists r :: r in requests && r.id == a.requestId && r.status == (if a.ok then Executed else Failed)
  }

  ghost predicate Succeeded(actions: seq<Action>, id: string) {
    exists a :: a in actions && a.requestId == id && a.ok
  }

  /** A request's status tells exactly what was done for it. */
  ghost predicate ActionsMatch(b: Board) {
    && (forall i, j :: 0 <= i < j < |b.actions| ==> b.actions[i].requestId != b.actions[j].requestId)
    && (forall a :: a in b.actions ==> Shown(b.requests, a))
    && (forall r :: r in b.requests && r.status == Executed ==> Succeeded(b.actions, r.id))
  }

  ghost predicate Inv(b: Board) {
    UniqueIds(b.requests) && OnePendingEach(b.requests) && ActionsMatch(b)
  }

  /** Nothing but a pending status changes, and only to a final one. */
  ghost predicate Advances(before: RepairRequest, after: RepairRequest) {
    after == before
    || (before.status == Pending && after.status != Pending && after.resolvedAt.Some?
        && after == before.(status := after.status, resolvedAt := after.resolvedAt, resolvedBy := after.resolvedBy, note := after.note))
  }

  /** No request is lost, each one advances. */
  ghost predicate Forward(before: Board, after: Board) {
    && |before.requests| <= |after.requests|
    && (forall i :: 0 <= i < |before.requests| ==> Advances(before.requests[i], after.requests[i]))
    && before.actions <= after.actions
  }

  lemma {:induction false} UpsertedIs(requests: seq<RepairRequest>, r: RepairRequest)
    ensures !HasId(requests, r.id) ==> Upserted(requests, r) == requests + [r]
    ensures |Upserted(requests, r)| == if HasId(requests, r.id) then |requests| else |requests| + 1
  {
    if requests != [] && requests[0].id != r.id {
      UpsertedIs(requests[1..], r);
      if HasId(requests, r.id) {
        var i :| 0 <= i < |requests| && requests[i].id == r.id;
        assert requests[1..][i - 1].id == r.id;
      }
      if HasId(requests[1..], r.id) {
        var i :| 0 <= i < |requests[1..]| && requests[1..][i].id == r.id;
        assert requests[i + 1].id == r.id;
      }
    }
  }

  lemma {:induction false} UpsertedAt(requests: seq<RepairRequest>, r: RepairRequest, i: nat)
    requires UniqueIds(requests) && i < |requests| && requests[i].id == r.id
    ensures Upserted(requests, r) == requests[i := r]
  {
    if i > 0 {
      UpsertedAt(requests[1..], r, i - 1);
      assert requests[i := r] == [requests[0]] + requests[1..][i - 1 := r];
    } else {
      assert requests[0 := r] == [r] + requests[1..];
    }
  }

  lemma AddedRequests(requests: seq<RepairRequest>, r: RepairRequest)
    requires UniqueIds(requests) && OnePendingEach(requests) && !HasId(requests, r.id)
    requires forall q :: q in requests ==> !IsPendingFor(q, r.requesterId, r.appId, r.actionId)
    ensures UniqueIds(requests + [r]) && OnePendingEach(requests + [r])
  {
    forall i | 0 <= i < |requests| ensures requests[i].id != r.id {}
    forall q | q in requests + [r] ensures q in requests || q == r {}
  }

  lemma AddedActions(b: Board, r: RepairRequest)
    requires ActionsMatch(b) && r.status == Pending
    ensures ActionsMatch(b.(requests := b.requests + [r]))
  {
    forall a | a in b.actions ensures Shown(b.requests + [r], a) {
      assert Shown(b.requests, a);
      var q :| q in b.requests && q.id == a.requestId && q.status == (if a.ok then Executed else Failed);
      assert q in b.requests + [r];
    }
  }

  lemma CreateKeeps(b: Board, x: CreateInput)
    requires Inv(b) && !HasId(b.requests, x.newId)
    ensures Inv(CreateStep(b, x).0) && Forward(b, CreateStep(b, x).0)
  {
    var (after, result) := CreateStep(b, x);
    if result.Created? {
      var r := NewRequest(x);
      UpsertedIs(b.requests, r);
      assert after == b.(requests := b.requests + [r]);
      AddedRequests(b.requests, r);
      AddedActions(b, r);
    }
  }

  /** How a settled request and the action taken for it, if any, fit together. */
  ghost predicate Settles(r: RepairRequest, done: RepairRequest, acted: seq<Action>) {
    && r.status == Pending && done.status != Pending && Advances(r, done)
    && (acted == [] || (|acted| == 1 && acted[0].requestId == r.id))
    && (done.status == Executed <==> acted != [] && acted[0].ok)
    && (acted != [] && !acted[0].ok ==> done.status == Failed)
  }

  lemma SettledRequests(requests: seq<RepairRequest>, i: nat, done: RepairRequest)
    requires UniqueIds(requests) && OnePendingEach(requests)
    requires i < |requests| && done.id == requests[i].id && done.status != Pending
    ensures UniqueIds(requests[i := done]) && OnePendingEach(requests[i := done])
  {
    forall q | q in requests[i := done] && q.status == Pending ensures q in requests {}
  }

  lemma OthersStay(requests: seq<RepairRequest>, i: nat, done: RepairRequest, r: RepairRequest)
    requires i < |requests| && done.id == requests[i].id && r.id != done.id
    ensures r in requests <==> r in requests[i := done]
  {
    var after := requests[i := done];
    if r in requests {
      var j :| 0 <= j < |requests| && requests[j] == r;
      assert after[j] == r;
    }
  }

  lemma NoActionYet(b: Board, i: nat, a: Action)
    requires UniqueIds(b.requests) && ActionsMatch(b)
    requires i < |b.requests| && b.requests[i].status == Pending && a in b.actions
    ensures a.requestId != b.requests[i].id
  {
    assert Shown(b.requests, a);
    var r :| r in b.requests && r.id == a.requestId && r.status == (if a.ok then Executed else Failed);
    var j :| 0 <= j < |b.requests| && b.requests[j] == r;
    assert j != i;
  }

  lemma StillShown(b: Board, i: nat, done: RepairRequest, a: Action)
    requires UniqueIds(b.requests) && ActionsMatch(b) && a in b.actions
    requires i < |b.requests| && b.requests[i].status == Pending && done.id == b.requests[i].id
    ensures Shown(b.requests[i := done], a)
  {
    NoActionYet(b, i, a);
    assert Shown(b.requests, a);
    var r :| r in b.requests && r.id == a.requestId && r.status == (if a.ok then Executed else Failed);
    OthersStay(b.requests, i, done, r);
  }

  lemma SettledActions(b: Board, i: nat, done: RepairRequest, acted: seq<Action>)
    requires UniqueIds(b.requests) && ActionsMatch(b)
    requires i < |b.requests| && Settles(b.requests[i], done, acted)
    ensures ActionsMatch(Board(b.requests[i := done], b.actions + acted))
  {
    var requests, actions := b.requests[i := done], b.actions + acted;
    assert requests[i] == done;
    forall a | a in b.actions ensures a.requestId != done.id && Shown(requests, a) {
      NoActionYet(b, i, a);
      StillShown(b, i, done, a);
    }
    forall r | r in requests && r.status == Executed ensures Succeeded(actions, r.id) {
      if r == done {
        assert acted[0] in actions;
      } else {
        assert r in b.requests;
        var a :| a in b.actions && a.requestId == r.id && a.ok;
        assert a in actions;
      }
    }
  }

  /** Settling the pending request i, with or without an action. */
  lemma SettleKeeps(b: Board, r: RepairRequest, done: RepairRequest, acted: seq<Action>)
    requires Inv(b) && r in b.requests && Settles(r, done, acted)
    ensures var after := Board(Upserted(b.requests, done), b.actions + acted);
      Inv(after) && Forward(b, after)
  {
    var i :| 0 <= i < |b.requests| && b.requests[i] == r;
    UpsertedAt(b.requests, done, i);
    SettledRequests(b.requests, i, done);
    SettledActions(b, i, done, acted);
  }

  lemma ApproveKeeps(b: Board, r: RepairRequest, x: DecideInput)
    requires Inv(b) && r in b.requests && r.status == Pending
    ensures Inv(Approve(b, r, x).0) && Forward(b, Approve(b, r, x).0)
  {
    if !RestartsApp(r.actionId) {
      SettleKeeps(b, r, ResolvedAs(r, Failed, x, "Unsupported repair action."), []);
      assert b.actions + [] == b.actions;
    } else if GatesPass(x) {
      var done := ResolvedAs(r, if x.clientSucceeds then Executed else Failed, x, x.outcome);
      SettleKeeps(b, r, done, [Action(r.id, x.app.value.exited, x.clientSucceeds)]);
    }
  }

  lemma DecideKeeps(b: Board, x: DecideInput)
    requires Inv(b)
    ensures Inv(DecideStep(b, x).0) && Forward(b, DecideStep(b, x).0)
  {
    var found := ById(b.requests, Text.TrimSpace(x.id));
    if found.Some? && found.value.status == Pending {
      ApproveKeeps(b, found.value, x);
      SettleKeeps(b, found.value, ResolvedAs(found.value, Denied, x, x.note), []);
      assert b.actions + [] == b.actions;
    }
  }

  /** What an approval needs: control enabled, the app in the snapshot, not blacklisted
      and opted in, the safety review and a place in the limiter. */
  predicate MayAct(x: DecideInput) {
    match x.app
    case None => false
    case Some(app) => x.controlEnabled && app.repairAllowed && !app.blacklisted && x.reviewAllows && x.slotReserved
  }

  function Verdict(r: RepairRequest, x: DecideInput): RequestStatus {
    if Text.TrimSpace(x.choice) == "deny" then Denied
    else if Text.TrimSpace(x.choice) != "approve" then Pending
    else if Text.TrimSpace(r.actionId) != RESTART_APP then Failed
    else if !MayAct(x) then Pending
    else if x.clientSucceeds then Executed
    else Failed
  }

  /** A decision reaches exactly the pending request it names, wherever it is
      stored, and settles it by the choice, the gates and the client's answer. */
  lemma DecideMeans(b: Board, x: DecideInput, i: nat)
    requires Inv(b) && i < |b.requests|
    ensures |DecideStep(b, x).0.requests| == |b.requests|
    ensures var r, after := b.requests[i], DecideStep(b, x).0.requests[i];
      if r.id == Text.TrimSpace(x.id) && r.status == Pending
      then after.status == Verdict(r, x) && (after.status != Pending ==> after.resolvedBy == x.actor)
      else after == r
  {
    var found := ById(b.requests, Text.TrimSpace(x.id));
    if found.Some? {
      var j :| 0 <= j < |b.requests| && b.requests[j] == found.value;
      SettlesAt(b, x, j, i);
    }
  }

  lemma SettlesAt(b: Board, x: DecideInput, j: nat, i: nat)
    requires UniqueIds(b.requests) && j < |b.requests| && i < |b.requests|
    requires ById(b.requests, Text.TrimSpace(x.id)) == Some(b.requests[j])
    ensures |DecideStep(b, x).0.requests| == |b.requests|
    ensures var r, after := b.requests[i], DecideStep(b, x).0.requests[i];
      if i == j && r.status == Pending
      then after.status == Verdict(r, x) && (after.status != Pending ==> after.resolvedBy == x.actor)
      else after == r
  {
    var result := DecideStep(b, x).1;
    RestartsExactly(b.requests[j].actionId);
    if result.Resolved? {
      UpsertedAt(b.requests, result.request, j);
    }
  }

  datatype Op = Create(c: CreateInput) | Decide(d: DecideInput)

  function Step(b: Board, op: Op): Board {
    match op
    case Create(x) => CreateStep(b, x).0
    case Decide(x) => DecideStep(b, x).0
  }

  function Run(b: Board, ops: seq<Op>): Board
    decreases |ops|
  {
    if ops == [] then b else Run(Step(b, ops[0]), ops[1..])
  }

  /** Request ids come from a random source: none is drawn twice. */
  ghost predicate FreshIds(b: Board, ops: seq<Op>)
    decreases |ops|
  {
    ops == [] || ((ops[0].Create? ==> !HasId(b.requests, ops[0].c.newId)) && FreshIds(Step(b, ops[0]), ops[1..]))
  }

  lemma ForwardTransitive(a: Board, b: Board, c: Board)
    requires Forward(a, b) && Forward(b, c)
    ensures Forward(a, c)
  {
  }

  /** Over every sequential run: at most one pending request per requester, app
      and action; at most one action per request, recorded by its status; and
      no settled request ever changes again. */
  lemma {:induction false} RunKeeps(b: Board, ops: seq<Op>)
    requires Inv(b) && FreshIds(b, ops)
    ensures Inv(Run(b, ops)) && Forward(b, Run(b, ops))
    decreases |ops|
  {
    if ops != [] {
      var next := Step(b, ops[0]);
      match ops[0] {
        case Create(x) => CreateKeeps(b, x);
        case Decide(x) => DecideKeeps(b, x);
      }
      RunKeeps(next, ops[1..]);
      ForwardTransitive(b, next, Run(next, ops[1..]));
    }
  }

  // ---------------------------------------------------------------------
  // What every action took
  // ---------------------------------------------------------------------

  /** The decision is an approval with leave to act, on a request for a restart that is
      pending. */
  ghost predicate ActsOn(b: Board, x: DecideInput, r: RepairRequest) {
    && r in b.requests && r.id == Text.TrimSpace(x.id) && r.status == Pending
    && Text.TrimSpace(r.actionId) == RESTART_APP && Text.TrimSpace(x.choice) == "approve" && MayAct(x)
  }

  /** A decision sends an action exactly when it may; and then it starts the app if the
      app has exited, and restarts it otherwise. */
  lemma DecideActs(b: Board, x: DecideInput)
    requires UniqueIds(b.requests)
    ensures var after := DecideStep(b, x).0;
      if exists r :: ActsOn(b, x, r)
      then x.app.Some? && after.actions == b.actions + [Action(Text.TrimSpace(x.id), x.app.value.exited, x.clientSucceeds)]
      else after.actions == b.actions
  {
    var found := ById(b.requests, Text.TrimSpace(x.id));
    if found.Some? {
      RestartsExactly(found.value.actionId);
    }
    if r :| ActsOn(b, x, r) {
      var i :| 0 <= i < |b.requests| && b.requests[i] == r;
      assert HasId(b.requests, r.id);
      var j :| 0 <= j < |b.requests| && b.requests[j] == found.value;
      assert i == j;
    } else if found.Some? {
      assert !ActsOn(b, x, found.value);
    }
  }

  /** The action was sent by an approval with leave to act, for its request, starting the
      app exactly when it had exited. */
  ghost predicate HadLeave(a: Action, op: Op) {
    && op.Decide? && MayAct(op.d) && Text.TrimSpace(op.d.choice) == "approve"
    && a == Action(Text.TrimSpace(op.d.id), op.d.app.value.exited, op.d.clientSucceeds)
  }

  ghost predicate AllHadLeave(b: Board, before: Board, ops: seq<Op>) {
    && before.actions <= b.actions
    && forall i :: |before.actions| <= i < |b.actions| ==> exists n :: 0 <= n < |ops| && HadLeave(b.actions[i], ops[n])
  }

  lemma StepHadLeave(b: Board, op: Op)
    requires UniqueIds(b.requests)
    ensures b.actions == Step(b, op).actions || exists a :: Step(b, op).actions == b.actions + [a] && HadLeave(a, op)
  {
    if op.Decide? {
      DecideActs(b, op.d);
      if r :| ActsOn(b, op.d, r) {
        var a := Action(Text.TrimSpace(op.d.id), op.d.app.value.exited, op.d.clientSucceeds);
        assert HadLeave(a, op);
      }
    }
  }

  /** Over every sequential run: every action sent had leave, and is the one its app's
      state calls for. */
  lemma {:induction false} EveryActionHadLeave(b: Board, ops: seq<Op>)
    requires Inv(b) && FreshIds(b, ops)
    ensures AllHadLeave(Run(b, ops), b, ops)
    decreases |ops|
  {
    if ops != [] {
      var next := Step(b, ops[0]);
      StepHadLeave(b, ops[0]);
      match ops[0] {
        case Create(x) => CreateKeeps(b, x);
        case Decide(x) => DecideKeeps(b, x);
      }
      EveryActionHadLeave(next, ops[1..]);
      var end := Run(next, ops[1..]);
      forall i | |b.actions| <= i < |end.actions| ensures exists n :: 0 <= n < |ops| && HadLeave(end.actions[i], ops[n]) {
        if i < |next.actions| {
          assert end.actions[i] == next.actions[i];
          assert HadLeave(end.actions[i], ops[0]);
        } else {
          var n :| 0 <= n < |ops[1..]| && HadLeave(end.actions[i], ops[1..][n]);
          assert HadLeave(end.actions[i], ops[n + 1]);
        }
      }
    }
  }

  // ---------------------------------------------------------------------
  // What a creation answers
  // ---------------------------------------------------------------------

  /** A pending request like the one asked for. */
  ghost predicate IsLike(r: RepairRequest, b: Board, x: CreateInput) {
    && r in b.requests && r.status == Pending && r.actionId == RESTART_APP
    && r.requesterId == x.requesterId && x.fullApp == Some(r.appId)
  }

  /** What can be asked for: a restart of an app that is named. */
  predicate Asks(x: CreateInput) {
    && Text.TrimSpace(x.appId) != ""
    && (Text.TrimSpace(x.actionId) == "" || Text.TrimSpace(x.actionId) == RESTART_APP)
  }

  lemma AsksForRestart(x: CreateInput)
    ensures RestartsApp(WantedAction(x)) <==> Text.TrimSpace(x.actionId) == "" || Text.TrimSpace(x.actionId) == RESTART_APP
  {
    RestartsExactly(WantedAction(x));
    Text.TrimmedIsFixed(RESTART_APP);
    Text.TrimmedIsFixed(Text.TrimSpace(x.actionId));
  }

  /** Asking is refused without an app, for another action than a restart, and for an app
      that cannot be restarted, and not found for one that the user or the server cannot
      see. */
  lemma RefusedWhen(b: Board, x: CreateInput)
    ensures var result, seen := CreateStep(b, x).1, x.visible && x.fullApp.Some?;
      && (result.BadRequest? <==> !Asks(x) || (seen && !x.controllable))
      && (result.NotFound? <==> Asks(x) && !seen)
  {
    AsksForRestart(x);
  }

  lemma OnlyCreatedStores(b: Board, x: CreateInput)
    ensures !CreateStep(b, x).1.Created? ==> CreateStep(b, x).0 == b
  {
  }

  lemma FindsLike(b: Board, x: CreateInput)
    requires x.fullApp.Some?
    ensures var found := FindPending(b.requests, x.requesterId, x.fullApp.value, RESTART_APP);
      && (found.Some? ==> IsLike(found.value, b, x))
      && (found.None? ==> forall r :: !IsLike(r, b, x))
  {
  }

  /** Otherwise a pending request like it is returned instead of a new one; and only if
      there is none is a new one stored, pending, for the requester, the app found and a
      restart. */
  lemma CreateMeans(b: Board, x: CreateInput)
    requires UniqueIds(b.requests) && !HasId(b.requests, x.newId)
    requires Asks(x) && x.visible && x.fullApp.Some? && x.controllable
    ensures var (after, result) := CreateStep(b, x);
      && (result.Duplicate? <==> exists r :: IsLike(r, b, x))
      && (result.Duplicate? ==> IsLike(result.request, b, x) && after == b)
      && (!result.Duplicate? ==>
            && result == Created(RepairRequest(x.newId, x.requesterId, x.fullApp.value, RESTART_APP, x.now, Pending, None, "", ""))
            && after == b.(requests := b.requests + [result.request]))
  {
    AsksForRestart(x);
    FindsLike(b, x);
    UpsertedIs(b.requests, NewRequest(x));
  }
}
