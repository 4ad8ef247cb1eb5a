/** Every path that runs a repair, interleaved step by step over the one limiter
    and the one replay guard. A handler verifies its token if it has one, reads its
    gates, consumes the token, reserves, and only then sends its action; other
    handlers may run between any two of these. */
module RepairControl {
  import opened Models
  import opened RepairGates
  import L = RepairLimiter
  import A = Approvals

  /** check is the number of the handler's passed check. */
  datatype Stage =
    | Checking
    | Passed(check: nat)
    | Cleared(check: nat, permit: Option<nat>)
    | Reserved(check: nat, permit: Option<nat>, slot: nat)
    | Finished

  /** One running handler; verifiedAt is when it verified its token, and key the
      limiter key of what it may send, once it has passed its check. */
  datatype Handler = Handler(request: Request, verifiedAt: Option<Instant>, key: string, stage: Stage)

  datatype PassedCheck = PassedCheck(request: Request, verifiedAt: Option<Instant>, facts: Facts, order: Order)
  datatype Permit = Permit(payload: A.Payload, verifiedAt: Instant, at: Instant)
  datatype Dispatch = Dispatch(handler: nat, check: nat, key: string, permit: Option<nat>, slot: nat)

  /** The limiter, the guard and the handlers, with the history of passed checks,
      granted reservations, accepted tokens and actions sent. */
  datatype System = System(
    limiter: L.Limiter,
    used: A.Used,
    handlers: seq<Handler>,
    limiterAt: Time,
    guardAt: Time,
    checks: seq<PassedCheck>,
    grants: seq<L.Reservation>,
    permits: seq<Permit>,
    sent: seq<Dispatch>)

  const INITIAL := System(L.EMPTY, map[], [], 0, 0, [], [], [], [])

  datatype Event =
    | Begin(request: Request)
    | Verify(id: nat, now: Instant)
    | Check(id: nat, facts: Facts)
    | Consume(id: nat, now: Instant)
    | Reserve(id: nat, now: Instant)
    | Send(id: nat)
    | ShowCooldown(key: string, now: Instant)

  predicate TokenVerified(r: Request, now: Instant) {
    NeedsToken(r) && A.Verified(r.payload, r.actor, IsRegistered, now)
  }

  /** Neither the limiter nor the guard sees its clock go back, nor does a handler
      from verifying its token to consuming it. */
  predicate Due(s: System, e: Event) {
    match e
    case Consume(id, now) =>
      s.guardAt <= now && (id < |s.handlers| && s.handlers[id].verifiedAt.Some? ==> s.handlers[id].verifiedAt.value <= now)
    case Reserve(_, now) => s.limiterAt <= now
    case ShowCooldown(_, now) => s.limiterAt <= now
    case _ => true
  }

  function At(s: System, id: nat, stage: Stage): System
    requires id < |s.handlers|
  {
    s.(handlers := s.handlers[id := s.handlers[id].(stage := stage)])
  }

  /** A token that does not verify ends the handler. */
  function Verifying(s: System, id: nat, now: Instant): System
    requires id < |s.handlers|
  {
    var h := s.handlers[id];
    if TokenVerified(h.request, now) then s.(handlers := s.handlers[id := h.(verifiedAt := Some(now))])
    else At(s, id, Finished)
  }

  /** A token path checks its gates once its token is verified, any other at once. */
  predicate MayCheck(h: Handler) {
    h.stage.Checking? && (NeedsToken(h.request) ==> h.verifiedAt.Some?)
  }

  /** Past its gates a handler goes on to its token, or straight to the limiter. */
  function Checked(s: System, id: nat, facts: Facts): System
    requires id < |s.handlers|
  {
    var h := s.handlers[id];
    var order := Permitted(h.request, facts);
    if order.None? then At(s, id, Finished) else Pass(s, id, PassedCheck(h.request, h.verifiedAt, facts, order.value))
  }

  function Pass(s: System, id: nat, c: PassedCheck): System
    requires id < |s.handlers|
  {
    var stage := if NeedsToken(c.request) then Passed(|s.checks|) else Cleared(|s.checks|, None);
    s.(handlers := s.handlers[id := s.handlers[id].(key := c.order.key, stage := stage)], checks := s.checks + [c])
  }

  function Consuming(s: System, id: nat, now: Instant): System
    requires id < |s.handlers| && s.handlers[id].stage.Passed? && CanConsume(s.handlers[id])
  {
    var h := s.handlers[id];
    var (used, ok) := A.Consumed(s.used, A.KeyOf(h.request.payload), A.Expiry(h.request.payload), now);
    if ok then
      At(s, id, Cleared(h.stage.check, Some(|s.permits|)))
        .(used := used, guardAt := now, permits := s.permits + [Permit(h.request.payload, h.verifiedAt.value, now)])
    else At(s, id, Finished).(used := used, guardAt := now)
  }

  predicate CanConsume(h: Handler) {
    NeedsToken(h.request) && h.verifiedAt.Some?
  }

  function Reserving(s: System, id: nat, now: Instant): System
    requires id < |s.handlers| && s.handlers[id].stage.Cleared?
  {
    var h := s.handlers[id];
    var (limiter, d) := L.Decided(s.limiter, h.key, now, true);
    if d.Allowed? then
      At(s, id, Reserved(h.stage.check, h.stage.permit, |s.grants|))
        .(limiter := limiter, limiterAt := now, grants := s.grants + [L.Reservation(h.key, now)])
    else At(s, id, Finished).(limiter := limiter, limiterAt := now)
  }

  function Sending(s: System, id: nat): System
    requires id < |s.handlers| && s.handlers[id].stage.Reserved?
  {
    var h := s.handlers[id];
    At(s, id, Finished).(sent := s.sent + [Dispatch(id, h.stage.check, h.key, h.stage.permit, h.stage.slot)])
  }

  /** An event that does not apply to the handler's stage changes nothing. */
  function Step(s: System, e: Event): System {
    match e
    case Begin(request) => s.(handlers := s.handlers + [Handler(request, None, "", Checking)])
    case Verify(id, now) =>
      if id < |s.handlers| && s.handlers[id].stage.Checking? && s.handlers[id].verifiedAt.None? then Verifying(s, id, now) else s
    case Check(id, facts) => if id < |s.handlers| && MayCheck(s.handlers[id]) then Checked(s, id, facts) else s
    case Consume(id, now) =>
      if id < |s.handlers| && s.handlers[id].stage.Passed? && CanConsume(s.handlers[id]) then Consuming(s, id, now) else s
    case Reserve(id, now) => if id < |s.handlers| && s.handlers[id].stage.Cleared? then Reserving(s, id, now) else s
    case Send(id) => if id < |s.handlers| && s.handlers[id].stage.Reserved? then Sending(s, id) else s
    case ShowCooldown(key, now) => s.(limiter := L.Decided(s.limiter, key, now, false).0, limiterAt := now)
  }

  // ---------------------------------------------------------------------
  // The shared structures agree with their histories
  // ---------------------------------------------------------------------

  function Accepted(permits: seq<Permit>): (r: seq<A.Acceptance>)
    ensures |r| == |permits|
    ensures forall i :: 0 <= i < |permits| ==> r[i] == A.Acceptance(A.KeyOf(permits[i].payload), A.Expiry(permits[i].payload))
  {
    seq(|permits|, i requires 0 <= i < |permits| => A.Acceptance(A.KeyOf(permits[i].payload), A.Expiry(permits[i].payload)))
  }

  predicate SameToken(p: Permit, q: Permit) {
    A.KeyOf(p.payload) == A.KeyOf(q.payload)
  }

  ghost predicate SharedOk(s: System) {
    && L.Reflects(s.limiter, s.grants, s.limiterAt) && L.Spaced(s.grants)
    && A.Reflects(s.used, Accepted(s.permits), s.guardAt)
    && forall i, j :: 0 <= i < j < |s.permits| && SameToken(s.permits[i], s.permits[j]) ==>
         A.Expiry(s.permits[i].payload) <= s.permits[j].at
  }

  lemma AcceptedSnoc(permits: seq<Permit>, p: Permit)
    ensures Accepted(permits + [p]) == Accepted(permits) + [A.Acceptance(A.KeyOf(p.payload), A.Expiry(p.payload))]
  {
  }

  /** A token is accepted exactly when no earlier acceptance of it is unexpired. */
  lemma ConsumeShared(s: System, id: nat, now: Instant)
    requires SharedOk(s) && s.guardAt <= now && id < |s.handlers| && s.handlers[id].stage.Passed? && CanConsume(s.handlers[id])
    ensures SharedOk(Consuming(s, id, now))
    ensures Consuming(s, id, now).handlers[id].stage.Cleared? <==>
      forall i :: 0 <= i < |s.permits| && A.KeyOf(s.permits[i].payload) == A.KeyOf(s.handlers[id].request.payload) ==>
        A.Expiry(s.permits[i].payload) <= now
  {
    var h := s.handlers[id];
    var key, expiry, log := A.KeyOf(h.request.payload), A.Expiry(h.request.payload), Accepted(s.permits);
    A.ConsumeAgrees(s.used, log, s.guardAt, key, expiry, now);
    AcceptedSnoc(s.permits, Permit(h.request.payload, h.verifiedAt.value, now));
    GuardedMeans(s.permits, key, now);
  }

  lemma GuardedMeans(permits: seq<Permit>, key: string, now: Time)
    ensures A.Guarded(Accepted(permits), key, now) <==>
      exists i :: 0 <= i < |permits| && A.KeyOf(permits[i].payload) == key && A.Expiry(permits[i].payload) > now
  {
    var log := Accepted(permits);
    if i :| 0 <= i < |permits| && A.KeyOf(permits[i].payload) == key && A.Expiry(permits[i].payload) > now {
      assert log[i].key == key && log[i].expiry > now;
    }
  }

  lemma ReserveShared(s: System, id: nat, now: Instant)
    requires SharedOk(s) && s.limiterAt <= now && id < |s.handlers| && s.handlers[id].stage.Cleared?
    ensures SharedOk(Reserving(s, id, now))
  {
    L.DecideAgrees(s.limiter, s.grants, s.limiterAt, s.handlers[id].key, now, true);
    L.ReservingKeepsSpacing(s.grants, s.handlers[id].key, now, true);
  }

  lemma SameShared(s: System, t: System)
    requires SharedOk(s)
    requires t.limiter == s.limiter && t.limiterAt == s.limiterAt && t.grants == s.grants
    requires t.used == s.used && t.guardAt == s.guardAt && t.permits == s.permits
    ensures SharedOk(t)
  {
  }

  lemma StepKeepsShared(s: System, e: Event)
    requires SharedOk(s) && Due(s, e)
    ensures SharedOk(Step(s, e))
  {
    match e
    case Consume(id, now) =>
      if id < |s.handlers| && s.handlers[id].stage.Passed? && CanConsume(s.handlers[id]) {
        ConsumeShared(s, id, now);
      }
    case Reserve(id, now) =>
      if id < |s.handlers| && s.handlers[id].stage.Cleared? {
        ReserveShared(s, id, now);
      }
    case ShowCooldown(key, now) =>
      L.DecideAgrees(s.limiter, s.grants, s.limiterAt, key, now, false);
    case Begin(_) => SameShared(s, Step(s, e));
    case Verify(_, _) => SameShared(s, Step(s, e));
    case Check(_, _) => SameShared(s, Step(s, e));
    case Send(_) => SameShared(s, Step(s, e));
  }

  // ---------------------------------------------------------------------
  // Tokens are verified before they are consumed, gates before anything is sent
  // ---------------------------------------------------------------------

  /** A handler's token has been verified, at an instant no later than its expiry. */
  ghost predicate VerifiedOk(s: System) {
    forall i :: 0 <= i < |s.handlers| && s.handlers[i].verifiedAt.Some? ==>
      TokenVerified(s.handlers[i].request, s.handlers[i].verifiedAt.value)
  }

  ghost predicate CheckOk(c: PassedCheck) {
    && Permitted(c.request, c.facts) == Some(c.order)
    && (NeedsToken(c.request) ==> c.verifiedAt.Some? && TokenVerified(c.request, c.verifiedAt.value))
  }

  ghost predicate ChecksOk(s: System) {
    forall i :: 0 <= i < |s.checks| ==> CheckOk(s.checks[i])
  }

  ghost predicate PermitsOk(s: System) {
    forall i :: 0 <= i < |s.permits| ==>
      s.permits[i].verifiedAt <= s.permits[i].at && s.permits[i].verifiedAt <= A.Expiry(s.permits[i].payload)
  }

  ghost predicate GatesOk(s: System) {
    VerifiedOk(s) && ChecksOk(s) && PermitsOk(s)
  }

  lemma ConsumingGates(s: System, id: nat, now: Instant)
    requires GatesOk(s) && id < |s.handlers| && s.handlers[id].stage.Passed? && CanConsume(s.handlers[id])
    requires s.handlers[id].verifiedAt.value <= now
    ensures GatesOk(Consuming(s, id, now))
  {
    assert TokenVerified(s.handlers[id].request, s.handlers[id].verifiedAt.value);
  }

  lemma CheckedGates(s: System, id: nat, facts: Facts)
    requires GatesOk(s) && id < |s.handlers| && MayCheck(s.handlers[id])
    ensures GatesOk(Checked(s, id, facts))
  {
    var h, t := s.handlers[id], Checked(s, id, facts);
    assert h.verifiedAt.Some? ==> TokenVerified(h.request, h.verifiedAt.value);
    forall i | 0 <= i < |t.handlers|
      ensures t.handlers[i].request == s.handlers[i].request && t.handlers[i].verifiedAt == s.handlers[i].verifiedAt
    {
    }
    SameVerified(s, t);
  }

  lemma SameVerified(s: System, t: System)
    requires VerifiedOk(s) && |t.handlers| == |s.handlers|
    requires forall i :: 0 <= i < |t.handlers| ==>
      t.handlers[i].request == s.handlers[i].request && t.handlers[i].verifiedAt == s.handlers[i].verifiedAt
    ensures VerifiedOk(t)
  {
  }

  lemma StepKeepsGates(s: System, e: Event)
    requires GatesOk(s) && Due(s, e)
    ensures GatesOk(Step(s, e))
  {
    var t := Step(s, e);
    match e
    case Begin(_) =>
    case Verify(_, _) =>
    case Check(id, facts) =>
      if id < |s.handlers| && MayCheck(s.handlers[id]) {
        CheckedGates(s, id, facts);
      }
    case Consume(id, now) =>
      if id < |s.handlers| && s.handlers[id].stage.Passed? && CanConsume(s.handlers[id]) {
        ConsumingGates(s, id, now);
      }
    case Reserve(_, _) => SameVerified(s, t);
    case Send(_) => SameVerified(s, t);
    case ShowCooldown(_, _) => SameVerified(s, t);
  }

  // ---------------------------------------------------------------------
  // Who holds what
  // ---------------------------------------------------------------------

  function CheckOf(h: Handler): Option<nat> {
    match h.stage
    case Passed(c) => Some(c)
    case Cleared(c, _) => Some(c)
    case Reserved(c, _, _) => Some(c)
    case _ => None
  }

  function PermitOf(h: Handler): Option<nat> {
    match h.stage
    case Cleared(_, p) => p
    case Reserved(_, p, _) => p
    case _ => None
  }

  /** The check was passed by this handler's request, for its key. */
  ghost predicate HoldsCheck(s: System, h: Handler, check: nat) {
    check < |s.checks| && s.checks[check].request == h.request && s.checks[check].order.key == h.key
  }

  ghost predicate HoldsPermit(s: System, h: Handler, permit: Option<nat>) {
    if NeedsToken(h.request) then permit.Some? && permit.value < |s.permits| && s.permits[permit.value].payload == h.request.payload
    else permit.None?
  }

  ghost predicate HoldsSlot(s: System, h: Handler, slot: nat) {
    slot < |s.grants| && s.grants[slot].key == h.key
  }

  ghost predicate HandlersOk(s: System) {
    && (forall i :: 0 <= i < |s.handlers| && CheckOf(s.handlers[i]).Some? ==>
          HoldsCheck(s, s.handlers[i], CheckOf(s.handlers[i]).value))
    && (forall i :: 0 <= i < |s.handlers| && (s.handlers[i].stage.Cleared? || s.handlers[i].stage.Reserved?) ==>
          HoldsPermit(s, s.handlers[i], PermitOf(s.handlers[i])))
    && (forall i :: 0 <= i < |s.handlers| && s.handlers[i].stage.Reserved? ==>
          HoldsSlot(s, s.handlers[i], s.handlers[i].stage.slot))
  }

  /** No two running handlers hold the same token or reservation. */
  ghost predicate HandlersApart(s: System) {
    && (forall i, j :: 0 <= i < j < |s.handlers| && PermitOf(s.handlers[i]).Some? ==>
          PermitOf(s.handlers[i]) != PermitOf(s.handlers[j]))
    && (forall i, j :: 0 <= i < j < |s.handlers| && s.handlers[i].stage.Reserved? && s.handlers[j].stage.Reserved? ==>
          s.handlers[i].stage.slot != s.handlers[j].stage.slot)
  }

  /** Every action sent belongs to a finished handler, to a check it passed, to a
      granted reservation of its own key, and on token paths to an accepted token. */
  ghost predicate SentOk(s: System) {
    forall d :: 0 <= d < |s.sent| ==>
      && s.sent[d].handler < |s.handlers|
      && var h := s.handlers[s.sent[d].handler];
         h.stage.Finished? && h.key == s.sent[d].key && HoldsCheck(s, h, s.sent[d].check)
         && HoldsPermit(s, h, s.sent[d].permit) && HoldsSlot(s, h, s.sent[d].slot)
  }

  /** No reservation and no token stands behind two actions, sent or pending. */
  ghost predicate OnePerSlot(s: System) {
    && (forall d, e :: 0 <= d < e < |s.sent| ==>
          && s.sent[d].slot != s.sent[e].slot && s.sent[d].handler != s.sent[e].handler
          && (s.sent[d].permit.Some? ==> s.sent[d].permit != s.sent[e].permit))
    && (forall d, i :: 0 <= d < |s.sent| && 0 <= i < |s.handlers| ==>
          && (s.handlers[i].stage.Reserved? ==> s.sent[d].slot != s.handlers[i].stage.slot)
          && (s.sent[d].permit.Some? ==> s.sent[d].permit != PermitOf(s.handlers[i])))
  }

  ghost predicate BookkeepingOk(s: System) {
    HandlersOk(s) && HandlersApart(s) && SentOk(s) && OnePerSlot(s)
  }

  /** A handler that has not finished has sent nothing. */
  lemma NotSentBy(s: System, id: nat)
    requires SentOk(s) && id < |s.handlers| && !s.handlers[id].stage.Finished?
    ensures forall d :: 0 <= d < |s.sent| ==> s.sent[d].handler != id
  {
    forall d | 0 <= d < |s.sent| ensures s.sent[d].handler != id {
      assert s.handlers[s.sent[d].handler].stage.Finished?;
    }
  }

  /** A running handler without token or reservation may change freely. */
  ghost predicate Unburdened(h: Handler) {
    PermitOf(h).None? && !h.stage.Reserved?
  }

  lemma FreeChange(s: System, t: System, id: nat)
    requires BookkeepingOk(s) && id < |s.handlers| && !s.handlers[id].stage.Finished?
    requires |t.handlers| == |s.handlers| && t.handlers == s.handlers[id := t.handlers[id]] && Unburdened(t.handlers[id])
    requires CheckOf(t.handlers[id]).Some? ==> HoldsCheck(t, t.handlers[id], CheckOf(t.handlers[id]).value)
    requires t.handlers[id].stage.Cleared? ==> !NeedsToken(t.handlers[id].request)
    requires s.checks <= t.checks && t.permits == s.permits && t.grants == s.grants && t.sent == s.sent
    ensures BookkeepingOk(t)
  {
    NotSentBy(s, id);
  }

  lemma FinishKeeps(s: System, id: nat)
    requires BookkeepingOk(s) && id < |s.handlers| && !s.handlers[id].stage.Finished?
    ensures BookkeepingOk(At(s, id, Finished))
  {
    FreeChange(s, At(s, id, Finished), id);
  }

  lemma CheckingKeeps(s: System, id: nat, facts: Facts)
    requires BookkeepingOk(s) && id < |s.handlers| && s.handlers[id].stage.Checking?
    ensures BookkeepingOk(Checked(s, id, facts))
  {
    var h, order := s.handlers[id], Permitted(s.handlers[id].request, facts);
    if order.None? {
      FinishKeeps(s, id);
    } else {
      PassKeeps(s, id, PassedCheck(h.request, h.verifiedAt, facts, order.value));
    }
  }

  lemma PassKeeps(s: System, id: nat, c: PassedCheck)
    requires BookkeepingOk(s) && id < |s.handlers| && s.handlers[id].stage.Checking? && c.request == s.handlers[id].request
    ensures BookkeepingOk(Pass(s, id, c))
  {
    FreeChange(s, Pass(s, id, c), id);
  }

  lemma VerifyingKeeps(s: System, id: nat, now: Instant)
    requires BookkeepingOk(s) && id < |s.handlers| && s.handlers[id].stage.Checking?
    ensures BookkeepingOk(Verifying(s, id, now))
  {
    FreeChange(s, Verifying(s, id, now), id);
  }

  /** Permits in use are below the number of permits handed out. */
  lemma PermitsKnown(s: System)
    requires HandlersOk(s) && SentOk(s)
    ensures forall i :: 0 <= i < |s.handlers| && PermitOf(s.handlers[i]).Some? ==> PermitOf(s.handlers[i]).value < |s.permits|
    ensures forall d :: 0 <= d < |s.sent| && s.sent[d].permit.Some? ==> s.sent[d].permit.value < |s.permits|
  {
    forall i | 0 <= i < |s.handlers| && PermitOf(s.handlers[i]).Some?
      ensures PermitOf(s.handlers[i]).value < |s.permits|
    {
      assert HoldsPermit(s, s.handlers[i], PermitOf(s.handlers[i]));
    }
    forall d | 0 <= d < |s.sent| && s.sent[d].permit.Some?
      ensures s.sent[d].permit.value < |s.permits|
    {
      assert HoldsPermit(s, s.handlers[s.sent[d].handler], s.sent[d].permit);
    }
  }

  function Admitted(s: System, id: nat, p: Permit): System
    requires id < |s.handlers| && s.handlers[id].stage.Passed?
  {
    At(s, id, Cleared(s.handlers[id].stage.check, Some(|s.permits|))).(permits := s.permits + [p])
  }

  lemma AdmitHandlers(s: System, id: nat, p: Permit)
    requires BookkeepingOk(s) && id < |s.handlers| && s.handlers[id].stage.Passed?
    requires NeedsToken(s.handlers[id].request) && p.payload == s.handlers[id].request.payload
    ensures HandlersOk(Admitted(s, id, p)) && HandlersApart(Admitted(s, id, p))
  {
    PermitsKnown(s);
    assert HoldsCheck(s, s.handlers[id], CheckOf(s.handlers[id]).value);
  }

  lemma AdmitKeeps(s: System, id: nat, p: Permit)
    requires BookkeepingOk(s) && id < |s.handlers| && s.handlers[id].stage.Passed?
    requires NeedsToken(s.handlers[id].request) && p.payload == s.handlers[id].request.payload
    ensures BookkeepingOk(Admitted(s, id, p))
  {
    PermitsKnown(s);
    AdmitHandlers(s, id, p);
    NotSentBy(s, id);
  }

  function Slotted(s: System, id: nat, r: L.Reservation): System
    requires id < |s.handlers| && s.handlers[id].stage.Cleared?
  {
    At(s, id, Reserved(s.handlers[id].stage.check, s.handlers[id].stage.permit, |s.grants|)).(grants := s.grants + [r])
  }

  lemma SlotHandlers(s: System, id: nat, r: L.Reservation)
    requires BookkeepingOk(s) && id < |s.handlers| && s.handlers[id].stage.Cleared? && r.key == s.handlers[id].key
    ensures HandlersOk(Slotted(s, id, r)) && HandlersApart(Slotted(s, id, r))
  {
    assert HoldsCheck(s, s.handlers[id], CheckOf(s.handlers[id]).value);
    assert HoldsPermit(s, s.handlers[id], PermitOf(s.handlers[id]));
  }

  lemma SlotKeeps(s: System, id: nat, r: L.Reservation)
    requires BookkeepingOk(s) && id < |s.handlers| && s.handlers[id].stage.Cleared? && r.key == s.handlers[id].key
    ensures BookkeepingOk(Slotted(s, id, r))
  {
    SlotHandlers(s, id, r);
    NotSentBy(s, id);
  }

  lemma SendKeepsOwners(s: System, id: nat)
    requires BookkeepingOk(s) && id < |s.handlers| && s.handlers[id].stage.Reserved?
    ensures HandlersOk(Sending(s, id)) && HandlersApart(Sending(s, id)) && SentOk(Sending(s, id))
  {
    var h, t := s.handlers[id], Sending(s, id);
    FinishKeeps(s, id);
    assert HoldsPermit(s, h, PermitOf(h)) && HoldsSlot(s, h, h.stage.slot) && HoldsCheck(s, h, h.stage.check);
    forall d | 0 <= d < |t.sent|
      ensures t.sent[d].handler < |t.handlers|
      ensures var o := t.handlers[t.sent[d].handler];
        o.stage.Finished? && o.key == t.sent[d].key && HoldsCheck(t, o, t.sent[d].check)
        && HoldsPermit(t, o, t.sent[d].permit) && HoldsSlot(t, o, t.sent[d].slot)
    {
      if d < |s.sent| {
        assert t.sent[d] == At(s, id, Finished).sent[d];
      }
    }
  }

  lemma SendKeepsOnePerSlot(s: System, id: nat)
    requires BookkeepingOk(s) && id < |s.handlers| && s.handlers[id].stage.Reserved?
    ensures OnePerSlot(Sending(s, id))
  {
    var h, t := s.handlers[id], Sending(s, id);
    NotSentBy(s, id);
    forall i | 0 <= i < |s.handlers| && i != id
      ensures s.handlers[i].stage.Reserved? ==> s.handlers[i].stage.slot != h.stage.slot
      ensures PermitOf(h).Some? ==> PermitOf(h) != PermitOf(s.handlers[i])
    {
      if i < id {
        assert PermitOf(s.handlers[i]).Some? ==> PermitOf(s.handlers[i]) != PermitOf(s.handlers[id]);
      }
    }
    assert t.sent == s.sent + [Dispatch(id, h.stage.check, h.key, PermitOf(h), h.stage.slot)];
  }

  lemma SameBooks(s: System, t: System)
    requires BookkeepingOk(s)
    requires t.handlers == s.handlers && t.checks == s.checks && t.permits == s.permits && t.grants == s.grants && t.sent == s.sent
    ensures BookkeepingOk(t)
  {
  }

  lemma ConsumingKeeps(s: System, id: nat, now: Instant)
    requires BookkeepingOk(s) && id < |s.handlers| && s.handlers[id].stage.Passed? && CanConsume(s.handlers[id])
    ensures BookkeepingOk(Consuming(s, id, now))
  {
    var h := s.handlers[id];
    var p := Permit(h.request.payload, h.verifiedAt.value, now);
    if Consuming(s, id, now).handlers[id].stage.Cleared? {
      AdmitKeeps(s, id, p);
      SameBooks(Admitted(s, id, p), Consuming(s, id, now));
    } else {
      FinishKeeps(s, id);
      SameBooks(At(s, id, Finished), Consuming(s, id, now));
    }
  }

  lemma ReservingKeeps(s: System, id: nat, now: Instant)
    requires BookkeepingOk(s) && id < |s.handlers| && s.handlers[id].stage.Cleared?
    ensures BookkeepingOk(Reserving(s, id, now))
  {
    var r := L.Reservation(s.handlers[id].key, now);
    if Reserving(s, id, now).handlers[id].stage.Reserved? {
      SlotKeeps(s, id, r);
      SameBooks(Slotted(s, id, r), Reserving(s, id, now));
    } else {
      FinishKeeps(s, id);
      SameBooks(At(s, id, Finished), Reserving(s, id, now));
    }
  }

  lemma BeginKeeps(s: System, request: Request)
    requires BookkeepingOk(s)
    ensures BookkeepingOk(Step(s, Begin(request)))
  {
    BeginHandlers(s, request);
    BeginSent(s, request);
  }

  lemma BeginHandlers(s: System, request: Request)
    requires BookkeepingOk(s)
    ensures HandlersOk(Step(s, Begin(request))) && HandlersApart(Step(s, Begin(request)))
  {
    var t := Step(s, Begin(request));
    forall i | 0 <= i < |s.handlers| ensures t.handlers[i] == s.handlers[i] {}
    assert Unburdened(t.handlers[|s.handlers|]);
  }

  lemma BeginSent(s: System, request: Request)
    requires BookkeepingOk(s)
    ensures SentOk(Step(s, Begin(request))) && OnePerSlot(Step(s, Begin(request)))
  {
    var t := Step(s, Begin(request));
    forall i | 0 <= i < |s.handlers| ensures t.handlers[i] == s.handlers[i] {}
    assert Unburdened(t.handlers[|s.handlers|]);
  }

  lemma StepKeepsBookkeeping(s: System, e: Event)
    requires BookkeepingOk(s)
    ensures BookkeepingOk(Step(s, e))
  {
    match e
    case Begin(request) => BeginKeeps(s, request);
    case ShowCooldown(_, _) => SameBooks(s, Step(s, e));
    case Verify(id, now) =>
      if id < |s.handlers| && s.handlers[id].stage.Checking? && s.handlers[id].verifiedAt.None? {
        VerifyingKeeps(s, id, now);
      }
    case Check(id, facts) =>
      if id < |s.handlers| && MayCheck(s.handlers[id]) {
        CheckingKeeps(s, id, facts);
      }
    case Consume(id, now) =>
      if id < |s.handlers| && s.handlers[id].stage.Passed? && CanConsume(s.handlers[id]) {
        ConsumingKeeps(s, id, now);
      }
    case Reserve(id, now) =>
      if id < |s.handlers| && s.handlers[id].stage.Cleared? {
        ReservingKeeps(s, id, now);
      }
    case Send(id) =>
      if id < |s.handlers| && s.handlers[id].stage.Reserved? {
        SendKeepsOwners(s, id);
        SendKeepsOnePerSlot(s, id);
      }
  }

  ghost predicate Ok(s: System) {
    SharedOk(s) && GatesOk(s) && BookkeepingOk(s)
  }
}
