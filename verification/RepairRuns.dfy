/** The limits, the gates and the single use of tokens, over every interleaving of
    the repair handlers. */
module RepairRuns {
  import opened Models
  import opened RepairGates
  import opened Collections
  import opened RepairControl
  import L = RepairLimiter
  import A = Approvals

  function Run(s: System, events: seq<Event>): System
    decreases |events|
  {
    if events == [] then s else Run(Step(s, events[0]), events[1..])
  }

  ghost predicate Possible(s: System, events: seq<Event>)
    decreases |events|
  {
    events == [] || (Due(s, events[0]) && Possible(Step(s, events[0]), events[1..]))
  }

  lemma {:induction false} RunKeeps(s: System, events: seq<Event>)
    requires Ok(s) && Possible(s, events)
    ensures Ok(Run(s, events))
    decreases |events|
  {
    if events != [] {
      StepKeepsShared(s, events[0]);
      StepKeepsGates(s, events[0]);
      StepKeepsBookkeeping(s, events[0]);
      RunKeeps(Step(s, events[0]), events[1..]);
    }
  }

  lemma {:induction false} AnyRun(events: seq<Event>)
    requires Possible(INITIAL, events)
    ensures Ok(Run(INITIAL, events))
  {
    assert Accepted([]) == [];
    RunKeeps(INITIAL, events);
  }

  /** When the action's reservation was granted. */
  function ReservedAt(s: System, d: nat): Time
    requires d < |s.sent| && s.sent[d].slot < |s.grants|
  {
    s.grants[s.sent[d].slot].at
  }

  /** Over any interleaving, every action sent has a granted reservation of its
      own key that no other action shares ... */
  lemma {:induction false} EveryActionReserved(events: seq<Event>)
    requires Possible(INITIAL, events)
    ensures var s := Run(INITIAL, events);
      && (forall d :: 0 <= d < |s.sent| ==> s.sent[d].slot < |s.grants| && s.grants[s.sent[d].slot].key == s.sent[d].key)
      && (forall d, e :: 0 <= d < e < |s.sent| ==> s.sent[d].slot != s.sent[e].slot)
  {
    AnyRun(events);
    var s := Run(INITIAL, events);
    forall d | 0 <= d < |s.sent| ensures s.sent[d].slot < |s.grants| && s.grants[s.sent[d].slot].key == s.sent[d].key {
      assert HoldsSlot(s, s.handlers[s.sent[d].handler], s.sent[d].slot);
    }
  }

  lemma KeyAndMinute(s: System, d: nat, e: nat)
    requires Ok(s) && d < |s.sent| && e < |s.sent| && d != e && s.sent[d].key == s.sent[e].key
    ensures s.sent[d].slot < |s.grants| && s.sent[e].slot < |s.grants|
    ensures ReservedAt(s, d) + MINUTE <= ReservedAt(s, e) || ReservedAt(s, e) + MINUTE <= ReservedAt(s, d)
  {
    assert HoldsSlot(s, s.handlers[s.sent[d].handler], s.sent[d].slot);
    assert HoldsSlot(s, s.handlers[s.sent[e].handler], s.sent[e].slot);
  }

  /** ... so, by reservation time, two actions on one key are a minute apart ... */
  lemma {:induction false} OnePerKeyAndMinute(events: seq<Event>, d: nat, e: nat)
    requires Possible(INITIAL, events)
    requires d < |Run(INITIAL, events).sent| && e < |Run(INITIAL, events).sent| && d != e
    requires Run(INITIAL, events).sent[d].key == Run(INITIAL, events).sent[e].key
    ensures var s := Run(INITIAL, events);
      && s.sent[d].slot < |s.grants| && s.sent[e].slot < |s.grants|
      && (ReservedAt(s, d) + MINUTE <= ReservedAt(s, e) || ReservedAt(s, e) + MINUTE <= ReservedAt(s, d))
  {
    AnyRun(events);
    KeyAndMinute(Run(INITIAL, events), d, e);
  }

  /** Every action sent is one its request is permitted by what its handler read, so
      all that PermissionMeans and PermittedExactly say holds of it; and on the token
      paths the token had been verified before, no later than its expiry, for its user,
      the current plan and a registered action. */
  lemma {:induction false} EveryActionGated(events: seq<Event>, d: nat)
    requires Possible(INITIAL, events) && d < |Run(INITIAL, events).sent|
    ensures var s := Run(INITIAL, events);
      var a := s.sent[d];
      && a.handler < |s.handlers| && a.check < |s.checks|
      && var c := s.checks[a.check];
         && c.request == s.handlers[a.handler].request && c.order.key == a.key
         && Permitted(c.request, c.facts) == Some(c.order)
         && MayBeSent(c.request, c.facts, c.order)
         && (OnApp(c.order.operation) ==> exists app :: AppAgrees(app, c.request, c.facts, c.order))
         && (NeedsToken(c.request) <==> a.permit.Some?)
         && (NeedsToken(c.request) ==> c.verifiedAt.Some? && TokenVerified(c.request, c.verifiedAt.value))
         && (NeedsToken(c.request) ==>
               var p := c.request.payload;
               p.actorId == c.request.actor && p.planId == A.PLAN_ID && IsRegistered(p.actionId) && c.verifiedAt.value <= A.Expiry(p))
  {
    AnyRun(events);
    var s := Run(INITIAL, events);
    var a := s.sent[d];
    var h := s.handlers[a.handler];
    assert HoldsCheck(s, h, a.check) && HoldsPermit(s, h, a.permit);
    assert CheckOk(s.checks[a.check]);
    PermissionMeans(s.checks[a.check].request, s.checks[a.check].facts);
    PermittedExactly(s.checks[a.check].request, s.checks[a.check].facts, s.checks[a.check].order);
  }

  /** The actions whose reservation fell into the hour beginning at t. */
  ghost function SentWithinHour(s: System, t: Time): set<nat>
    requires forall d :: 0 <= d < |s.sent| ==> s.sent[d].slot < |s.grants|
  {
    set d | 0 <= d < |s.sent| && t <= ReservedAt(s, d) < t + HOUR
  }

  /** ... and no hour sees more than five actions, on whatever paths. */
  lemma {:induction false} FivePerHour(events: seq<Event>, t: Time)
    requires Possible(INITIAL, events)
    ensures forall d :: 0 <= d < |Run(INITIAL, events).sent| ==> Run(INITIAL, events).sent[d].slot < |Run(INITIAL, events).grants|
    ensures |SentWithinHour(Run(INITIAL, events), t)| <= 5
  {
    EveryActionReserved(events);
    AnyRun(events);
    var s := Run(INITIAL, events);
    AtMostFive(s.grants, t);
    InjectiveImage(SentWithinHour(s, t), GrantedWithinHour(s.grants, t), s.sent);
  }

  ghost function GrantedWithinHour(grants: seq<L.Reservation>, t: Time): set<nat> {
    set g: nat | g < |grants| && t <= grants[g].at < t + HOUR
  }

  lemma FarApart(grants: seq<L.Reservation>, i: nat, j: nat)
    requires L.Spaced(grants) && forall a, b :: 0 <= a < b < |grants| ==> grants[a].at <= grants[b].at
    requires i < |grants| && j < |grants|
    ensures i + 5 <= j ==> grants[i].at + HOUR <= grants[j].at
  {
    assert i + 5 <= j ==> grants[i].at + HOUR <= grants[i + 5].at;
  }

  function Range(lo: nat, n: nat): (r: set<nat>)
    ensures |r| == n && forall i :: i in r <==> lo <= i < lo + n
  {
    if n == 0 then {} else Range(lo, n - 1) + {lo + n - 1}
  }

  lemma AtMostFive(grants: seq<L.Reservation>, t: Time)
    requires L.Spaced(grants) && forall i, j :: 0 <= i < j < |grants| ==> grants[i].at <= grants[j].at
    ensures |GrantedWithinHour(grants, t)| <= 5
  {
    var slots := GrantedWithinHour(grants, t);
    if slots != {} {
      var lo := Least(slots);
      forall g | g in slots ensures lo <= g < lo + 5 {
        FarApart(grants, lo, g);
      }
      SubsetSize(slots, Range(lo, 5));
    }
  }

  lemma {:induction false} Least(s: set<nat>) returns (lo: nat)
    requires s != {}
    ensures lo in s && forall x :: x in s ==> lo <= x
    decreases |s|
  {
    lo :| lo in s;
    var rest := s - {lo};
    if rest != {} {
      var other := Least(rest);
      assert forall x :: x in s ==> x == lo || x in rest;
      if other < lo {
        lo := other;
      }
    } else {
      assert forall x :: x in s ==> x == lo || x in rest;
    }
  }

  lemma {:induction false} InjectiveImage(ds: set<nat>, slots: set<nat>, sent: seq<Dispatch>)
    requires forall d :: d in ds ==> d < |sent| && sent[d].slot in slots
    requires forall d, e :: 0 <= d < e < |sent| ==> sent[d].slot != sent[e].slot
    ensures |ds| <= |slots|
    decreases |ds|
  {
    if ds != {} {
      var d :| d in ds;
      InjectiveImage(ds - {d}, slots - {sent[d].slot}, sent);
    }
  }

  /** The second permit is for the same token: it was verified while the token was
      good, and consumed when the first acceptance no longer guarded it. */
  predicate ReusedAfterExpiry(p: Permit, q: Permit) {
    A.Expiry(p.payload) <= q.at && q.verifiedAt <= A.Expiry(q.payload) && q.verifiedAt <= q.at
  }

  /** On the token paths every action also has an accepted token of its own; one
      token stands behind two actions only if the later handler verified it no later
      than its expiry and consumed it no earlier. */
  lemma {:induction false} OneActionPerToken(events: seq<Event>, d: nat, e: nat)
    requires Possible(INITIAL, events)
    requires var s := Run(INITIAL, events); d < e < |s.sent| && s.sent[d].permit.Some? && s.sent[e].permit.Some?
    ensures var s := Run(INITIAL, events);
      var i, j := s.sent[d].permit.value, s.sent[e].permit.value;
      && i < |s.permits| && j < |s.permits| && i != j
      && (SameToken(s.permits[i], s.permits[j]) ==>
            if i < j then ReusedAfterExpiry(s.permits[i], s.permits[j]) else ReusedAfterExpiry(s.permits[j], s.permits[i]))
  {
    AnyRun(events);
    var s := Run(INITIAL, events);
    assert HoldsPermit(s, s.handlers[s.sent[d].handler], s.sent[d].permit);
    assert HoldsPermit(s, s.handlers[s.sent[e].handler], s.sent[e].permit);
  }
}
