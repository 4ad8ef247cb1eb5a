/** Repair requests filed at the same time. A handler first looks for a pending
    request of the same requester, app and action, and later, in a second call to the
    store, files its own; other handlers may do either, or settle requests, between. */
module RequestFiling {
  import opened Models
  import opened Collections
  import opened RepairRequests
  import RepairGates
  import Text

  /** A handler that has found no duplicate, and whether it has filed since. */
  datatype Filing = Filing(x: CreateInput, lookedAt: nat, filed: bool)

  /** The stored requests and the handlers; ticks counts the events, and for every
      request filed the times of its handler's look and of the filing are kept. */
  datatype World = World(
    requests: seq<RepairRequest>,
    filings: seq<Filing>,
    ticks: nat,
    lookedAt: map<string, nat>,
    filedAt: map<string, nat>)

  const START := World([], [], 0, map[], map[])

  datatype Event =
    | LookUp(x: CreateInput)
    | File(n: nat)
    | Settle(done: RepairRequest)

  /** What is checked before the look for a duplicate. */
  predicate Accepts(x: CreateInput) {
    && Text.TrimSpace(x.appId) != "" && RepairGates.RestartsApp(WantedAction(x))
    && x.visible && x.fullApp.Some? && x.controllable
  }

  predicate IsPendingLike(q: RepairRequest, x: CreateInput)
    requires x.fullApp.Some?
  {
    IsPendingFor(q, x.requesterId, x.fullApp.value, RepairGates.RESTART_APP)
  }

  predicate Passes(w: World, x: CreateInput) {
    Accepts(x) && FindPending(w.requests, x.requesterId, x.fullApp.value, RepairGates.RESTART_APP).None?
  }

  predicate CanFile(w: World, n: nat) {
    n < |w.filings| && !w.filings[n].filed && w.filings[n].x.fullApp.Some?
  }

  function Filed(w: World, n: nat): World
    requires CanFile(w, n)
  {
    var f := w.filings[n];
    w.(requests := Upserted(w.requests, NewRequest(f.x)), filings := w.filings[n := f.(filed := true)],
       lookedAt := w.lookedAt[f.x.newId := f.lookedAt], filedAt := w.filedAt[f.x.newId := w.ticks])
  }

  /** A decision's write, by whatever decision: the status is final. */
  function Effect(w: World, e: Event): World {
    match e
    case LookUp(x) => if Passes(w, x) then w.(filings := w.filings + [Filing(x, w.ticks, false)]) else w
    case File(n) => if CanFile(w, n) then Filed(w, n) else w
    case Settle(done) => if HasId(w.requests, done.id) && done.status != Pending then w.(requests := Upserted(w.requests, done)) else w
  }

  function Step(w: World, e: Event): World {
    var after := Effect(w, e);
    after.(ticks := w.ticks + 1)
  }

  /** Request ids are random: none is drawn twice. */
  predicate Due(w: World, e: Event) {
    e.File? && CanFile(w, e.n) ==> !HasId(w.requests, w.filings[e.n].x.newId) && w.filings[e.n].x.newId !in w.filedAt
  }

  /** Undisturbed, the two calls do what the board's Create does. */
  lemma UndisturbedIsCreate(w: World, actions: seq<Action>, x: CreateInput)
    ensures var looked := Step(w, LookUp(x));
      Step(looked, File(|w.filings|)).requests == CreateStep(Board(w.requests, actions), x).0.requests
  {
  }

  // ---------------------------------------------------------------------
  // What any interleaving keeps
  // ---------------------------------------------------------------------

  ghost predicate TimesOk(w: World) {
    && w.lookedAt.Keys == w.filedAt.Keys
    && (forall id :: id in w.filedAt ==> w.lookedAt[id] < w.filedAt[id] < w.ticks)
    && (forall q :: q in w.requests ==> q.id in w.filedAt)
    && (forall n :: 0 <= n < |w.filings| ==> w.filings[n].lookedAt < w.ticks && w.filings[n].x.fullApp.Some?)
  }

  /** A handler that has not filed yet found no request that is pending now: any such
      one of its requester, app and action was filed after the look. */
  ghost predicate FilingOk(w: World, f: Filing)
    requires f.x.fullApp.Some?
  {
    forall q :: q in w.requests && IsPendingLike(q, f.x) ==> q.id in w.filedAt && f.lookedAt < w.filedAt[q.id]
  }

  ghost predicate SameAsk(q: RepairRequest, r: RepairRequest) {
    q.status == Pending && IsPendingFor(r, q.requesterId, q.appId, q.actionId)
  }

  /** Each of the two was looked for before the other was filed. */
  ghost predicate Overlap(w: World, q: RepairRequest, r: RepairRequest) {
    && q.id in w.filedAt && r.id in w.filedAt && q.id in w.lookedAt && r.id in w.lookedAt
    && w.lookedAt[q.id] < w.filedAt[r.id] && w.lookedAt[r.id] < w.filedAt[q.id]
  }

  ghost predicate PairsOk(w: World) {
    forall q, r :: q in w.requests && r in w.requests && q != r && SameAsk(q, r) ==> Overlap(w, q, r)
  }

  ghost predicate Ok(w: World) {
    && UniqueIds(w.requests) && TimesOk(w) && PairsOk(w)
    && forall n :: 0 <= n < |w.filings| && !w.filings[n].filed ==> FilingOk(w, w.filings[n])
  }

  lemma FiledRequests(w: World, n: nat)
    requires Ok(w) && CanFile(w, n) && Due(w, File(n))
    ensures var t, r := Step(w, File(n)), NewRequest(w.filings[n].x);
      && t.requests == w.requests + [r] && UniqueIds(t.requests)
      && (forall q :: q in t.requests <==> q in w.requests || q == r)
      && (forall q :: q in w.requests ==> q.id != r.id)
  {
    var t, r := Step(w, File(n)), NewRequest(w.filings[n].x);
    UpsertedIs(w.requests, r);
    forall i, j | 0 <= i < j < |t.requests| ensures t.requests[i].id != t.requests[j].id {
      assert j == |w.requests| ==> t.requests[i] == w.requests[i];
    }
    forall q | q in w.requests ensures q in t.requests && q.id != r.id {}
    assert t.requests[|w.requests|] == r;
  }

  lemma FiledPairs(w: World, n: nat)
    requires Ok(w) && CanFile(w, n) && Due(w, File(n))
    ensures PairsOk(Step(w, File(n)))
  {
    var t, f := Step(w, File(n)), w.filings[n];
    FiledRequests(w, n);
    assert FilingOk(w, f);
    forall q, r | q in t.requests && r in t.requests && q != r && SameAsk(q, r) ensures Overlap(t, q, r) {
      if q in w.requests && r in w.requests {
        assert Overlap(w, q, r);
      } else if q in w.requests {
        assert IsPendingLike(q, f.x);
      } else {
        assert IsPendingLike(r, f.x);
      }
    }
  }

  lemma FileKeeps(w: World, n: nat)
    requires Ok(w) && CanFile(w, n) && Due(w, File(n))
    ensures Ok(Step(w, File(n)))
  {
    var t := Step(w, File(n));
    FiledRequests(w, n);
    FiledPairs(w, n);
    forall m | 0 <= m < |t.filings| && !t.filings[m].filed ensures FilingOk(t, t.filings[m]) {
      assert FilingOk(w, w.filings[m]);
    }
  }

  lemma LookUpKeeps(w: World, x: CreateInput)
    requires Ok(w)
    ensures Ok(Step(w, LookUp(x)))
  {
    var t := Step(w, LookUp(x));
    forall n | 0 <= n < |t.filings| && !t.filings[n].filed ensures t.filings[n].x.fullApp.Some? && FilingOk(t, t.filings[n]) {
      assert n < |w.filings| ==> FilingOk(w, w.filings[n]);
    }
    assert PairsOk(t);
  }

  /** A settled request is no longer pending, and the others stay. */
  lemma SettledIsThere(requests: seq<RepairRequest>, done: RepairRequest)
    requires UniqueIds(requests) && HasId(requests, done.id)
    ensures UniqueIds(Upserted(requests, done))
    ensures forall q :: q in Upserted(requests, done) ==> q == done || q in requests
    ensures forall q :: q in Upserted(requests, done) ==> exists r :: r in requests && r.id == q.id
  {
    var i :| 0 <= i < |requests| && requests[i].id == done.id;
    UpsertedAt(requests, done, i);
    forall q | q in Upserted(requests, done) ensures exists r :: r in requests && r.id == q.id {
      assert q in requests || (requests[i] in requests && requests[i].id == q.id);
    }
  }

  lemma SettleKeeps(w: World, done: RepairRequest)
    requires Ok(w)
    ensures Ok(Step(w, Settle(done)))
  {
    var t := Step(w, Settle(done));
    if HasId(w.requests, done.id) && done.status != Pending {
      SettledIsThere(w.requests, done);
    }
    assert PairsOk(t);
    forall n | 0 <= n < |t.filings| && !t.filings[n].filed ensures FilingOk(t, t.filings[n]) {
      assert FilingOk(w, w.filings[n]);
    }
  }

  lemma StepKeeps(w: World, e: Event)
    requires Ok(w) && Due(w, e)
    ensures Ok(Step(w, e))
  {
    match e
    case LookUp(x) => LookUpKeeps(w, x);
    case File(n) =>
      if CanFile(w, n) {
        FileKeeps(w, n);
      } else {
        NothingKeeps(w);
      }
    case Settle(done) => SettleKeeps(w, done);
  }

  lemma NothingKeeps(w: World)
    requires Ok(w)
    ensures Ok(w.(ticks := w.ticks + 1))
  {
    var t := w.(ticks := w.ticks + 1);
    assert PairsOk(t);
    forall n | 0 <= n < |t.filings| && !t.filings[n].filed ensures FilingOk(t, t.filings[n]) {
      assert FilingOk(w, w.filings[n]);
    }
  }

  /** The world after the first n events. */
  function After(events: seq<Event>, n: nat): World
    requires n <= |events|
  {
    if n == 0 then START else Step(After(events, n - 1), events[n - 1])
  }

  ghost predicate Possible(events: seq<Event>) {
    forall n :: 0 <= n < |events| ==> Due(After(events, n), events[n])
  }

  lemma {:induction false} AnyRun(events: seq<Event>, n: nat)
    requires Possible(events) && n <= |events|
    ensures Ok(After(events, n))
    decreases n
  {
    if n > 0 {
      AnyRun(events, n - 1);
      StepKeeps(After(events, n - 1), events[n - 1]);
    }
  }

  /** Over any interleaving: two requests of one requester, app and action are pending
      together only if the handler of each looked before the other was filed. */
  lemma {:induction false} DuplicatesOverlap(events: seq<Event>, n: nat, q: RepairRequest, r: RepairRequest)
    requires Possible(events) && n <= |events|
    requires q in After(events, n).requests && r in After(events, n).requests && q != r && SameAsk(q, r)
    ensures Overlap(After(events, n), q, r)
  {
    AnyRun(events, n);
  }

  // ---------------------------------------------------------------------
  // Exactly when there are two
  // ---------------------------------------------------------------------

  /** The event files a request although one like it, filed since the handler's look,
      is still pending. */
  ghost predicate FilesTwice(w: World, e: Event) {
    && e.File? && CanFile(w, e.n)
    && exists q :: q in w.requests && FiledSince(w, q, w.filings[e.n])
  }

  ghost predicate FiledSince(w: World, q: RepairRequest, f: Filing)
    requires f.x.fullApp.Some?
  {
    IsPendingLike(q, f.x) && q.id in w.filedAt && f.lookedAt < w.filedAt[q.id]
  }

  lemma FilingMeans(w: World, n: nat)
    requires Ok(w) && CanFile(w, n) && Due(w, File(n)) && OnePendingEach(w.requests)
    ensures OnePendingEach(Step(w, File(n)).requests) <==> !FilesTwice(w, File(n))
  {
    var f, t := w.filings[n], Step(w, File(n));
    var r := NewRequest(f.x);
    FiledRequests(w, n);
    if FilesTwice(w, File(n)) {
      var q :| q in w.requests && FiledSince(w, q, f);
      assert q in t.requests && q != r;
    } else {
      forall q | q in w.requests ensures !IsPendingLike(q, f.x) {
        assert FilingOk(w, f) && !FiledSince(w, q, f);
      }
      AddedRequests(w.requests, r);
    }
  }

  lemma SettlingKeepsOne(w: World, done: RepairRequest)
    requires UniqueIds(w.requests) && OnePendingEach(w.requests)
    ensures OnePendingEach(Step(w, Settle(done)).requests)
  {
    if HasId(w.requests, done.id) && done.status != Pending {
      SettledIsThere(w.requests, done);
    }
  }

  lemma StepMeans(w: World, e: Event)
    requires Ok(w) && Due(w, e) && OnePendingEach(w.requests)
    ensures OnePendingEach(Step(w, e).requests) <==> !FilesTwice(w, e)
  {
    match e
    case File(n) =>
      if CanFile(w, n) {
        FilingMeans(w, n);
      }
    case Settle(done) => SettlingKeepsOne(w, done);
    case LookUp(_) =>
  }

  ghost predicate OneThroughout(events: seq<Event>, n: nat)
    requires n <= |events|
  {
    OnePendingEach(After(events, n).requests) && (n > 0 ==> OneThroughout(events, n - 1))
  }

  ghost predicate NeverTwice(events: seq<Event>, n: nat)
    requires n <= |events|
  {
    n > 0 ==> !FilesTwice(After(events, n - 1), events[n - 1]) && NeverTwice(events, n - 1)
  }

  /** Over any interleaving: there is one pending request per requester, app and action
      all along if and only if nobody files while one filed since its look is pending. */
  lemma {:induction false} OnePendingExactly(events: seq<Event>, n: nat)
    requires Possible(events) && n <= |events|
    ensures OneThroughout(events, n) <==> NeverTwice(events, n)
    decreases n
  {
    if n > 0 {
      OnePendingExactly(events, n - 1);
      AnyRun(events, n - 1);
      if OneThroughout(events, n - 1) {
        StepMeans(After(events, n - 1), events[n - 1]);
      }
    }
  }

  lemma BothLook(x: CreateInput, y: CreateInput, events: seq<Event>)
    requires Accepts(x) && Accepts(y) && events == [LookUp(x), LookUp(y), File(0), File(1)]
    ensures After(events, 2) == World([], [Filing(x, 0, false), Filing(y, 1, false)], 2, map[], map[])
  {
    assert After(events, 1) == World([], [Filing(x, 0, false)], 1, map[], map[]);
  }

  lemma BothFile(x: CreateInput, y: CreateInput, two: World)
    requires x.fullApp.Some? && y == x.(newId := y.newId) && x.newId != y.newId
    requires two == World([], [Filing(x, 0, false), Filing(y, 1, false)], 2, map[], map[])
    ensures var three := Step(two, File(0));
      Due(two, File(0)) && Due(three, File(1)) && !OnePendingEach(Step(three, File(1)).requests)
  {
    var three := Step(two, File(0));
    assert three.requests == [NewRequest(x)] && three.filings[1] == Filing(y, 1, false);
    UpsertedIs(three.requests, NewRequest(y));
    var all := Step(three, File(1)).requests;
    assert all == [NewRequest(x), NewRequest(y)];
    assert NewRequest(x) in all && NewRequest(y) in all;
  }

  /** Two handlers of one user's repeated request can both look before either files. */
  lemma TwoAreFiled(x: CreateInput, newId: string)
    requires Accepts(x) && newId != x.newId
    ensures exists events :: Possible(events) && !OnePendingEach(After(events, |events|).requests)
  {
    var y := x.(newId := newId);
    var events := [LookUp(x), LookUp(y), File(0), File(1)];
    BothLook(x, y, events);
    BothFile(x, y, After(events, 2));
    assert After(events, 3) == Step(After(events, 2), File(0));
    assert Possible(events);
  }

  /** Each handler that has looked files at most once. */
  lemma FilesOnce(w: World, e: Event, n: nat)
    ensures CanFile(w, n) && e == File(n) ==> !CanFile(Step(w, e), n) && |Step(w, e).filings| == |w.filings|
    ensures n < |w.filings| && w.filings[n].filed ==> n < |Step(w, e).filings| && Step(w, e).filings[n].filed
  {
  }
}
