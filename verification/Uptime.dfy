/** uptimePct: the backward walk over status events, measured against the
    instants of the window at which the reconstructed status is online. */
module Uptime {
  import opened Models

  /** A past event that an instant t lies before. */
  predicate Covers(e: StatusEvent, now: Time, t: Time) {
    t < e.at <= now
  }

  /** The status in force at t, reconstructed from newest-first events: what the
      oldest event after t changed from, or the current status when nothing
      happened since. */
  function StatusAt(events: seq<StatusEvent>, current: Status, now: Time, t: Time): Status {
    if events == [] then current
    else
      var oldest := events[|events| - 1];
      if Covers(oldest, now, t) then oldest.from else StatusAt(events[..|events| - 1], current, now, t)
  }

  /** The instants of [lo, hi) at which the reconstructed status is s. */
  function InstantsIn(events: seq<StatusEvent>, current: Status, now: Time, lo: Time, hi: Time, s: Status): set<Time> {
    set t: Time | lo <= t < hi && StatusAt(events, current, now, t) == s
  }

  ghost predicate NewestFirst(events: seq<StatusEvent>) {
    forall i, j :: 0 <= i < j < |events| ==> events[j].at <= events[i].at
  }

  /** Moving the lower end of a stretch up by one drops exactly that instant. */
  lemma FirstInstant(events: seq<StatusEvent>, current: Status, now: Time, lo: Time, hi: Time, s: Status)
    requires lo < hi
    ensures |InstantsIn(events, current, now, lo, hi, s)|
      == |InstantsIn(events, current, now, lo + 1, hi, s)| + (if StatusAt(events, current, now, lo) == s then 1 else 0)
  {
    var rest := InstantsIn(events, current, now, lo + 1, hi, s);
    assert InstantsIn(events, current, now, lo, hi, s)
        == if StatusAt(events, current, now, lo) == s then {lo} + rest else rest;
  }

  lemma {:induction false} LaterEventsMatterNot(events: seq<StatusEvent>, n: nat, current: Status, now: Time, t: Time)
    requires n <= |events|
    requires forall j :: n <= j < |events| ==> !Covers(events[j], now, t)
    ensures StatusAt(events, current, now, t) == StatusAt(events[..n], current, now, t)
    decreases |events|
  {
    if n < |events| {
      var rest := events[..|events| - 1];
      LaterEventsMatterNot(rest, n, current, now, t);
      assert rest[..n] == events[..n];
    } else {
      assert events[..n] == events;
    }
  }

  /** Prepending the newest event only changes what counts as current. */
  lemma {:induction false} NewestEventFirst(e: StatusEvent, rest: seq<StatusEvent>, current: Status, now: Time, t: Time)
    ensures StatusAt([e] + rest, current, now, t)
      == StatusAt(rest, if Covers(e, now, t) then e.from else current, now, t)
  {
    var all := [e] + rest;
    if rest == [] {
      assert all[..|all| - 1] == [];
    } else {
      assert all[..|all| - 1] == [e] + rest[..|rest| - 1];
      NewestEventFirst(e, rest[..|rest| - 1], current, now, t);
    }
  }

  /** A stretch of constant status contributes its whole length or nothing. */
  lemma {:induction false} ConstantStretch(events: seq<StatusEvent>, current: Status, now: Time, lo: Time, mid: Time, hi: Time, held: Status, s: Status)
    requires lo <= mid <= hi
    requires forall t :: lo <= t < mid ==> StatusAt(events, current, now, t) == held
    ensures |InstantsIn(events, current, now, lo, hi, s)|
      == |InstantsIn(events, current, now, mid, hi, s)| + (if held == s then mid - lo else 0)
    decreases mid - lo
  {
    if lo < mid {
      FirstInstant(events, current, now, lo, hi, s);
      ConstantStretch(events, current, now, lo + 1, mid, hi, held, s);
    }
  }

  function TimeIn(events: seq<StatusEvent>, current: Status, now: Time, lo: Time, hi: Time, s: Status): nat {
    |InstantsIn(events, current, now, lo, hi, s)|
  }

  /** Every instant of the window has one status, so online time lies between
      zero and the window and the percentage needs no clamping. */
  lemma {:induction false} StatusesPartitionWindow(events: seq<StatusEvent>, current: Status, now: Time, lo: Time, hi: Time)
    requires lo <= hi
    ensures TimeIn(events, current, now, lo, hi, Unset) + TimeIn(events, current, now, lo, hi, Online)
          + TimeIn(events, current, now, lo, hi, Degraded) + TimeIn(events, current, now, lo, hi, Offline)
          + TimeIn(events, current, now, lo, hi, Unknown) + TimeIn(events, current, now, lo, hi, Hidden)
          == hi - lo
    decreases hi - lo
  {
    if lo == hi {
      forall s ensures InstantsIn(events, current, now, lo, hi, s) == {} {}
    } else {
      StatusesPartitionWindow(events, current, now, lo + 1, hi);
      FirstInstant(events, current, now, lo, hi, Unset);
      FirstInstant(events, current, now, lo, hi, Online);
      FirstInstant(events, current, now, lo, hi, Degraded);
      FirstInstant(events, current, now, lo, hi, Offline);
      FirstInstant(events, current, now, lo, hi, Unknown);
      FirstInstant(events, current, now, lo, hi, Hidden);
    }
  }

  lemma WithinWindow(online: int, window: int)
    requires 0 <= online <= window && window > 0
    ensures 0.0 <= online as real / window as real * 100.0 <= 100.0
  {
    var share := online as real / window as real;
    assert share * (window as real) == online as real;
    assert 0.0 <= share <= 1.0;
  }

  /** The walk's accumulated online time. */
  method OnlineTime(events: seq<StatusEvent>, current: Status, window: int, now: Time) returns (online: int)
    requires window > 0
    ensures NewestFirst(events) ==> online == |InstantsIn(events, current, now, now - window, now, Online)|
  {
    var start := now - window;
    var cursor, status := now, current;
    online := 0;
    var i := 0;
    while i < |events|
      invariant 0 <= i <= |events|
      invariant start < cursor <= now
      invariant NewestFirst(events) ==> forall j :: 0 <= j < i ==> events[j].at > now || cursor <= events[j].at
      invariant NewestFirst(events) ==> forall j :: i <= j < |events| ==> events[j].at > now || events[j].at <= cursor
      invariant NewestFirst(events) ==> forall t :: t < cursor ==> StatusAt(events[..i], current, now, t) == status
      invariant NewestFirst(events) ==> online == |InstantsIn(events, current, now, cursor, now, Online)|
    {
      var event := events[i];
      assert events[..i + 1][..i] == events[..i] && events[..i + 1][i] == event;
      if event.at > now {
        i := i + 1;
        continue;
      }
      if event.at <= start {
        break;
      }
      if NewestFirst(events) {
        HeldBetween(events, i, current, now, event.at, cursor, status);
        ConstantStretch(events, current, now, event.at, cursor, now, status, Online);
      }
      if status == Online {
        online := online + (cursor - event.at);
      }
      status := event.from;
      cursor := event.at;
      i := i + 1;
    }
    if NewestFirst(events) {
      HeldBetween(events, i, current, now, start, cursor, status);
      ConstantStretch(events, current, now, start, cursor, now, status, Online);
    }
    if cursor > start && status == Online {
      online := online + (cursor - start);
    }
  }

  /** Between a point that no later event exceeds and the cursor, one status holds. */
  lemma HeldBetween(events: seq<StatusEvent>, i: nat, current: Status, now: Time, lo: Time, cursor: Time, status: Status)
    requires i <= |events|
    requires forall j :: i <= j < |events| ==> events[j].at > now || events[j].at <= lo
    requires forall t :: t < cursor ==> StatusAt(events[..i], current, now, t) == status
    ensures forall t :: lo <= t < cursor ==> StatusAt(events, current, now, t) == status
  {
    forall t | lo <= t < cursor ensures StatusAt(events, current, now, t) == status {
      LaterEventsMatterNot(events, i, current, now, t);
    }
  }

  /** None stands for the nil result on an empty window. */
  method UptimePct(events: seq<StatusEvent>, current: Status, window: int, now: Time) returns (pct: Option<real>)
    ensures pct.None? <==> window <= 0
    ensures pct.Some? ==> 0.0 <= pct.value <= 100.0
    ensures pct.Some? && NewestFirst(events) ==>
      pct.value == |InstantsIn(events, current, now, now - window, now, Online)| as real / window as real * 100.0
  {
    if window <= 0 {
      return None;
    }
    var online := OnlineTime(events, current, window, now);
    var share := online as real / window as real * 100.0;
    if NewestFirst(events) {
      StatusesPartitionWindow(events, current, now, now - window, now);
      WithinWindow(online, window);
    }
    if share < 0.0 {
      share := 0.0;
    }
    if share > 100.0 {
      share := 100.0;
    }
    return Some(share);
  }
}
