/** The latency buckets on any clock: a poll reads its clock before the lock, so its
    readings may come to a bucket that has been left. What is open between two changes of
    bucket is one stay; the stays, numbered, are the buckets of a clock that never goes
    back. */
module LatencyReturns {
  import opened Models
  import opened Collections
  import opened LatencyBuckets
  import ProbeBaseline

  /** A run on whatever clock. */
  ghost predicate IsAnyRun(o: Open, run: seq<Step>)
    decreases |run|
  {
    run == [] || (StepOk(o, run[0]) && IsAnyRun(run[0].after, run[1..]))
  }

  /** Whether the poll changes the bucket. */
  predicate Leaves(at: Time, p: Poll) {
    p.readings != [] && BucketStart(p.now) != at
  }

  function NextAt(at: Time, p: Poll): Time {
    if Leaves(at, p) then BucketStart(p.now) else at
  }

  function StayAfter(v: nat, at: Time, p: Poll): nat {
    if Leaves(at, p) then v + 1 else v
  }

  /** The same run with stays for buckets. */
  function Renumbered(o: Open, v: nat): Open {
    o.(at := v * BUCKET)
  }

  function RenumberedRows(rows: seq<Row>, v: nat): (r: seq<Row>)
    ensures |r| == |rows| && forall i :: 0 <= i < |rows| ==> r[i] == rows[i].(at := v * BUCKET)
  {
    seq(|rows|, i requires 0 <= i < |rows| => rows[i].(at := v * BUCKET))
  }

  function Straightened(run: seq<Step>, v: nat, at: Time): (r: seq<Step>)
    ensures |r| == |run|
    decreases |run|
  {
    if run == [] then []
    else
      var s := run[0];
      var w := StayAfter(v, at, s.poll);
      [RenumberedStep(s, v, w)] + Straightened(run[1..], w, NextAt(at, s.poll))
  }

  lemma {:induction false} AddedRenumbered(o: Open, v: nat, readings: seq<ProbeBaseline.Reading>)
    ensures AddedAll(Renumbered(o, v), readings) == Renumbered(AddedAll(o, readings), v)
    ensures AddedAll(o, readings).at == o.at
  {
    if readings != [] {
      AddedRenumbered(o, v, readings[..|readings| - 1]);
    }
  }

  lemma StayStarts(v: nat)
    ensures BucketStart(v * BUCKET + 1) == v * BUCKET && BucketStart(v * BUCKET) == v * BUCKET
  {
  }

  lemma RowRenumbered(o: Open, subject: string, v: nat)
    requires o.at >= 0
    ensures RowOf(Renumbered(o, v), subject) == RowOf(o, subject).(at := v * BUCKET)
  {
    StayStarts(v);
  }

  lemma RowAtRenumbered(rows: seq<Row>, o: Open, v: nat, i: nat)
    requires o.at >= 0 && RowsFor(rows, o) && i < |rows|
    ensures var t := RenumberedRows(rows, v); t[i].subject == rows[i].subject && t[i] == RowOf(Renumbered(o, v), t[i].subject)
  {
    RowRenumbered(o, rows[i].subject, v);
  }

  lemma RowsRenumbered(rows: seq<Row>, o: Open, v: nat)
    requires o.at >= 0 && RowsFor(rows, o)
    ensures RowsFor(RenumberedRows(rows, v), Renumbered(o, v))
    ensures SubjectsIn(RenumberedRows(rows, v)) == SubjectsIn(rows)
  {
    var t := RenumberedRows(rows, v);
    forall i | 0 <= i < |t| ensures t[i].subject == rows[i].subject && t[i] == RowOf(Renumbered(o, v), t[i].subject) {
      RowAtRenumbered(rows, o, v, i);
    }
    SameSubjects(rows, t);
  }

  lemma FlushRenumbered(rows: seq<Row>, o: Open, v: nat)
    requires o.at >= 0 && IsFlush(rows, o)
    ensures IsFlush(RenumberedRows(rows, v), Renumbered(o, v))
  {
    RowsRenumbered(rows, o, v);
  }

  lemma SameSubjects(rows: seq<Row>, t: seq<Row>)
    requires |rows| == |t| && forall i :: 0 <= i < |t| ==> t[i].subject == rows[i].subject
    ensures SubjectsIn(t) == SubjectsIn(rows)
  {
  }

  /** The step, renumbered from stay v to stay w. */
  function RenumberedStep(s: Step, v: nat, w: nat): Step {
    Step(Poll(s.poll.readings, w * BUCKET + 1), RenumberedRows(s.completed, v), Renumbered(s.after, w))
  }

  lemma StayStraightened(o: Open, s: Step, v: nat)
    requires StepOk(o, s) && !Leaves(o.at, s.poll)
    ensures StepOk(Renumbered(o, v), RenumberedStep(s, v, v)) && s.after.at == o.at && s.completed == []
  {
    StayStarts(v);
    AddedRenumbered(o, v, s.poll.readings);
  }

  lemma LeaveStraightened(o: Open, s: Step, v: nat)
    requires StepOk(o, s) && Leaves(o.at, s.poll)
    ensures StepOk(Renumbered(o, v), RenumberedStep(s, v, v + 1)) && s.after.at == BucketStart(s.poll.now)
  {
    var next := Open(BucketStart(s.poll.now), map[], map[]);
    StayStarts(v + 1);
    AddedRenumbered(next, v + 1, s.poll.readings);
    FlushRenumbered(s.completed, o, v);
    assert Renumbered(next, v + 1) == Open((v + 1) * BUCKET, map[], map[]);
  }

  lemma StepStraightened(o: Open, s: Step, v: nat)
    requires StepOk(o, s)
    ensures StepOk(Renumbered(o, v), RenumberedStep(s, v, StayAfter(v, o.at, s.poll))) && s.after.at == NextAt(o.at, s.poll)
  {
    if Leaves(o.at, s.poll) {
      LeaveStraightened(o, s, v);
    } else {
      StayStraightened(o, s, v);
    }
  }

  lemma NextSnapped(at: Time, p: Poll)
    requires at >= 0 && BucketStart(at) == at
    ensures NextAt(at, p) >= 0 && BucketStart(NextAt(at, p)) == NextAt(at, p)
  {
    BucketStartSnaps(p.now, p.now);
  }

  lemma {:induction false} RunStraightened(o: Open, run: seq<Step>, v: nat, since: Time)
    requires IsAnyRun(o, run) && since <= v * BUCKET + 1
    ensures IsRun(Renumbered(o, v), Straightened(run, v, o.at), since)
    decreases |run|
  {
    if run != [] {
      var s := run[0];
      var w := StayAfter(v, o.at, s.poll);
      StepStraightened(o, s, v);
      RunStraightened(s.after, run[1..], w, w * BUCKET + 1);
    }
  }

  /** When each stay began, from the one at the start of the run on. */
  function StayTimes(run: seq<Step>, at: Time): (r: seq<Time>)
    ensures |r| > 0 && r[0] == at
    decreases |run|
  {
    if run == [] then [at]
    else if Leaves(at, run[0].poll) then [at] + StayTimes(run[1..], NextAt(at, run[0].poll))
    else StayTimes(run[1..], at)
  }

  /** The stay each emitted row was written for. */
  function RowStays(run: seq<Step>, v: nat, at: Time): seq<nat>
    decreases |run|
  {
    if run == [] then []
    else Repeated(v, |run[0].completed|) + RowStays(run[1..], StayAfter(v, at, run[0].poll), NextAt(at, run[0].poll))
  }

  function Repeated(v: nat, n: nat): (r: seq<nat>)
    ensures |r| == n && forall i :: 0 <= i < n ==> r[i] == v
  {
    seq(n, i => v)
  }

  /** Each emitted row is the one of the straightened run, at the time its stay began. */
  ghost predicate RowsMatch(rows: seq<Row>, straight: seq<Row>, stays: seq<nat>, times: seq<Time>, v: nat) {
    && |rows| == |straight| == |stays|
    && forall i :: 0 <= i < |rows| ==>
         && v <= stays[i] < v + |times| - 1
         && straight[i] == rows[i].(at := stays[i] * BUCKET) && rows[i].at == times[stays[i] - v]
  }

  lemma {:induction false} MatchesJoin(a: seq<Row>, b: seq<Row>, s: seq<Row>, t: seq<Row>, x: seq<nat>, y: seq<nat>, times: seq<Time>, v: nat)
    requires RowsMatch(a, s, x, times, v) && RowsMatch(b, t, y, times, v)
    ensures RowsMatch(a + b, s + t, x + y, times, v)
  {
  }

  lemma {:induction false} MatchesEarlier(rows: seq<Row>, straight: seq<Row>, stays: seq<nat>, times: seq<Time>, v: nat, at: Time)
    requires RowsMatch(rows, straight, stays, times, v + 1)
    ensures RowsMatch(rows, straight, stays, [at] + times, v)
  {
  }

  /** The rows of one change of bucket, and those of the rest of the run. */
  lemma {:induction false} RunMatches(o: Open, run: seq<Step>, v: nat)
    requires IsAnyRun(o, run) && o.at >= 0 && BucketStart(o.at) == o.at
    ensures RowsMatch(Emitted(run), Emitted(Straightened(run, v, o.at)), RowStays(run, v, o.at), StayTimes(run, o.at), v)
    decreases |run|
  {
    if run != [] {
      var s, rest := run[0], run[1..];
      var w, at := StayAfter(v, o.at, s.poll), NextAt(o.at, s.poll);
      StepStraightened(o, s, v);
      NextSnapped(o.at, s.poll);
      RunMatches(s.after, rest, w);
      assert Straightened(run, v, o.at)[1..] == Straightened(rest, w, at);
      if Leaves(o.at, s.poll) {
        MatchesEarlier(Emitted(rest), Emitted(Straightened(rest, w, at)), RowStays(rest, w, at), StayTimes(rest, at), v, o.at);
      }
      CompletedMatch(o, s, v, StayTimes(run, o.at));
      MatchesJoin(s.completed, Emitted(rest), RenumberedRows(s.completed, v), Emitted(Straightened(rest, w, at)),
                  Repeated(v, |s.completed|), RowStays(rest, w, at), StayTimes(run, o.at), v);
    }
  }

  lemma CompletedMatch(o: Open, s: Step, v: nat, times: seq<Time>)
    requires StepOk(o, s) && BucketStart(o.at) == o.at && times != [] && times[0] == o.at && (Leaves(o.at, s.poll) ==> |times| > 1)
    ensures RowsMatch(s.completed, RenumberedRows(s.completed, v), Repeated(v, |s.completed|), times, v)
  {
    if Leaves(o.at, s.poll) {
      forall i | 0 <= i < |s.completed| ensures s.completed[i].at == o.at {
        RowTime(o, s.completed[i].subject);
        assert s.completed[i] == RowOf(o, s.completed[i].subject);
      }
    } else {
      StayStraightened(o, s, v);
    }
  }

  lemma RowTime(o: Open, subject: string)
    requires o.at >= 0
    ensures RowOf(o, subject).at == BucketStart(o.at)
  {
  }

  lemma {:induction false} SamplesMatch(rows: seq<Row>, straight: seq<Row>)
    requires |rows| == |straight| && forall i :: 0 <= i < |rows| ==> straight[i].samples == rows[i].samples
    ensures TotalSamples(rows) == TotalSamples(straight)
  {
    if rows != [] {
      SamplesMatch(rows[1..], straight[1..]);
    }
  }

  lemma {:induction false} EndStraightened(o: Open, run: seq<Step>, v: nat)
    requires IsAnyRun(o, run)
    ensures End(Renumbered(o, v), Straightened(run, v, o.at)).at == (v + |StayTimes(run, o.at)| - 1) * BUCKET
    decreases |run|
  {
    if run != [] {
      var s, rest := run[0], run[1..];
      var w, at := StayAfter(v, o.at, s.poll), NextAt(o.at, s.poll);
      StepStraightened(o, s, v);
      EndStraightened(s.after, rest, w);
      assert End(Renumbered(s.after, w), Straightened(rest, w, at)) == End(Renumbered(o, v), Straightened(run, v, o.at));
    }
  }

  // ---------------------------------------------------------------------
  // What is written, and what is written twice
  // ---------------------------------------------------------------------

  /** All readings, each with the number of its stay for a bucket. */
  function StayLog(run: seq<Step>): seq<Logged> {
    LogOf(Straightened(run, 0, 0))
  }

  /** A row holds exactly the readings of its stay, under the bucket it stayed in. */
  ghost predicate IsStayRow(row: Row, stay: nat, times: seq<Time>, log: seq<Logged>) {
    && stay < |times| - 1 && row.at == times[stay]
    && row.(at := stay * BUCKET) == Summary(row.subject, stay * BUCKET, LatenciesIn(log, row.subject, stay * BUCKET),
                                            FailuresIn(log, row.subject, stay * BUCKET))
    && Holds(log, row.subject, stay * BUCKET)
  }

  ghost predicate StayRows(rows: seq<Row>, stays: seq<nat>, times: seq<Time>, log: seq<Logged>) {
    && |stays| == |rows|
    && (forall i :: 0 <= i < |rows| ==> IsStayRow(rows[i], stays[i], times, log))
    && (forall i, j :: 0 <= i < j < |rows| ==> rows[i].subject != rows[j].subject || stays[i] != stays[j])
    && (forall s: string, v: nat :: v < |times| - 1 && Holds(log, s, v * BUCKET) ==> Written(rows, stays, s, v))
  }

  ghost predicate Written(rows: seq<Row>, stays: seq<nat>, subject: string, v: nat)
    requires |rows| == |stays|
  {
    exists i :: 0 <= i < |rows| && rows[i].subject == subject && stays[i] == v
  }

  /** Two rows of the subject and bucket. */
  ghost predicate Repeats(rows: seq<Row>, subject: string, at: Time) {
    exists i, j :: 0 <= i < j < |rows| && IsRowOf(rows[i], subject, at) && IsRowOf(rows[j], subject, at)
  }

  predicate IsRowOf(row: Row, subject: string, at: Time) {
    row.subject == subject && row.at == at
  }

  /** Readings of the subject in two stays in the bucket, both left since. */
  ghost predicate Returns(times: seq<Time>, log: seq<Logged>, subject: string, at: Time) {
    exists v: nat, w: nat :: ReturnsIn(times, log, subject, at, v, w)
  }

  ghost predicate ReturnsIn(times: seq<Time>, log: seq<Logged>, s: string, at: Time, v: nat, w: nat) {
    v < w < |times| - 1 && times[v] == times[w] == at && Holds(log, s, v * BUCKET) && Holds(log, s, w * BUCKET)
  }

  lemma RowsFromStraight(rows: seq<Row>, straight: seq<Row>, stays: seq<nat>, times: seq<Time>, o: Open, log: seq<Logged>)
    requires RowsMatch(rows, straight, stays, times, 0) && RowsOk(straight, o, log) && o.at == (|times| - 1) * BUCKET
    ensures StayRows(rows, stays, times, log)
  {
    forall i | 0 <= i < |rows| ensures IsStayRow(rows[i], stays[i], times, log) {
      assert RowOk(straight[i], log) && Holds(log, straight[i].subject, straight[i].at);
    }
    forall i, j | 0 <= i < j < |rows| ensures rows[i].subject != rows[j].subject || stays[i] != stays[j] {
      assert straight[i].subject != straight[j].subject || straight[i].at != straight[j].at;
    }
    forall s: string, v: nat | v < |times| - 1 && Holds(log, s, v * BUCKET) ensures Written(rows, stays, s, v) {
      StraightWritten(rows, straight, stays, times, o, log, s, v);
    }
  }

  lemma StraightWritten(rows: seq<Row>, straight: seq<Row>, stays: seq<nat>, times: seq<Time>, o: Open, log: seq<Logged>, s: string, v: nat)
    requires RowsMatch(rows, straight, stays, times, 0) && RowsOk(straight, o, log) && o.at == (|times| - 1) * BUCKET
    requires v < |times| - 1 && Holds(log, s, v * BUCKET)
    ensures Written(rows, stays, s, v)
  {
    var k :| 0 <= k < |log| && Is(log[k], s, v * BUCKET);
    BeforeLast(v, |times|);
    assert HasRow(straight, s, v * BUCKET);
    var i :| 0 <= i < |straight| && straight[i].subject == s && straight[i].at == v * BUCKET;
    assert straight[i] == rows[i].(at := stays[i] * BUCKET);
    SameStay(stays[i], v);
  }

  lemma SameStay(v: nat, w: nat)
    requires v * BUCKET == w * BUCKET
    ensures v == w
  {
  }

  lemma BeforeLast(v: nat, n: nat)
    requires v < n - 1
    ensures v * BUCKET < (n - 1) * BUCKET
  {
  }

  lemma RepeatsExactly(rows: seq<Row>, stays: seq<nat>, times: seq<Time>, log: seq<Logged>, s: string, at: Time)
    requires StayRows(rows, stays, times, log)
    ensures Repeats(rows, s, at) <==> Returns(times, log, s, at)
  {
    if Repeats(rows, s, at) {
      var i, j :| 0 <= i < j < |rows| && IsRowOf(rows[i], s, at) && IsRowOf(rows[j], s, at);
      assert IsStayRow(rows[i], stays[i], times, log) && IsStayRow(rows[j], stays[j], times, log);
      var v, w := if stays[i] < stays[j] then stays[i] else stays[j], if stays[i] < stays[j] then stays[j] else stays[i];
      assert ReturnsIn(times, log, s, at, v, w);
    }
    if Returns(times, log, s, at) {
      var v: nat, w: nat :| ReturnsIn(times, log, s, at, v, w);
      assert Written(rows, stays, s, v) && Written(rows, stays, s, w);
      var i :| 0 <= i < |rows| && rows[i].subject == s && stays[i] == v;
      var j :| 0 <= j < |rows| && rows[j].subject == s && stays[j] == w;
      assert IsStayRow(rows[i], v, times, log) && IsStayRow(rows[j], w, times, log);
      assert IsRowOf(rows[i], s, at) && IsRowOf(rows[j], s, at) && i != j;
    }
  }

  lemma StraightIsRun(run: seq<Step>)
    requires IsAnyRun(EMPTY, run)
    ensures IsRun(EMPTY, Straightened(run, 0, 0), 0)
    ensures End(EMPTY, Straightened(run, 0, 0)).at == (|StayTimes(run, 0)| - 1) * BUCKET
  {
    assert Renumbered(EMPTY, 0) == EMPTY && EMPTY.at == 0;
    RunStraightened(EMPTY, run, 0, 0);
    EndStraightened(EMPTY, run, 0);
  }

  /** The forward theorem, for the straightened run. */
  lemma StraightCounted(run: seq<Step>) returns (straight: seq<Row>, end: Open)
    requires IsAnyRun(EMPTY, run)
    ensures straight == Emitted(Straightened(run, 0, 0)) && end.at == (|StayTimes(run, 0)| - 1) * BUCKET
    ensures RowsOk(straight, end, StayLog(run)) && TotalSamples(straight) + LoggedIn(StayLog(run), end.at) == |StayLog(run)|
  {
    var s := Straightened(run, 0, 0);
    StraightIsRun(run);
    EveryReadingCounted(s);
    straight, end := Emitted(s), End(EMPTY, s);
  }

  lemma RowsOfStays(run: seq<Step>)
    requires IsAnyRun(EMPTY, run)
    ensures RowsMatch(Emitted(run), Emitted(Straightened(run, 0, 0)), RowStays(run, 0, 0), StayTimes(run, 0), 0)
    ensures TotalSamples(Emitted(run)) == TotalSamples(Emitted(Straightened(run, 0, 0)))
  {
    RunMatches(EMPTY, run, 0);
    SamplesFromMatch(Emitted(run), Emitted(Straightened(run, 0, 0)), RowStays(run, 0, 0), StayTimes(run, 0));
  }

  lemma SamplesFromMatch(rows: seq<Row>, straight: seq<Row>, stays: seq<nat>, times: seq<Time>)
    requires RowsMatch(rows, straight, stays, times, 0)
    ensures TotalSamples(rows) == TotalSamples(straight)
  {
    SamplesMatch(rows, straight);
  }

  /** On any clock: for each stay that has been left, each subject read in it has exactly
      one row, with exactly its readings, under the stay's bucket; what is written and what
      is open together are all readings ever recorded; and a subject's bucket is written
      twice if and only if its readings came back to a bucket that had been left, and that
      has been left again. */
  lemma AnyClock(run: seq<Step>)
    requires IsAnyRun(EMPTY, run)
    ensures var times, log := StayTimes(run, 0), StayLog(run);
      && StayRows(Emitted(run), RowStays(run, 0, 0), times, log)
      && TotalSamples(Emitted(run)) + LoggedIn(log, (|times| - 1) * BUCKET) == |log|
      && (forall s: string, at: Time :: Repeats(Emitted(run), s, at) <==> Returns(times, log, s, at))
  {
    var straight, end := StraightCounted(run);
    RowsOfStays(run);
    RowsFromStraight(Emitted(run), straight, RowStays(run, 0, 0), StayTimes(run, 0), end, StayLog(run));
    forall s: string, at: Time ensures Repeats(Emitted(run), s, at) <==> Returns(StayTimes(run, 0), StayLog(run), s, at) {
      RepeatsExactly(Emitted(run), RowStays(run, 0, 0), StayTimes(run, 0), StayLog(run), s, at);
    }
  }
}
