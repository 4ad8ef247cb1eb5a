/** Five-minute latency buckets: readings gather in an open bucket, which is
    written out when a reading arrives in a later one. */
module LatencyBuckets {
  import opened Models
  import opened StableSort
  import opened Collections
  import opened ProbeBaseline

  const BUCKET := 5 * MINUTE

  /** Truncation counts from the zero time. */
  function BucketStart(at: Time): Time
    requires at >= 0
  {
    at - at % BUCKET
  }

  lemma BucketStartSnaps(a: Time, b: Time)
    requires 0 <= a <= b
    ensures BucketStart(a) <= a < BucketStart(a) + BUCKET && BucketStart(a) % BUCKET == 0
    ensures BucketStart(BucketStart(a)) == BucketStart(a) <= BucketStart(b)
    ensures BucketStart(a) < BucketStart(b) ==> BucketStart(a) + BUCKET <= BucketStart(b)
  {
  }

  datatype Row = Row(subject: string, at: Time, samples: nat, failures: nat, minMs: int, maxMs: int, medianMs: int)

  /** The row for one subject's readings of one bucket. */
  function Summary(subject: string, at: Time, latencies: seq<int>, failures: nat): Row
    requires at >= 0
  {
    if latencies == [] then Row(subject, BucketStart(at), failures, failures, 0, 0, 0)
    else
      var sorted := Sort(latencies, Identity);
      Row(subject, BucketStart(at), |latencies| + failures, failures, sorted[0], sorted[|sorted| - 1], Median(latencies))
  }

  lemma SummaryBounds(subject: string, at: Time, latencies: seq<int>, failures: nat, x: int)
    requires at >= 0 && x in latencies
    ensures Summary(subject, at, latencies, failures).minMs in latencies
    ensures Summary(subject, at, latencies, failures).maxMs in latencies
    ensures Summary(subject, at, latencies, failures).minMs <= x <= Summary(subject, at, latencies, failures).maxMs
  {
    var sorted := Sort(latencies, Identity);
    SortIsStable(latencies, Identity);
    assert forall y :: y in multiset(sorted) <==> y in multiset(latencies);
    assert sorted[0] in multiset(sorted) && sorted[|sorted| - 1] in multiset(sorted);
    assert x in multiset(latencies);
    var i :| 0 <= i < |sorted| && sorted[i] == x;
    assert Identity(sorted[0]) <= Identity(sorted[i]) <= Identity(sorted[|sorted| - 1]);
  }

  // ---------------------------------------------------------------------
  // The open bucket
  // ---------------------------------------------------------------------

  datatype Open = Open(at: Time, latency: map<string, seq<int>>, failures: map<string, nat>)

  const EMPTY := Open(0, map[], map[])

  function LatencyOf(o: Open, subject: string): seq<int> {
    if subject in o.latency then o.latency[subject] else []
  }

  function FailuresOf(o: Open, subject: string): nat {
    if subject in o.failures then o.failures[subject] else 0
  }

  function Added(o: Open, r: Reading): Open {
    if r.sample.ok then o.(latency := o.latency[r.subject := LatencyOf(o, r.subject) + [r.sample.latencyMs]])
    else o.(failures := o.failures[r.subject := FailuresOf(o, r.subject) + 1])
  }

  function AddedAll(o: Open, readings: seq<Reading>): Open {
    if readings == [] then o
    else Added(AddedAll(o, readings[..|readings| - 1]), readings[|readings| - 1])
  }

  function RowOf(o: Open, subject: string): Row
    requires o.at >= 0
  {
    Summary(subject, o.at, LatencyOf(o, subject), FailuresOf(o, subject))
  }

  function SubjectsIn(rows: seq<Row>): (r: seq<string>)
    ensures |r| == |rows|
    ensures forall i :: 0 <= i < |rows| ==> r[i] == rows[i].subject
  {
    seq(|rows|, i requires 0 <= i < |rows| => rows[i].subject)
  }

  /** Rows of the bucket, no subject twice. */
  ghost predicate RowsFor(rows: seq<Row>, o: Open)
    requires o.at >= 0
  {
    && (forall i, j :: 0 <= i < j < |rows| ==> rows[i].subject != rows[j].subject)
    && (forall i :: 0 <= i < |rows| ==> rows[i] == RowOf(o, rows[i].subject))
  }

  /** One row for every subject of the bucket, in whatever order the maps were walked. */
  ghost predicate IsFlush(rows: seq<Row>, o: Open)
    requires o.at >= 0
  {
    RowsFor(rows, o) && forall s :: s in SubjectsIn(rows) <==> s in o.latency || s in o.failures
  }

  class BucketTracker {
    var bucketAt: Time
    var bucketLatency: map<string, seq<int>>
    var bucketFailures: map<string, nat>

    ghost function State(): Open
      reads this
    {
      Open(bucketAt, bucketLatency, bucketFailures)
    }

    constructor ()
      ensures State() == EMPTY
    {
      bucketAt, bucketLatency, bucketFailures := 0, map[], map[];
    }

    /** The completed rows go to the metric store. */
    method Record(readings: seq<Reading>, now: Instant) returns (completed: seq<Row>)
      requires bucketAt >= 0
      modifies this
      ensures readings == [] ==> State() == old(State()) && completed == []
      ensures readings != [] && BucketStart(now) == old(bucketAt) ==>
        State() == AddedAll(old(State()), readings) && completed == []
      ensures readings != [] && BucketStart(now) != old(bucketAt) ==>
        State() == AddedAll(Open(BucketStart(now), map[], map[]), readings) && IsFlush(completed, old(State()))
    {
      completed := [];
      if readings == [] {
        return;
      }
      var start := BucketStart(now);
      if start != bucketAt {
        completed := Flush();
        bucketAt, bucketLatency, bucketFailures := start, map[], map[];
      }
      AddAll(readings);
    }

    method AddAll(readings: seq<Reading>)
      modifies this
      ensures State() == AddedAll(old(State()), readings)
    {
      for i := 0 to |readings|
        invariant State() == AddedAll(old(State()), readings[..i])
      {
        assert readings[..i + 1][..i] == readings[..i];
        var probe := readings[i];
        if probe.sample.ok {
          var soFar := if probe.subject in bucketLatency then bucketLatency[probe.subject] else [];
          bucketLatency := bucketLatency[probe.subject := soFar + [probe.sample.latencyMs]];
        } else {
          var soFar := if probe.subject in bucketFailures then bucketFailures[probe.subject] else 0;
          bucketFailures := bucketFailures[probe.subject := soFar + 1];
        }
        assert State() == Added(AddedAll(old(State()), readings[..i]), probe);
      }
      assert readings[..|readings|] == readings;
    }

    method Flush() returns (rows: seq<Row>)
      requires bucketAt >= 0
      ensures IsFlush(rows, State())
    {
      rows := FlushTimed();
      var left := bucketFailures.Keys;
      while left != {}
        invariant left <= bucketFailures.Keys && RowsFor(rows, State())
        invariant forall s :: s in SubjectsIn(rows) <==> s in bucketLatency || (s in bucketFailures && s !in left)
        decreases left
      {
        var subject :| subject in left;
        left := left - {subject};
        if subject in bucketLatency {
          continue;
        }
        var row := Summary(subject, bucketAt, [], bucketFailures[subject]);
        OneMoreRow(rows, State(), subject);
        assert row == RowOf(State(), subject);
        rows := rows + [row];
      }
    }

    /** The rows of subjects with at least one success. */
    method FlushTimed() returns (rows: seq<Row>)
      requires bucketAt >= 0
      ensures RowsFor(rows, State())
      ensures forall s :: s in SubjectsIn(rows) <==> s in bucketLatency
    {
      rows := [];
      var left := bucketLatency.Keys;
      while left != {}
        invariant left <= bucketLatency.Keys && RowsFor(rows, State())
        invariant forall s :: s in SubjectsIn(rows) <==> s in bucketLatency && s !in left
        decreases left
      {
        var subject :| subject in left;
        var failed := if subject in bucketFailures then bucketFailures[subject] else 0;
        var row := Summary(subject, bucketAt, bucketLatency[subject], failed);
        OneMoreRow(rows, State(), subject);
        assert row == RowOf(State(), subject);
        rows := rows + [row];
        left := left - {subject};
      }
    }
  }

  /** The row of one more subject. */
  lemma OneMoreRow(rows: seq<Row>, o: Open, subject: string)
    requires o.at >= 0 && RowsFor(rows, o) && subject !in SubjectsIn(rows)
    ensures RowsFor(rows + [RowOf(o, subject)], o)
    ensures SubjectsIn(rows + [RowOf(o, subject)]) == SubjectsIn(rows) + [subject]
  {
    forall i | 0 <= i < |rows| ensures rows[i].subject != subject {
      assert SubjectsIn(rows)[i] in SubjectsIn(rows);
    }
  }

  // ---------------------------------------------------------------------
  // Every reading ever recorded
  // ---------------------------------------------------------------------

  datatype Logged = Logged(reading: Reading, bucket: Time)

  predicate Is(x: Logged, subject: string, bucket: Time) {
    x.reading.subject == subject && x.bucket == bucket
  }

  /** The latencies of a subject's successful readings in a bucket, in order. */
  function LatenciesIn(log: seq<Logged>, subject: string, bucket: Time): seq<int> {
    if log == [] then []
    else
      var x := log[|log| - 1];
      LatenciesIn(log[..|log| - 1], subject, bucket)
      + (if Is(x, subject, bucket) && x.reading.sample.ok then [x.reading.sample.latencyMs] else [])
  }

  function FailuresIn(log: seq<Logged>, subject: string, bucket: Time): nat {
    if log == [] then 0
    else
      var x := log[|log| - 1];
      FailuresIn(log[..|log| - 1], subject, bucket) + (if Is(x, subject, bucket) && !x.reading.sample.ok then 1 else 0)
  }

  function ReadingsIn(log: seq<Logged>, subject: string, bucket: Time): nat {
    |LatenciesIn(log, subject, bucket)| + FailuresIn(log, subject, bucket)
  }

  ghost predicate Holds(log: seq<Logged>, subject: string, bucket: Time) {
    exists i :: 0 <= i < |log| && Is(log[i], subject, bucket)
  }

  /** The open bucket is what the log says about it. */
  ghost predicate OpenOk(o: Open, log: seq<Logged>) {
    && o.at >= 0 && BucketStart(o.at) == o.at
    && (forall i :: 0 <= i < |log| ==> 0 <= log[i].bucket <= o.at)
    && (forall s :: LatencyOf(o, s) == LatenciesIn(log, s, o.at) && FailuresOf(o, s) == FailuresIn(log, s, o.at))
    && (forall s :: s in o.latency || s in o.failures <==> Holds(log, s, o.at))
  }

  /** The row a bucket's readings deserve. */
  ghost predicate RowOk(row: Row, log: seq<Logged>) {
    row.at >= 0 && BucketStart(row.at) == row.at
    && row == Summary(row.subject, row.at, LatenciesIn(log, row.subject, row.at), FailuresIn(log, row.subject, row.at))
  }

  /** Closed buckets: one exact row for each subject read in it, no more. */
  ghost predicate RowsOk(rows: seq<Row>, o: Open, log: seq<Logged>) {
    && (forall i :: 0 <= i < |rows| ==> rows[i].at < o.at && RowOk(rows[i], log) && Holds(log, rows[i].subject, rows[i].at))
    && (forall i, j :: 0 <= i < j < |rows| ==> rows[i].subject != rows[j].subject || rows[i].at != rows[j].at)
    && (forall k :: 0 <= k < |log| && log[k].bucket < o.at ==> HasRow(rows, log[k].reading.subject, log[k].bucket))
  }

  ghost predicate HasRow(rows: seq<Row>, subject: string, bucket: Time) {
    exists i :: 0 <= i < |rows| && rows[i].subject == subject && rows[i].at == bucket
  }

  lemma OneMoreLogged(log: seq<Logged>, x: Logged, subject: string, bucket: Time)
    ensures LatenciesIn(log + [x], subject, bucket) ==
      if Is(x, subject, bucket) && x.reading.sample.ok
      then LatenciesIn(log, subject, bucket) + [x.reading.sample.latencyMs]
      else LatenciesIn(log, subject, bucket)
    ensures FailuresIn(log + [x], subject, bucket) == FailuresIn(log, subject, bucket)
      + (if Is(x, subject, bucket) && !x.reading.sample.ok then 1 else 0)
    ensures Holds(log + [x], subject, bucket) <==> Holds(log, subject, bucket) || Is(x, subject, bucket)
  {
    var more := log + [x];
    assert more[..|more| - 1] == log;
    assert more[|log|] == x;
    if Holds(log, subject, bucket) {
      var i :| 0 <= i < |log| && Is(log[i], subject, bucket);
      assert Is(more[i], subject, bucket);
    }
  }

  lemma AddKeepsOpen(o: Open, log: seq<Logged>, r: Reading)
    requires OpenOk(o, log)
    ensures OpenOk(Added(o, r), log + [Logged(r, o.at)])
  {
    forall s
      ensures LatencyOf(Added(o, r), s) == LatenciesIn(log + [Logged(r, o.at)], s, o.at)
      ensures FailuresOf(Added(o, r), s) == FailuresIn(log + [Logged(r, o.at)], s, o.at)
      ensures s in Added(o, r).latency || s in Added(o, r).failures <==> Holds(log + [Logged(r, o.at)], s, o.at)
    {
      OneMoreLogged(log, Logged(r, o.at), s, o.at);
    }
  }

  lemma AddKeepsRows(rows: seq<Row>, o: Open, log: seq<Logged>, r: Reading)
    requires OpenOk(o, log) && RowsOk(rows, o, log)
    ensures RowsOk(rows, Added(o, r), log + [Logged(r, o.at)])
  {
    forall i | 0 <= i < |rows|
      ensures RowOk(rows[i], log + [Logged(r, o.at)]) && Holds(log + [Logged(r, o.at)], rows[i].subject, rows[i].at)
    {
      OneMoreLogged(log, Logged(r, o.at), rows[i].subject, rows[i].at);
    }
  }

  lemma RollOpen(o: Open, log: seq<Logged>, start: Time)
    requires OpenOk(o, log) && o.at < start && BucketStart(start) == start
    ensures OpenOk(Open(start, map[], map[]), log)
  {
    forall s ensures LatenciesIn(log, s, start) == [] && FailuresIn(log, s, start) == 0 {
      NothingLater(log, s, start);
    }
  }

  lemma {:induction false} NothingLater(log: seq<Logged>, subject: string, bucket: Time)
    requires forall i :: 0 <= i < |log| ==> log[i].bucket < bucket
    ensures LatenciesIn(log, subject, bucket) == [] && FailuresIn(log, subject, bucket) == 0
  {
    if log != [] {
      NothingLater(log[..|log| - 1], subject, bucket);
    }
  }

  lemma FlushedRow(o: Open, log: seq<Logged>, subject: string)
    requires OpenOk(o, log)
    ensures RowOk(RowOf(o, subject), log) && RowOf(o, subject).at == o.at && RowOf(o, subject).subject == subject
  {
    assert LatencyOf(o, subject) == LatenciesIn(log, subject, o.at);
  }

  lemma FlushedRows(o: Open, log: seq<Logged>, rows: seq<Row>)
    requires OpenOk(o, log) && IsFlush(rows, o)
    ensures forall i :: 0 <= i < |rows| ==> rows[i].at == o.at && RowOk(rows[i], log) && Holds(log, rows[i].subject, o.at)
    ensures forall k :: 0 <= k < |log| && log[k].bucket == o.at ==> HasRow(rows, log[k].reading.subject, o.at)
  {
    forall i | 0 <= i < |rows|
      ensures rows[i].at == o.at && RowOk(rows[i], log) && Holds(log, rows[i].subject, o.at)
    {
      FlushedRow(o, log, rows[i].subject);
      assert SubjectsIn(rows)[i] in SubjectsIn(rows);
    }
    forall k | 0 <= k < |log| && log[k].bucket == o.at ensures HasRow(rows, log[k].reading.subject, o.at) {
      assert Is(log[k], log[k].reading.subject, o.at);
      assert log[k].reading.subject in SubjectsIn(rows);
    }
  }

  lemma HasRowAppend(a: seq<Row>, b: seq<Row>, subject: string, bucket: Time)
    ensures HasRow(a, subject, bucket) || HasRow(b, subject, bucket) ==> HasRow(a + b, subject, bucket)
  {
    var all := a + b;
    if HasRow(a, subject, bucket) {
      var i :| 0 <= i < |a| && a[i].subject == subject && a[i].at == bucket;
      assert all[i] == a[i];
    } else if HasRow(b, subject, bucket) {
      var i :| 0 <= i < |b| && b[i].subject == subject && b[i].at == bucket;
      assert all[|a| + i] == b[i];
    }
  }

  lemma RollRows(rows: seq<Row>, o: Open, log: seq<Logged>, flushed: seq<Row>, start: Time)
    requires OpenOk(o, log) && RowsOk(rows, o, log) && IsFlush(flushed, o) && o.at < start
    ensures RowsOk(rows + flushed, Open(start, map[], map[]), log)
  {
    var all := rows + flushed;
    FlushedRows(o, log, flushed);
    forall k | 0 <= k < |log| && log[k].bucket < start ensures HasRow(all, log[k].reading.subject, log[k].bucket) {
      HasRowAppend(rows, flushed, log[k].reading.subject, log[k].bucket);
    }
  }

  // ---------------------------------------------------------------------
  // Counting readings
  // ---------------------------------------------------------------------

  function TotalSamples(rows: seq<Row>): nat {
    if rows == [] then 0 else rows[0].samples + TotalSamples(rows[1..])
  }

  function LoggedIn(log: seq<Logged>, bucket: Time): nat {
    if log == [] then 0
    else LoggedIn(log[..|log| - 1], bucket) + (if log[|log| - 1].bucket == bucket then 1 else 0)
  }

  function LoggedBefore(log: seq<Logged>, bucket: Time): nat {
    if log == [] then 0
    else LoggedBefore(log[..|log| - 1], bucket) + (if log[|log| - 1].bucket < bucket then 1 else 0)
  }

  function SumOver(subjects: seq<string>, log: seq<Logged>, bucket: Time): nat {
    if subjects == [] then 0 else ReadingsIn(log, subjects[0], bucket) + SumOver(subjects[1..], log, bucket)
  }

  lemma {:induction false} SumOverOneMore(subjects: seq<string>, log: seq<Logged>, x: Logged, bucket: Time)
    requires forall i, j :: 0 <= i < j < |subjects| ==> subjects[i] != subjects[j]
    ensures SumOver(subjects, log + [x], bucket)
      == SumOver(subjects, log, bucket) + (if x.bucket == bucket && x.reading.subject in subjects then 1 else 0)
  {
    if subjects != [] {
      SumOverOneMore(subjects[1..], log, x, bucket);
      OneMoreLogged(log, x, subjects[0], bucket);
      assert x.reading.subject in subjects <==> x.reading.subject == subjects[0] || x.reading.subject in subjects[1..];
    }
  }

  lemma {:induction false} SumOverNothing(subjects: seq<string>, bucket: Time)
    ensures SumOver(subjects, [], bucket) == 0
  {
    if subjects != [] {
      SumOverNothing(subjects[1..], bucket);
    }
  }

  lemma {:induction false} SubjectsShareBucket(subjects: seq<string>, log: seq<Logged>, bucket: Time)
    requires forall i, j :: 0 <= i < j < |subjects| ==> subjects[i] != subjects[j]
    requires forall k :: 0 <= k < |log| && log[k].bucket == bucket ==> log[k].reading.subject in subjects
    ensures SumOver(subjects, log, bucket) == LoggedIn(log, bucket)
  {
    if log == [] {
      SumOverNothing(subjects, bucket);
    } else {
      var n := |log| - 1;
      SubjectsShareBucket(subjects, log[..n], bucket);
      assert log == log[..n] + [log[n]];
      SumOverOneMore(subjects, log[..n], log[n], bucket);
    }
  }

  lemma {:induction false} FlushTotal(rows: seq<Row>, o: Open, log: seq<Logged>)
    requires OpenOk(o, log) && forall i :: 0 <= i < |rows| ==> rows[i] == RowOf(o, rows[i].subject)
    ensures TotalSamples(rows) == SumOver(SubjectsIn(rows), log, o.at)
  {
    if rows != [] {
      var subject := rows[0].subject;
      FlushTotal(rows[1..], o, log);
      assert SubjectsIn(rows)[1..] == SubjectsIn(rows[1..]);
      assert LatencyOf(o, subject) == LatenciesIn(log, subject, o.at);
      assert FailuresOf(o, subject) == FailuresIn(log, subject, o.at);
    }
  }

  lemma {:induction false} TotalAppend(a: seq<Row>, b: seq<Row>)
    ensures TotalSamples(a + b) == TotalSamples(a) + TotalSamples(b)
  {
    if a == [] {
      assert a + b == b;
    } else {
      assert (a + b)[1..] == a[1..] + b;
      TotalAppend(a[1..], b);
    }
  }

  lemma {:induction false} BeforeLater(log: seq<Logged>, at: Time, start: Time)
    requires at < start && forall i :: 0 <= i < |log| ==> log[i].bucket <= at
    ensures LoggedBefore(log, start) == LoggedBefore(log, at) + LoggedIn(log, at) == |log|
  {
    if log != [] {
      BeforeLater(log[..|log| - 1], at, start);
    }
  }

  lemma RollTotal(rows: seq<Row>, o: Open, log: seq<Logged>, flushed: seq<Row>, start: Time)
    requires OpenOk(o, log) && IsFlush(flushed, o) && o.at < start
    requires TotalSamples(rows) == LoggedBefore(log, o.at)
    ensures TotalSamples(rows + flushed) == LoggedBefore(log, start) == |log|
  {
    forall k | 0 <= k < |log| && log[k].bucket == o.at ensures log[k].reading.subject in SubjectsIn(flushed) {
      assert Is(log[k], log[k].reading.subject, o.at);
    }
    FlushTotal(flushed, o, log);
    SubjectsShareBucket(SubjectsIn(flushed), log, o.at);
    TotalAppend(rows, flushed);
    BeforeLater(log, o.at, start);
  }

  // ---------------------------------------------------------------------
  // Whole runs
  // ---------------------------------------------------------------------

  datatype Poll = Poll(readings: seq<Reading>, now: Instant)
  datatype Step = Step(poll: Poll, completed: seq<Row>, after: Open)

  /** What Record's contract allows. */
  ghost predicate StepOk(o: Open, s: Step) {
    var start := BucketStart(s.poll.now);
    && o.at >= 0
    && if s.poll.readings == [] then s.after == o && s.completed == []
       else if start == o.at then s.after == AddedAll(o, s.poll.readings) && s.completed == []
       else s.after == AddedAll(Open(start, map[], map[]), s.poll.readings) && IsFlush(s.completed, o)
  }

  ghost predicate IsRun(o: Open, run: seq<Step>, since: Time)
    decreases |run|
  {
    run == [] || (since <= run[0].poll.now && StepOk(o, run[0]) && IsRun(run[0].after, run[1..], run[0].poll.now))
  }

  function Marked(readings: seq<Reading>, bucket: Time): (r: seq<Logged>)
    ensures |r| == |readings|
  {
    if readings == [] then []
    else Marked(readings[..|readings| - 1], bucket) + [Logged(readings[|readings| - 1], bucket)]
  }

  function LogOf(run: seq<Step>): seq<Logged> {
    if run == [] then [] else Marked(run[0].poll.readings, BucketStart(run[0].poll.now)) + LogOf(run[1..])
  }

  function Emitted(run: seq<Step>): seq<Row> {
    if run == [] then [] else run[0].completed + Emitted(run[1..])
  }

  function End(o: Open, run: seq<Step>): Open {
    if run == [] then o else run[|run| - 1].after
  }

  /** Rows written so far and the open bucket account for the log. */
  ghost predicate Accounted(rows: seq<Row>, o: Open, log: seq<Logged>) {
    OpenOk(o, log) && RowsOk(rows, o, log) && TotalSamples(rows) == LoggedBefore(log, o.at)
  }

  lemma AddOneAccounted(rows: seq<Row>, o: Open, log: seq<Logged>, r: Reading)
    requires Accounted(rows, o, log)
    ensures Accounted(rows, Added(o, r), log + [Logged(r, o.at)])
  {
    AddKeepsOpen(o, log, r);
    AddKeepsRows(rows, o, log, r);
    assert (log + [Logged(r, o.at)])[..|log + [Logged(r, o.at)]| - 1] == log;
  }

  lemma {:induction false} AddAllAccounted(rows: seq<Row>, o: Open, log: seq<Logged>, readings: seq<Reading>)
    requires Accounted(rows, o, log)
    ensures Accounted(rows, AddedAll(o, readings), log + Marked(readings, o.at))
    ensures AddedAll(o, readings).at == o.at
  {
    if readings == [] {
      assert log + [] == log;
    } else {
      var n := |readings| - 1;
      AddAllAccounted(rows, o, log, readings[..n]);
      AddOneAccounted(rows, AddedAll(o, readings[..n]), log + Marked(readings[..n], o.at), readings[n]);
      Associative(log, Marked(readings[..n], o.at), [Logged(readings[n], o.at)]);
    }
  }

  lemma StepAccounted(rows: seq<Row>, o: Open, log: seq<Logged>, s: Step, since: Time)
    requires Accounted(rows, o, log) && 0 <= o.at <= since <= s.poll.now
    requires StepOk(o, s)
    ensures Accounted(rows + s.completed, s.after, log + Marked(s.poll.readings, BucketStart(s.poll.now)))
    ensures 0 <= s.after.at <= s.poll.now
  {
    var start := BucketStart(s.poll.now);
    BucketStartSnaps(o.at, s.poll.now);
    if s.poll.readings == [] || start == o.at {
      assert rows + s.completed == rows;
      AddAllAccounted(rows, o, log, s.poll.readings);
    } else {
      BucketStartSnaps(s.poll.now, s.poll.now);
      RollOpen(o, log, start);
      RollRows(rows, o, log, s.completed, start);
      RollTotal(rows, o, log, s.completed, start);
      AddAllAccounted(rows + s.completed, Open(start, map[], map[]), log, s.poll.readings);
    }
  }

  lemma {:induction false} RunAccounted(rows: seq<Row>, o: Open, log: seq<Logged>, run: seq<Step>, since: Time)
    requires Accounted(rows, o, log) && IsRun(o, run, since) && 0 <= o.at <= since
    ensures Accounted(rows + Emitted(run), End(o, run), log + LogOf(run))
    decreases |run|
  {
    RunParts(rows, o, log, run);
    if run != [] {
      var s := run[0];
      StepAccounted(rows, o, log, s, since);
      RunAccounted(rows + s.completed, s.after, log + Marked(s.poll.readings, BucketStart(s.poll.now)), run[1..], s.poll.now);
    }
  }

  lemma RunParts(rows: seq<Row>, o: Open, log: seq<Logged>, run: seq<Step>)
    ensures run == [] ==> rows + Emitted(run) == rows && log + LogOf(run) == log
    ensures run != [] ==>
      && (rows + run[0].completed) + Emitted(run[1..]) == rows + Emitted(run)
      && (log + Marked(run[0].poll.readings, BucketStart(run[0].poll.now))) + LogOf(run[1..]) == log + LogOf(run)
      && End(run[0].after, run[1..]) == End(o, run)
  {
    if run == [] {
      assert rows + [] == rows && log + [] == log;
    } else {
      Associative(rows, run[0].completed, Emitted(run[1..]));
      Associative(log, Marked(run[0].poll.readings, BucketStart(run[0].poll.now)), LogOf(run[1..]));
    }
  }

  /** On a clock that does not go back: each subject and bucket is written at most
      once, with exactly its readings; every closed bucket a subject was read in is
      written, failures only or not; and what is written and what is open together
      are all readings ever recorded. */
  lemma EveryReadingCounted(run: seq<Step>)
    requires IsRun(EMPTY, run, 0)
    ensures RowsOk(Emitted(run), End(EMPTY, run), LogOf(run)) && OpenOk(End(EMPTY, run), LogOf(run))
    ensures TotalSamples(Emitted(run)) + LoggedIn(LogOf(run), End(EMPTY, run).at) == |LogOf(run)|
  {
    EmptyAccounted();
    RunAccounted([], EMPTY, [], run, 0);
    assert [] + Emitted(run) == Emitted(run) && [] + LogOf(run) == LogOf(run);
    AccountedMeans(Emitted(run), End(EMPTY, run), LogOf(run));
  }

  lemma AccountedMeans(rows: seq<Row>, o: Open, log: seq<Logged>)
    requires Accounted(rows, o, log)
    ensures TotalSamples(rows) + LoggedIn(log, o.at) == |log|
  {
    BeforeLater(log, o.at, o.at + 1);
  }

  lemma EmptyAccounted()
    ensures Accounted([], EMPTY, [])
  {
  }
}
