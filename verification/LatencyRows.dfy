/** What a written latency row says of its readings, field by field and by counting
    them. */
module LatencyRows {
  import opened Models
  import opened StableSort
  import opened ProbeBaseline
  import opened LatencyBuckets
  import R = LatencyReturns

  /** The subject's failed readings logged for a bucket, as positions in the log. */
  ghost function FailedAt(log: seq<Logged>, subject: string, bucket: Time): set<nat> {
    set k: nat | k < |log| && log[k].reading.subject == subject && log[k].bucket == bucket && !log[k].reading.sample.ok
  }

  /** The successful ones of no more than a latency. */
  ghost function WithinAt(log: seq<Logged>, subject: string, bucket: Time, latency: int): set<nat> {
    set k: nat | k in SucceededAt(log, subject, bucket) && log[k].reading.sample.latencyMs <= latency
  }

  ghost function SucceededAt(log: seq<Logged>, subject: string, bucket: Time): (r: set<nat>)
    ensures forall k :: k in r ==> k < |log|
  {
    set k: nat | k < |log| && log[k].reading.subject == subject && log[k].bucket == bucket && log[k].reading.sample.ok
  }

  /** The latency at position r when the successes stand in order. */
  ghost predicate IsLatencyAt(log: seq<Logged>, subject: string, bucket: Time, latency: int, r: nat) {
    |WithinAt(log, subject, bucket, latency - 1)| <= r < |WithinAt(log, subject, bucket, latency)|
  }

  ghost predicate IsMedianOf(log: seq<Logged>, subject: string, bucket: Time, latency: int) {
    var n := |SucceededAt(log, subject, bucket)|;
    if n % 2 == 1 then IsLatencyAt(log, subject, bucket, latency, n / 2)
    else n > 0 && exists low, high ::
      && IsLatencyAt(log, subject, bucket, low, n / 2 - 1) && IsLatencyAt(log, subject, bucket, high, n / 2)
      && IsMeanOf(latency, low, high)
  }

  /** Failures and samples are counted; least and greatest latency are attained and bound
      all; the median is in the middle; with failures only all three are zero. */
  ghost predicate IsExact(row: Row, log: seq<Logged>, bucket: Time) {
    var failed, good := FailedAt(log, row.subject, bucket), SucceededAt(log, row.subject, bucket);
    && row.failures == |failed| && row.samples == |failed| + |good|
    && if good == {} then row.minMs == row.maxMs == row.medianMs == 0
       else
         && (forall k :: k in good ==> row.minMs <= log[k].reading.sample.latencyMs <= row.maxMs)
         && (exists k :: k in good && log[k].reading.sample.latencyMs == row.minMs)
         && (exists k :: k in good && log[k].reading.sample.latencyMs == row.maxMs)
         && IsMedianOf(log, row.subject, bucket, row.medianMs)
  }

  // ---------------------------------------------------------------------
  // The latencies of a log, by position
  // ---------------------------------------------------------------------

  lemma SucceededOneMore(log: seq<Logged>, subject: string, bucket: Time)
    requires log != []
    ensures var n := |log| - 1;
      && (forall k: nat :: k in SucceededAt(log, subject, bucket) <==>
            k in SucceededAt(log[..n], subject, bucket) || (k == n && Is(log[n], subject, bucket) && log[n].reading.sample.ok))
      && (forall k: nat :: k in FailedAt(log, subject, bucket) <==>
            k in FailedAt(log[..n], subject, bucket) || (k == n && Is(log[n], subject, bucket) && !log[n].reading.sample.ok))
  {
  }

  lemma {:induction false} FailuresCounted(log: seq<Logged>, subject: string, bucket: Time)
    ensures |FailedAt(log, subject, bucket)| == FailuresIn(log, subject, bucket)
    decreases |log|
  {
    if log != [] {
      var n := |log| - 1;
      FailuresCounted(log[..n], subject, bucket);
      SucceededOneMore(log, subject, bucket);
      var before := FailedAt(log[..n], subject, bucket);
      assert FailedAt(log, subject, bucket) == if Is(log[n], subject, bucket) && !log[n].reading.sample.ok then before + {n} else before;
    }
  }

  lemma {:induction false} SuccessesCounted(log: seq<Logged>, subject: string, bucket: Time)
    ensures |SucceededAt(log, subject, bucket)| == |LatenciesIn(log, subject, bucket)|
    decreases |log|
  {
    if log != [] {
      var n := |log| - 1;
      SuccessesCounted(log[..n], subject, bucket);
      SucceededOneMore(log, subject, bucket);
      var before := SucceededAt(log[..n], subject, bucket);
      assert SucceededAt(log, subject, bucket) == if Is(log[n], subject, bucket) && log[n].reading.sample.ok then before + {n} else before;
    }
  }

  lemma WithinOneMore(log: seq<Logged>, subject: string, bucket: Time, latency: int)
    requires log != []
    ensures var n := |log| - 1;
      WithinAt(log, subject, bucket, latency) == WithinAt(log[..n], subject, bucket, latency)
        + (if Is(log[n], subject, bucket) && log[n].reading.sample.ok && log[n].reading.sample.latencyMs <= latency then {n} else {})
  {
    SucceededOneMore(log, subject, bucket);
  }

  lemma {:induction false} WithinCounted(log: seq<Logged>, subject: string, bucket: Time, latency: int)
    ensures |WithinAt(log, subject, bucket, latency)| == AtMost(LatenciesIn(log, subject, bucket), latency)
    decreases |log|
  {
    if log != [] {
      var n := |log| - 1;
      WithinCounted(log[..n], subject, bucket, latency);
      WithinOneMore(log, subject, bucket, latency);
      LatenciesOneMore(log, subject, bucket, latency);
    }
  }

  lemma LatenciesOneMore(log: seq<Logged>, subject: string, bucket: Time, latency: int)
    requires log != []
    ensures var n := |log| - 1;
      AtMost(LatenciesIn(log, subject, bucket), latency) == AtMost(LatenciesIn(log[..n], subject, bucket), latency)
        + (if Is(log[n], subject, bucket) && log[n].reading.sample.ok && log[n].reading.sample.latencyMs <= latency then 1 else 0)
  {
    var n := |log| - 1;
    AtMostAppend(LatenciesIn(log[..n], subject, bucket), log[n].reading.sample.latencyMs, latency);
    assert LatenciesIn(log[..n], subject, bucket) + [] == LatenciesIn(log[..n], subject, bucket);
  }

  lemma {:induction false} LatenciesLogged(log: seq<Logged>, subject: string, bucket: Time, x: int)
    ensures x in LatenciesIn(log, subject, bucket) <==>
      exists k :: k in SucceededAt(log, subject, bucket) && log[k].reading.sample.latencyMs == x
    decreases |log|
  {
    if log != [] {
      var n := |log| - 1;
      LatenciesLogged(log[..n], subject, bucket, x);
      SucceededOneMore(log, subject, bucket);
      if k :| k in SucceededAt(log[..n], subject, bucket) && log[..n][k].reading.sample.latencyMs == x {
        assert k in SucceededAt(log, subject, bucket) && log[k].reading.sample.latencyMs == x;
      }
      if Is(log[n], subject, bucket) && log[n].reading.sample.ok {
        assert n in SucceededAt(log, subject, bucket);
      }
    }
  }

  lemma MedianLogged(log: seq<Logged>, subject: string, bucket: Time)
    requires LatenciesIn(log, subject, bucket) != []
    ensures IsMedianOf(log, subject, bucket, Median(LatenciesIn(log, subject, bucket)))
  {
    var xs := LatenciesIn(log, subject, bucket);
    MedianIsMiddle(xs);
    SuccessesCounted(log, subject, bucket);
    forall latency, r: nat ensures IsLatencyAt(log, subject, bucket, latency, r) <==> IsAtRank(xs, latency, r) {
      WithinCounted(log, subject, bucket, latency);
      WithinCounted(log, subject, bucket, latency - 1);
    }
  }

  /** The row that the readings of a log deserve. */
  lemma SummaryIsExact(row: Row, log: seq<Logged>, subject: string, bucket: Time)
    requires bucket >= 0
    requires row.(at := bucket) == Summary(subject, bucket, LatenciesIn(log, subject, bucket), FailuresIn(log, subject, bucket)).(at := bucket)
    ensures IsExact(row, log, bucket)
  {
    var xs, good := LatenciesIn(log, subject, bucket), SucceededAt(log, subject, bucket);
    FailuresCounted(log, subject, bucket);
    SuccessesCounted(log, subject, bucket);
    if xs != [] {
      MedianLogged(log, subject, bucket);
      SummaryBounds(subject, bucket, xs, FailuresIn(log, subject, bucket), xs[0]);
      LatenciesLogged(log, subject, bucket, row.minMs);
      LatenciesLogged(log, subject, bucket, row.maxMs);
      forall k | k in good ensures row.minMs <= log[k].reading.sample.latencyMs <= row.maxMs {
        LatenciesLogged(log, subject, bucket, log[k].reading.sample.latencyMs);
        SummaryBounds(subject, bucket, xs, FailuresIn(log, subject, bucket), log[k].reading.sample.latencyMs);
      }
    }
  }

  /** On a clock that does not go back, every row written is exact for its subject and
      bucket. */
  lemma EveryRowExact(run: seq<Step>)
    requires IsRun(EMPTY, run, 0)
    ensures forall i :: 0 <= i < |Emitted(run)| ==> IsExact(Emitted(run)[i], LogOf(run), Emitted(run)[i].at)
  {
    EveryReadingCounted(run);
    forall i | 0 <= i < |Emitted(run)| ensures IsExact(Emitted(run)[i], LogOf(run), Emitted(run)[i].at) {
      var row := Emitted(run)[i];
      assert RowOk(row, LogOf(run));
      SummaryIsExact(row, LogOf(run), row.subject, row.at);
    }
  }

  /** On any clock, every row written is exact for its subject and its stay. */
  lemma EveryStayRowExact(run: seq<Step>)
    requires R.IsAnyRun(EMPTY, run)
    ensures var rows, stays, log := Emitted(run), R.RowStays(run, 0, 0), R.StayLog(run);
      |stays| == |rows| && forall i :: 0 <= i < |rows| ==> IsExact(rows[i], log, stays[i] * BUCKET)
  {
    R.AnyClock(run);
    StayRowsExact(Emitted(run), R.RowStays(run, 0, 0), R.StayTimes(run, 0), R.StayLog(run));
  }

  lemma StayRowsExact(rows: seq<Row>, stays: seq<nat>, times: seq<Time>, log: seq<Logged>)
    requires R.StayRows(rows, stays, times, log)
    ensures forall i :: 0 <= i < |rows| ==> IsExact(rows[i], log, stays[i] * BUCKET)
  {
    forall i | 0 <= i < |rows| ensures IsExact(rows[i], log, stays[i] * BUCKET) {
      StayRowExact(rows[i], stays[i], times, log);
    }
  }

  lemma StayRowExact(row: Row, stay: nat, times: seq<Time>, log: seq<Logged>)
    requires R.IsStayRow(row, stay, times, log)
    ensures IsExact(row, log, stay * BUCKET)
  {
    SummaryIsExact(row, log, row.subject, stay * BUCKET);
  }
}
