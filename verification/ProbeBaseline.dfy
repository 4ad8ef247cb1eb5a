/** The rolling probe windows and the median baseline drawn from them. */
module ProbeBaseline {
  import opened Models
  import opened StableSort
  import opened Collections

  const WINDOW_SAMPLES := 120
  const BASELINE_MIN_SAMPLES := 20

  datatype Sample = Sample(latencyMs: int, ok: bool)
  datatype Reading = Reading(subject: string, sample: Sample)

  /** The failure rate is failed / count. */
  datatype Annotation = Annotation(count: nat, failed: nat, baselineMs: int)

  // ---------------------------------------------------------------------
  // Median
  // ---------------------------------------------------------------------

  function Identity(x: int): int { x }

  /** Go's division by two truncates toward zero. */
  function Half(n: int): int {
    if n >= 0 then n / 2 else -(-n / 2)
  }

  function Middle(sorted: seq<int>): int
    requires sorted != []
  {
    var middle := |sorted| / 2;
    if |sorted| % 2 == 1 then sorted[middle] else Half(sorted[middle - 1] + sorted[middle])
  }

  function Median(values: seq<int>): int
    requires values != []
  {
    Middle(Sort(values, Identity))
  }

  function AtMost(values: seq<int>, bound: int): nat {
    if values == [] then 0 else (if values[0] <= bound then 1 else 0) + AtMost(values[1..], bound)
  }

  lemma {:induction false} AtMostBounded(values: seq<int>, bound: int)
    ensures AtMost(values, bound) <= |values|
  {
    if values != [] {
      AtMostBounded(values[1..], bound);
    }
  }

  lemma {:induction false} AtMostInsert(s: seq<int>, x: int, bound: int)
    ensures AtMost(Insert(s, x, Identity), bound) == AtMost(s, bound) + (if x <= bound then 1 else 0)
  {
    if s == [] || x < s[0] {
      assert ([x] + s)[1..] == s;
    } else {
      AtMostInsert(s[1..], x, bound);
      assert ([s[0]] + Insert(s[1..], x, Identity))[1..] == Insert(s[1..], x, Identity);
    }
  }

  lemma {:induction false} AtMostAppend(a: seq<int>, x: int, bound: int)
    ensures AtMost(a + [x], bound) == AtMost(a, bound) + (if x <= bound then 1 else 0)
  {
    if a != [] {
      assert (a + [x])[1..] == a[1..] + [x];
      AtMostAppend(a[1..], x, bound);
    }
  }

  lemma {:induction false} AtMostSort(s: seq<int>, bound: int)
    ensures AtMost(Sort(s, Identity), bound) == AtMost(s, bound)
  {
    if s != [] {
      var n := |s| - 1;
      AtMostSort(s[..n], bound);
      AtMostInsert(Sort(s[..n], Identity), s[n], bound);
      AtMostAppend(s[..n], s[n], bound);
      assert s == s[..n] + [s[n]];
    }
  }

  /** In a sorted sequence the elements up to a bound come first. */
  lemma {:induction false} AtMostIsPrefix(s: seq<int>, bound: int, i: nat)
    requires Sorted(s, Identity) && i < |s|
    ensures s[i] <= bound <==> i < AtMost(s, bound)
  {
    AtMostBounded(s, bound);
    if s[0] > bound {
      NoneAtMost(s, bound);
      assert Identity(s[0]) <= Identity(s[i]);
    } else if i > 0 {
      AtMostIsPrefix(s[1..], bound, i - 1);
    }
  }

  lemma {:induction false} NoneAtMost(s: seq<int>, bound: int)
    requires forall i :: 0 <= i < |s| ==> s[i] > bound
    ensures AtMost(s, bound) == 0
  {
    if s != [] {
      NoneAtMost(s[1..], bound);
    }
  }

  lemma MiddleIsRobust(sorted: seq<int>, bound: int)
    requires sorted != [] && Sorted(sorted, Identity)
    ensures 2 * AtMost(sorted, bound) > |sorted| ==> Middle(sorted) <= bound
    ensures 2 * AtMost(sorted, bound) < |sorted| ==> Middle(sorted) > bound
  {
    var middle := |sorted| / 2;
    AtMostIsPrefix(sorted, bound, middle);
    if |sorted| % 2 == 0 {
      AtMostIsPrefix(sorted, bound, middle - 1);
    }
  }

  /** When more than half of the values are at most a bound, so is the median, and
      when more than half exceed it, so does the median: the other half may be
      arbitrarily far off. */
  lemma MedianIsRobust(values: seq<int>, bound: int)
    requires values != []
    ensures 2 * AtMost(values, bound) > |values| ==> Median(values) <= bound
    ensures 2 * AtMost(values, bound) < |values| ==> Median(values) > bound
  {
    SortIsStable(values, Identity);
    AtMostSort(values, bound);
    MiddleIsRobust(Sort(values, Identity), bound);
  }

  /** x is the value at position r when the values stand in order. */
  predicate IsAtRank(values: seq<int>, x: int, r: nat) {
    AtMost(values, x - 1) <= r < AtMost(values, x)
  }

  /** x is the mean of two values, without its fraction. */
  predicate IsMeanOf(x: int, low: int, high: int) {
    if low + high >= 0 then 2 * x <= low + high < 2 * x + 2 else 2 * x - 2 < low + high <= 2 * x
  }

  /** The median is the value in the middle, or the mean of the two there. */
  ghost predicate IsMiddle(values: seq<int>, x: int) {
    var n := |values|;
    if n % 2 == 1 then IsAtRank(values, x, n / 2)
    else n > 0 && exists low, high :: IsAtRank(values, low, n / 2 - 1) && IsAtRank(values, high, n / 2) && IsMeanOf(x, low, high)
  }

  lemma SortedAtRank(values: seq<int>, r: nat)
    requires r < |values|
    ensures |Sort(values, Identity)| == |values| && IsAtRank(values, Sort(values, Identity)[r], r)
  {
    SortIsStable(values, Identity);
    var sorted := Sort(values, Identity);
    AtMostIsPrefix(sorted, sorted[r], r);
    AtMostIsPrefix(sorted, sorted[r] - 1, r);
    AtMostSort(values, sorted[r]);
    AtMostSort(values, sorted[r] - 1);
  }

  lemma MedianIsMiddle(values: seq<int>)
    requires values != []
    ensures IsMiddle(values, Median(values))
  {
    var n, sorted := |values|, Sort(values, Identity);
    SortedAtRank(values, n / 2);
    if n % 2 == 0 {
      SortedAtRank(values, n / 2 - 1);
      assert IsMeanOf(Median(values), sorted[n / 2 - 1], sorted[n / 2]);
    }
  }

  function Repeat(k: int, n: nat): seq<int> {
    if n == 0 then [] else [k] + Repeat(k, n - 1)
  }

  lemma {:induction false} WithKeyRepeats(s: seq<int>, k: int)
    ensures WithKey(s, Identity, k) == Repeat(k, multiset(s)[k])
  {
    if s != [] {
      WithKeyRepeats(s[1..], k);
      assert s == [s[0]] + s[1..];
      assert multiset(s)[k] == multiset(s[1..])[k] + (if s[0] == k then 1 else 0);
    }
  }

  lemma SortIgnoresOrder(a: seq<int>, b: seq<int>)
    requires multiset(a) == multiset(b)
    ensures Sort(a, Identity) == Sort(b, Identity)
  {
    SortIsStable(a, Identity);
    SortIsStable(b, Identity);
    forall k ensures WithKey(Sort(a, Identity), Identity, k) == WithKey(Sort(b, Identity), Identity, k) {
      WithKeyRepeats(a, k);
      WithKeyRepeats(b, k);
    }
    StableSortUnique(Sort(a, Identity), Sort(b, Identity), Identity);
  }

  /** The median depends on the values, not on when they were seen. */
  lemma MedianIgnoresOrder(a: seq<int>, b: seq<int>)
    requires a != [] && multiset(a) == multiset(b)
    ensures b != [] && Median(a) == Median(b)
  {
    assert |a| == |multiset(a)| == |b|;
    SortIgnoresOrder(a, b);
  }

  // ---------------------------------------------------------------------
  // Windows
  // ---------------------------------------------------------------------

  function Successes(window: seq<Sample>): (r: seq<int>)
    ensures |r| <= |window|
  {
    if window == [] then []
    else
      var last := window[|window| - 1];
      Successes(window[..|window| - 1]) + (if last.ok then [last.latencyMs] else [])
  }

  /** 0 stands for "no baseline". */
  function Baseline(window: seq<Sample>): int {
    var values := Successes(window);
    if |values| < BASELINE_MIN_SAMPLES then 0 else Median(values)
  }

  lemma {:induction false} SameSuccesses(a: seq<Sample>, b: seq<Sample>)
    requires |a| == |b|
    requires forall i :: 0 <= i < |a| ==> a[i].ok == b[i].ok && (a[i].ok ==> a[i] == b[i])
    ensures Successes(a) == Successes(b)
  {
    if a != [] {
      SameSuccesses(a[..|a| - 1], b[..|b| - 1]);
    }
  }

  /** Failed readings do not move the baseline, however slow they were. */
  lemma FailuresDoNotCount(a: seq<Sample>, b: seq<Sample>)
    requires |a| == |b|
    requires forall i :: 0 <= i < |a| ==> a[i].ok == b[i].ok && (a[i].ok ==> a[i] == b[i])
    ensures Baseline(a) == Baseline(b)
  {
    SameSuccesses(a, b);
  }

  lemma BaselineIsRobust(window: seq<Sample>, bound: int)
    requires |Successes(window)| >= BASELINE_MIN_SAMPLES
    ensures 2 * AtMost(Successes(window), bound) > |Successes(window)| ==> Baseline(window) <= bound
    ensures 2 * AtMost(Successes(window), bound) < |Successes(window)| ==> Baseline(window) > bound
  {
    MedianIsRobust(Successes(window), bound);
  }

  type Windows = map<string, seq<Sample>>

  function WindowOf(m: Windows, subject: string): seq<Sample> {
    if subject in m then m[subject] else []
  }

  function LastSamples(s: seq<Sample>): seq<Sample> {
    if |s| <= WINDOW_SAMPLES then s else s[|s| - WINDOW_SAMPLES..]
  }

  function Pushed(m: Windows, r: Reading): Windows {
    m[r.subject := LastSamples(WindowOf(m, r.subject) + [r.sample])]
  }

  function PushedAll(m: Windows, readings: seq<Reading>): Windows {
    if readings == [] then m
    else Pushed(PushedAll(m, readings[..|readings| - 1]), readings[|readings| - 1])
  }

  function SamplesOf(readings: seq<Reading>, subject: string): seq<Sample> {
    if readings == [] then []
    else
      var last := readings[|readings| - 1];
      SamplesOf(readings[..|readings| - 1], subject) + (if last.subject == subject then [last.sample] else [])
  }

  lemma LastTwice(a: seq<Sample>, x: Sample)
    ensures LastSamples(LastSamples(a) + [x]) == LastSamples(a + [x])
  {
  }

  /** After any run each window is exactly the last 120 readings of its subject. */
  lemma {:induction false} WindowIsLastReadings(readings: seq<Reading>, subject: string)
    ensures WindowOf(PushedAll(map[], readings), subject) == LastSamples(SamplesOf(readings, subject))
  {
    if readings != [] {
      var n := |readings| - 1;
      WindowIsLastReadings(readings[..n], subject);
      if readings[n].subject == subject {
        LastTwice(SamplesOf(readings[..n], subject), readings[n].sample);
      } else {
        assert SamplesOf(readings, subject) == SamplesOf(readings[..n], subject);
      }
    }
  }

  function Failures(window: seq<Sample>): nat {
    if window == [] then 0
    else Failures(window[..|window| - 1]) + (if window[|window| - 1].ok then 0 else 1)
  }

  lemma {:induction false} FailuresAndSuccesses(window: seq<Sample>)
    ensures Failures(window) + |Successes(window)| == |window|
  {
    if window != [] {
      FailuresAndSuccesses(window[..|window| - 1]);
    }
  }

  method ProbeBaselineMs(window: seq<Sample>) returns (baseline: int)
    ensures baseline == Baseline(window)
  {
    var values := [];
    for i := 0 to |window|
      invariant values == Successes(window[..i])
    {
      assert window[..i + 1][..i] == window[..i];
      if window[i].ok {
        values := values + [window[i].latencyMs];
      }
    }
    assert window[..|window|] == window;
    if |values| < BASELINE_MIN_SAMPLES {
      return 0;
    }
    values := Sort(values, Identity);
    var middle := |values| / 2;
    if |values| % 2 == 1 {
      return values[middle];
    }
    baseline := Half(values[middle - 1] + values[middle]);
  }

  method CountFailed(window: seq<Sample>) returns (failed: nat)
    ensures failed == Failures(window)
  {
    failed := 0;
    for i := 0 to |window|
      invariant failed == Failures(window[..i])
    {
      assert window[..i + 1][..i] == window[..i];
      if !window[i].ok {
        failed := failed + 1;
      }
    }
    assert window[..|window|] == window;
  }

  class ProbeWindows {
    var samples: Windows

    constructor ()
      ensures samples == map[]
    {
      samples := map[];
    }

    method Push(reading: Reading) returns (note: Annotation)
      modifies this
      ensures samples == Pushed(old(samples), reading)
      ensures note == NoteOn(WindowOf(samples, reading.subject))
    {
      var window := WindowOf(samples, reading.subject) + [reading.sample];
      if |window| > WINDOW_SAMPLES {
        window := window[|window| - WINDOW_SAMPLES..];
      }
      samples := samples[reading.subject := window];
      var failed := CountFailed(window);
      var baseline := ProbeBaselineMs(window);
      note := Annotation(|window|, failed, baseline);
    }

    /** Each reading is annotated from its window right after it is pushed. */
    method Annotate(readings: seq<Reading>) returns (notes: seq<Annotation>)
      modifies this
      ensures samples == PushedAll(old(samples), readings)
      ensures notes == Notes(old(samples), readings)
    {
      ghost var before, wanted := samples, Notes(samples, readings);
      notes := [];
      for i := 0 to |readings|
        invariant samples == PushedAll(before, readings[..i])
        invariant notes == wanted[..i]
      {
        NextPushed(before, readings, i);
        var note := Push(readings[i]);
        Snoc(wanted, i);
        notes := notes + [note];
      }
      assert readings[..|readings|] == readings;
    }
  }

  function NoteOn(window: seq<Sample>): Annotation {
    Annotation(|window|, Failures(window), Baseline(window))
  }

  lemma NextPushed(m: Windows, readings: seq<Reading>, i: nat)
    requires i < |readings|
    ensures PushedAll(m, readings[..i + 1]) == Pushed(PushedAll(m, readings[..i]), readings[i])
  {
    Snoc(readings, i);
  }

  /** Reading i's annotation describes its subject's window once it is pushed. */
  function NoteAt(m: Windows, readings: seq<Reading>, i: nat): Annotation
    requires i < |readings|
  {
    NoteOn(WindowOf(PushedAll(m, readings[..i + 1]), readings[i].subject))
  }

  function Notes(m: Windows, readings: seq<Reading>): (r: seq<Annotation>)
    ensures |r| == |readings|
    ensures forall i :: 0 <= i < |readings| ==> r[i] == NoteAt(m, readings, i)
  {
    seq(|readings|, i requires 0 <= i < |readings| => NoteAt(m, readings, i))
  }

  /** From an empty tracker that is the subject's last 120 readings so far. */
  lemma NotesDescribeWindows(readings: seq<Reading>, i: nat)
    requires i < |readings|
    ensures Notes(map[], readings)[i] == NoteOn(LastSamples(SamplesOf(readings[..i + 1], readings[i].subject)))
  {
    WindowIsLastReadings(readings[..i + 1], readings[i].subject);
  }
}
