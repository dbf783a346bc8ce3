/** The resource probe's segment: what one window of cgroup samples amounts to. */
module Probe {
  import opened Common

  // `at` in seconds, `cpuUsec` the cumulative counter in microseconds.
  datatype Sample = Sample(at: real, cpuUsec: nat, workingSet: int, throttled: nat)

  datatype Resource = Resource(
    samples: nat, coreSeconds: real, coresMean: real, coresPeak: real,
    setMean: real, setPeak: int, throttled: bool, saturated: bool, microsPerOp: real, bytesPerConn: real)

  // The share of its cores a cell has to spend to count as saturated.
  const SATURATION: real := 0.9

  const WORD: nat := 0x1_0000_0000_0000_0000

  // Counters are 64-bit and unsigned: a counter that went down reads as one that went far up.
  function Delta(later: nat, earlier: nat): int { if later >= earlier then later - earlier else later - earlier + WORD }

  function RealMax(a: real, b: real): real { if a < b then b else a }

  // ------------------------------------------------------------------ the window

  predicate Inside(s: Sample, from: real, to: real) { from <= s.at <= to }

  // The samples of the window, both of its ends included.
  function Window(ss: seq<Sample>, from: real, to: real): seq<Sample> {
    if ss == [] then []
    else
      var last := ss[|ss| - 1];
      Window(ss[..|ss| - 1], from, to) + if Inside(last, from, to) then [last] else []
  }

  // The highest rate over one interval between neighbours, and zero.
  function Peak(w: seq<Sample>): real {
    if |w| < 2 then 0.0
    else
      var last := |w| - 1;
      var elapsed := w[last].at - w[last - 1].at;
      if elapsed > 0.0
      then RealMax(Peak(w[..last]), Delta(w[last].cpuUsec, w[last - 1].cpuUsec) as real / 1000000.0 / elapsed)
      else Peak(w[..last])
  }

  function SetPeak(w: seq<Sample>): int { if w == [] then 0 else Max(SetPeak(w[..|w| - 1]), w[|w| - 1].workingSet) }

  function SetTotal(w: seq<Sample>): real {
    if w == [] then 0.0 else SetTotal(w[..|w| - 1]) + w[|w| - 1].workingSet as real
  }

  function CoreSeconds(w: seq<Sample>): real
    requires w != []
  { Delta(w[|w| - 1].cpuUsec, w[0].cpuUsec) as real / 1000000.0 }

  function Span(w: seq<Sample>): real
    requires w != []
  { w[|w| - 1].at - w[0].at }

  function CoresMean(w: seq<Sample>): real
    requires w != []
  { if Span(w) > 0.0 then CoreSeconds(w) / Span(w) else 0.0 }

  function SetMean(w: seq<Sample>): real
    requires w != []
  { SetTotal(w) / |w| as real }

  // Memory per connection, absent when the cell sits at or below its own floor.
  function BytesPerConn(setMean: real, ops: int, idle: int): real {
    if ops > 0 && idle > 0 && setMean > idle as real then (setMean - idle as real) / ops as real else 0.0
  }

  function ResourceOf(w: seq<Sample>, cores: int, ops: int, idle: int): Resource
    requires w != []
  {
    Resource(|w|, CoreSeconds(w), CoresMean(w), Peak(w), SetMean(w), SetPeak(w), w[|w| - 1].throttled > w[0].throttled,
      cores > 0 && CoresMean(w) >= SATURATION * cores as real,
      if ops > 0 then CoreSeconds(w) * 1000000.0 / ops as real else 0.0,
      BytesPerConn(SetMean(w), ops, idle))
  }

  // The running figures of the loop are those of the window seen so far.
  ghost predicate Running(w: seq<Sample>, peakCores: real, peakSet: int, setTotal: real) {
    peakCores == Peak(w) && peakSet == SetPeak(w) && setTotal == SetTotal(w)
  }

  lemma Longer(w: seq<Sample>, s: Sample)
    ensures SetPeak(w + [s]) == Max(SetPeak(w), s.workingSet) && SetTotal(w + [s]) == SetTotal(w) + s.workingSet as real
    ensures Peak(w + [s]) == if w == [] then 0.0 else PeakWith(Peak(w), w[|w| - 1], s)
  {
    assert (w + [s])[..|w|] == w;
  }

  // The peak once one more interval is counted; an interval of no length is not.
  function PeakWith(peak: real, last: Sample, current: Sample): real {
    var elapsed := current.at - last.at;
    if elapsed > 0.0
    then RealMax(peak, Delta(current.cpuUsec, last.cpuUsec) as real / 1000000.0 / elapsed)
    else peak
  }

  method Segment(samples: seq<Sample>, from: real, to: real, cores: int, ops: int, idle: int)
    returns (resource: Option<Resource>)
    ensures var w := Window(samples, from, to);
            resource == if w == [] then None else Some(ResourceOf(w, cores, ops, idle))
  {
    var first: Option<Sample>, last: Option<Sample> := None, None;
    var count: nat, peakCores, peakSet, setTotal := 0, 0.0, 0, 0.0;
    var throttledStart, throttledEnd := 0, 0;
    ghost var w: seq<Sample> := [];
    for i := 0 to |samples|
      invariant w == Window(samples[..i], from, to) && count == |w| && Running(w, peakCores, peakSet, setTotal)
      invariant if w == [] then first.None? && last.None? else first == Some(w[0]) && last == Some(w[|w| - 1])
      invariant w != [] ==> throttledStart == w[0].throttled && throttledEnd == w[|w| - 1].throttled
    {
      assert samples[..i + 1][..i] == samples[..i];
      var current := samples[i];
      if current.at < from || current.at > to { continue; }
      Longer(w, current);
      if first.None? { first, throttledStart := Some(current), current.throttled; }
      if last.Some? { peakCores := PeakWith(peakCores, last.value, current); }
      last, throttledEnd := Some(current), current.throttled;
      peakSet := Max(peakSet, current.workingSet);
      setTotal := setTotal + current.workingSet as real;
      count := count + 1;
      w := w + [current];
    }
    assert samples[..|samples|] == samples;
    if first.None? || last.None? || count == 0 { return None; }
    var window := last.value.at - first.value.at;
    var total := Delta(last.value.cpuUsec, first.value.cpuUsec) as real / 1000000.0;
    var mean := 0.0;
    if window > 0.0 { mean := total / window; }
    var saturated, microsPerOp, bytesPerConn := false, 0.0, 0.0;
    if cores > 0 { saturated := mean >= SATURATION * cores as real; }
    var setMean := setTotal / count as real;
    if ops > 0 {
      microsPerOp := total * 1000000.0 / ops as real;
      if idle > 0 && setMean > idle as real { bytesPerConn := (setMean - idle as real) / ops as real; }
    }
    return Some(Resource(count, total, mean, peakCores, setMean, peakSet, throttledEnd > throttledStart,
                         saturated, microsPerOp, bytesPerConn));
  }

  // The window as it is documented, its end left out.
  function HalfOpen(ss: seq<Sample>, from: real, to: real): seq<Sample> {
    if ss == [] then []
    else
      var last := ss[|ss| - 1];
      HalfOpen(ss[..|ss| - 1], from, to) + if from <= last.at < to then [last] else []
  }

  // It is the window that is used if and only if no sample stands at its end.
  lemma {:induction false} EndIncludedExactly(ss: seq<Sample>, from: real, to: real)
    ensures |HalfOpen(ss, from, to)| <= |Window(ss, from, to)|
    ensures HalfOpen(ss, from, to) == Window(ss, from, to) <==> from > to || forall i | 0 <= i < |ss| :: ss[i].at != to
  {
    if ss != [] {
      var front := ss[..|ss| - 1];
      EndIncludedExactly(front, from, to);
      assert forall i | 0 <= i < |front| :: front[i] == ss[i];
      if from <= to && ss[|ss| - 1].at == to {
        assert |HalfOpen(ss, from, to)| < |Window(ss, from, to)|;
      } else if HalfOpen(front, from, to) != Window(front, from, to) {
        TailsDiffer(HalfOpen(front, from, to), Window(front, from, to),
                    if from <= ss[|ss| - 1].at < to then [ss[|ss| - 1]] else []);
      }
    }
  }

  lemma TailsDiffer(a: seq<Sample>, b: seq<Sample>, tail: seq<Sample>)
    requires a != b
    ensures a + tail != b + tail
  {
    if |a| == |b| {
      var i :| 0 <= i < |a| && a[i] != b[i];
      assert (a + tail)[i] != (b + tail)[i];
    }
  }

  // Two samples, one at each end: the last second's work is counted, and the documented window would
  // hold one sample and no work at all.
  lemma EndIncluded()
    ensures var ss := [Sample(0.0, 0, 0, 0), Sample(1.0, 1000000, 0, 0)];
            Window(ss, 0.0, 1.0) == ss && HalfOpen(ss, 0.0, 1.0) == ss[..1] && CoreSeconds(ss) == 1.0
                && CoreSeconds(ss[..1]) == 0.0
  {
    var ss := [Sample(0.0, 0, 0, 0), Sample(1.0, 1000000, 0, 0)];
    assert ss[..1][..0] == [] && ss[..1] == [ss[0]];
  }

  // ------------------------------------------------------------------ accounting

  ghost predicate Increasing(w: seq<Sample>) {
    forall i, j | 0 <= i < j < |w| :: w[i].at < w[j].at && w[i].cpuUsec <= w[j].cpuUsec
  }

  // A window of well-ordered samples is well ordered, whatever its ends.
  lemma {:induction false} WindowIncreasing(ss: seq<Sample>, from: real, to: real)
    requires Increasing(ss)
    ensures Increasing(Window(ss, from, to))
    ensures forall s | s in Window(ss, from, to) :: s in ss && Inside(s, from, to)
    ensures forall s | s in ss && Inside(s, from, to) :: s in Window(ss, from, to)
  {
    if ss != [] {
      var last := ss[|ss| - 1];
      var front := ss[..|ss| - 1];
      assert ss == front + [last];
      WindowIncreasing(front, from, to);
      forall s | s in Window(front, from, to) ensures s.at < last.at && s.cpuUsec <= last.cpuUsec {
        assert s in front;
      }
    }
  }

  // The intervals' own deltas, added up.
  function DeltaSum(w: seq<Sample>): int {
    if |w| < 2 then 0 else DeltaSum(w[..|w| - 1]) + Delta(w[|w| - 1].cpuUsec, w[|w| - 2].cpuUsec)
  }

  lemma {:induction false} DeltasTelescope(w: seq<Sample>)
    requires Increasing(w) && w != []
    ensures DeltaSum(w) == w[|w| - 1].cpuUsec - w[0].cpuUsec
    ensures DeltaSum(w) as real / 1000000.0 == CoreSeconds(w)
  {
    if |w| >= 2 { DeltasTelescope(w[..|w| - 1]); }
  }

  // What the interval ending at sample i spent, and how long it took.
  function Spent(w: seq<Sample>, i: int): real
    requires 0 < i < |w|
  { (w[i].cpuUsec - w[i - 1].cpuUsec) as real / 1000000.0 }

  function Elapsed(w: seq<Sample>, i: int): real
    requires 0 < i < |w|
  { w[i].at - w[i - 1].at }

  // No interval runs faster than this.
  ghost predicate Bounds(peak: real, w: seq<Sample>) {
    forall i | 0 < i < |w| :: Spent(w, i) <= peak * Elapsed(w, i)
  }

  lemma RateBound(spent: real, elapsed: real, peak: real)
    requires elapsed > 0.0 && spent / elapsed <= peak
    ensures spent <= peak * elapsed
  {
    ScaleWeakly(spent / elapsed, peak, elapsed);
    assert spent / elapsed * elapsed == spent;
  }

  lemma ScaleWeakly(a: real, b: real, c: real)
    requires a <= b && c >= 0.0
    ensures a * c <= b * c
  {}

  lemma HigherBounds(low: real, high: real, w: seq<Sample>)
    requires Increasing(w) && Bounds(low, w) && low <= high
    ensures Bounds(high, w)
  {
    forall i | 0 < i < |w| ensures Spent(w, i) <= high * Elapsed(w, i) { ScaleWeakly(low, high, Elapsed(w, i)); }
  }

  lemma PeakStep(w: seq<Sample>)
    requires Increasing(w) && |w| >= 2
    ensures var last := |w| - 1;
            Elapsed(w, last) > 0.0 && Peak(w) == RealMax(Peak(w[..last]), Spent(w, last) / Elapsed(w, last))
  {}

  lemma {:induction false} PeakBounds(w: seq<Sample>)
    requires Increasing(w)
    ensures Peak(w) >= 0.0 && Bounds(Peak(w), w)
  {
    if |w| >= 2 {
      var last := |w| - 1;
      var front := w[..last];
      PeakBounds(front);
      PeakStep(w);
      OneMoreBound(w, Peak(front), Peak(w));
    }
  }

  lemma OneMoreBound(w: seq<Sample>, low: real, high: real)
    requires Increasing(w) && |w| >= 2 && Bounds(low, w[..|w| - 1]) && low <= high
    requires Elapsed(w, |w| - 1) > 0.0 && Spent(w, |w| - 1) / Elapsed(w, |w| - 1) <= high
    ensures Bounds(high, w)
  {
    var front := w[..|w| - 1];
    HigherBounds(low, high, front);
    RateBound(Spent(w, |w| - 1), Elapsed(w, |w| - 1), high);
    forall i | 0 < i < |w| ensures Spent(w, i) <= high * Elapsed(w, i) {
      if i < |front| { assert Spent(front, i) == Spent(w, i) && Elapsed(front, i) == Elapsed(w, i); }
    }
  }

  // What was spent over the window is at most that rate kept up for all of it.
  lemma {:induction false} SpentAtMost(w: seq<Sample>, peak: real)
    requires Increasing(w) && w != [] && Bounds(peak, w)
    ensures CoreSeconds(w) <= peak * Span(w)
  {
    if |w| >= 2 {
      var last := |w| - 1;
      var front := w[..last];
      assert Bounds(peak, front) by {
        forall i | 0 < i < |front| ensures Spent(front, i) <= peak * Elapsed(front, i) {
          assert Spent(front, i) == Spent(w, i) && Elapsed(front, i) == Elapsed(w, i);
        }
      }
      SpentAtMost(front, peak);
      assert CoreSeconds(w) == CoreSeconds(front) + Spent(w, last);
      assert Span(w) == Span(front) + Elapsed(w, last);
      Distribute(peak, Span(front), Elapsed(w, last));
    }
  }

  lemma Distribute(a: real, b: real, c: real)
    ensures a * (b + c) == a * b + a * c
  {}

  lemma {:induction false} TotalAtMostPeak(w: seq<Sample>)
    ensures SetTotal(w) <= |w| as real * SetPeak(w) as real && SetPeak(w) >= 0
  {
    if w != [] {
      var front, last := w[..|w| - 1], w[|w| - 1];
      TotalAtMostPeak(front);
      var n, p, q := |front| as real, SetPeak(front) as real, SetPeak(w) as real;
      assert n * p <= n * q;
      assert |w| as real * q == n * q + q;
    }
  }

  lemma Scale(a: real, b: real, c: real)
    requires a < b && c > 0.0
    ensures a * c < b * c
  {}

  lemma DivideThrough(a: real, b: real, c: real)
    requires c > 0.0 && a <= b * c
    ensures a / c <= b
  {
    var q := a / c;
    assert q * c == a;
    if q > b {
      Scale(b, q, c);
      assert false;
    }
  }

  // ------------------------------------------------------------------ what each figure is

  // A counter's advance is read modulo its width, so one wrap-around between two samples costs nothing.
  lemma DeltaIsModular(later: nat, earlier: nat)
    requires later < WORD && earlier < WORD
    ensures 0 <= Delta(later, earlier) < WORD && (earlier + Delta(later, earlier)) % WORD == later
  {}

  // The peak rate is some interval's own, unless nothing was spent over any.
  lemma {:induction false} PeakIsReached(w: seq<Sample>)
    requires Increasing(w)
    ensures Peak(w) == 0.0 || exists i | 0 < i < |w| :: Elapsed(w, i) > 0.0 && Peak(w) == Spent(w, i) / Elapsed(w, i)
  {
    if |w| >= 2 {
      var last := |w| - 1;
      var front := w[..last];
      PeakIsReached(front);
      PeakStep(w);
      if Peak(w) != 0.0 && Peak(w) != Spent(w, last) / Elapsed(w, last) {
        var i :| 0 < i < |front| && Elapsed(front, i) > 0.0 && Peak(front) == Spent(front, i) / Elapsed(front, i);
        assert Elapsed(w, i) == Elapsed(front, i) && Spent(w, i) == Spent(front, i);
      }
    }
  }

  // The peak working set is the largest seen, or nothing when none is above it.
  lemma {:induction false} SetPeakIsLargest(w: seq<Sample>)
    ensures forall s | s in w :: s.workingSet <= SetPeak(w)
    ensures SetPeak(w) == 0 || exists s :: s in w && s.workingSet == SetPeak(w)
  {
    if w != [] {
      SetPeakIsLargest(w[..|w| - 1]);
      assert w == w[..|w| - 1] + [w[|w| - 1]];
    }
  }

  // One sample more, anywhere in the window, adds its own working set to the total.
  lemma {:induction false} OneSampleMore(a: seq<Sample>, s: Sample, b: seq<Sample>)
    ensures SetTotal(a + [s] + b) == SetTotal(a + b) + s.workingSet as real
    decreases |b|
  {
    if b == [] {
      assert (a + [s])[..|a|] == a && a + [s] + b == a + [s] && a + b == a;
    } else {
      var front := b[..|b| - 1];
      OneSampleMore(a, s, front);
      assert (a + [s] + b)[..|a + [s] + b| - 1] == a + [s] + front && (a + b)[..|a + b| - 1] == a + front;
    }
  }

  // Throttled is that the throttle count rose over the window.  The mean working set, times the samples,
  // is their total.  What an operation cost, times the operations, is the work done; and what a connection
  // holds, times their number, is the mean working set above the idle floor.
  lemma FiguresAre(w: seq<Sample>, cores: int, ops: int, idle: int)
    requires w != [] && Increasing(w)
    ensures var r := ResourceOf(w, cores, ops, idle);
            && r.samples == |w| && (r.throttled <==> w[0].throttled < w[|w| - 1].throttled)
            && Per(SetTotal(w), |w|, r.setMean)
            && (if ops > 0 then Per((w[|w| - 1].cpuUsec - w[0].cpuUsec) as real, ops, r.microsPerOp)
                else r.microsPerOp == 0.0)
            && (if ops > 0 && idle > 0 && r.setMean > idle as real
                then Per(r.setMean - idle as real, ops, r.bytesPerConn)
                else r.bytesPerConn == 0.0)
  {
    Divides(SetTotal(w), |w|);
    if ops > 0 {
      assert CoreSeconds(w) * 1000000.0 == (w[|w| - 1].cpuUsec - w[0].cpuUsec) as real;
      Divides((w[|w| - 1].cpuUsec - w[0].cpuUsec) as real, ops);
      Divides(SetMean(w) - idle as real, ops);
    }
  }

  predicate Per(total: real, n: int, each: real) { each * n as real == total }

  lemma Divides(total: real, n: int)
    requires n > 0
    ensures Per(total, n, total / n as real)
  {
    var q := total / n as real;
    assert q * n as real == total;
  }

  // Saturated is that the work done was at least nine tenths of what the cores could do over the window,
  // and never so over a window of one sample.
  lemma SaturatedExactly(w: seq<Sample>, cores: int, ops: int, idle: int)
    requires w != [] && Increasing(w)
    ensures ResourceOf(w, cores, ops, idle).saturated <==>
              && cores > 0 && |w| > 1
              && (w[|w| - 1].cpuUsec - w[0].cpuUsec) as real / 1000000.0
                   >= 0.9 * cores as real * (w[|w| - 1].at - w[0].at)
  {
    if |w| > 1 { AtLeast(CoreSeconds(w), Span(w), SATURATION * cores as real); }
  }

  lemma AtLeast(a: real, b: real, limit: real)
    requires b > 0.0
    ensures a / b >= limit <==> a >= limit * b
  {
    var q := a / b;
    assert q * b == a;
    AtLeastBy(q, b, limit);
  }

  lemma AtLeastBy(q: real, b: real, limit: real)
    requires b > 0.0
    ensures q >= limit <==> q * b >= limit * b
  {
    if q >= limit { ScaleWeakly(limit, q, b); } else { Scale(q, limit, b); }
  }

  // A segment of well-ordered samples: its core-seconds are its intervals' deltas added up, and
  // neither mean exceeds its peak.
  lemma MeansStayBelowPeaks(samples: seq<Sample>, from: real, to: real, cores: int, ops: int, idle: int)
    requires Increasing(samples) && Window(samples, from, to) != []
    ensures var w := Window(samples, from, to);
            var r := ResourceOf(w, cores, ops, idle);
            && r.coreSeconds == DeltaSum(w) as real / 1000000.0
            && r.coresMean <= r.coresPeak && r.setMean <= r.setPeak as real
  {
    WindowIncreasing(samples, from, to);
    MeansOf(Window(samples, from, to));
  }

  lemma MeansOf(w: seq<Sample>)
    requires Increasing(w) && w != []
    ensures CoreSeconds(w) == DeltaSum(w) as real / 1000000.0
    ensures CoresMean(w) <= Peak(w) && SetMean(w) <= SetPeak(w) as real
  {
    DeltasTelescope(w);
    PeakBounds(w);
    CoresMeanOf(w, Peak(w));
    SetMeanOf(w);
  }

  lemma CoresMeanOf(w: seq<Sample>, peak: real)
    requires Increasing(w) && w != [] && Bounds(peak, w) && peak >= 0.0
    ensures CoresMean(w) <= peak
  {
    SpentAtMost(w, peak);
    if Span(w) > 0.0 { DivideThrough(CoreSeconds(w), peak, Span(w)); }
  }

  lemma SetMeanOf(w: seq<Sample>)
    requires w != []
    ensures SetMean(w) <= SetPeak(w) as real
  {
    TotalAtMostPeak(w);
    var n := |w| as real;
    assert SetTotal(w) <= SetPeak(w) as real * n;
    DivideThrough(SetTotal(w), SetPeak(w) as real, n);
  }
}
