/** Weighted and moving averages, the 24-hour dynamic baseline curve reconstructed
    from history, and the weekly burnout/manic classifier. */
module Biorhythm {
  import opened Trinity
  import opened Numeric

  /** `values.reduce((acc, val, idx) => acc + val * weights[idx], 0)`. */
  function Dot(values: seq<real>, weights: seq<real>): real
    requires |values| == |weights|
  {
    if |values| == 0 then 0.0
    else
      var n := |values| - 1;
      Dot(values[..n], weights[..n]) + values[n] * weights[n]
  }

  /** `calculateWMA`: 0 for lists of different lengths, otherwise the weighted mean.
      A zero weight sum divides by zero in the source and is excluded here. */
  function CalculateWMA(values: seq<real>, weights: seq<real>): (r: real)
    requires |values| != |weights| || Sum(weights) != 0.0
    ensures |values| != |weights| ==> r == 0.0
    ensures |values| == |weights| ==> r * Sum(weights) == Dot(values, weights)
  {
    if |values| != |weights| then 0.0 else Dot(values, weights) / Sum(weights)
  }

  lemma {:induction false} DotConstantWeights(values: seq<real>, weights: seq<real>, w: real)
    requires |values| == |weights|
    requires forall i :: 0 <= i < |weights| ==> weights[i] == w
    ensures Dot(values, weights) == w * Sum(values)
  {
    if |values| > 0 {
      var n := |values| - 1;
      DotConstantWeights(values[..n], weights[..n], w);
    }
  }

  /** Equal non-zero weights make the weighted mean the arithmetic mean. */
  lemma WMAEqualWeights(values: seq<real>, weights: seq<real>, w: real)
    requires |values| == |weights| > 0 && w != 0.0
    requires forall i :: 0 <= i < |weights| ==> weights[i] == w
    ensures Sum(weights) != 0.0
    ensures CalculateWMA(values, weights) == Mean(values)
  {
    SumConstant(weights, w);
    DotConstantWeights(values, weights, w);
    var n := |values| as real;
    assert Sum(weights) == n * w;
    assert Dot(values, weights) / Sum(weights) == (w * Sum(values)) / (n * w);
    assert (w * Sum(values)) / (n * w) == Sum(values) / n;
  }

  /** First index of the window of element `i`: `max(0, i - floor(w / 2))`. */
  function WindowStart(i: nat, windowSize: nat): nat
  {
    if i < windowSize / 2 then 0 else i - windowSize / 2
  }

  /** One past the last index of the window: `min(n, i + ceil(w / 2))`. */
  function WindowEnd(i: nat, windowSize: nat, n: nat): nat
  {
    if i + (windowSize + 1) / 2 < n then i + (windowSize + 1) / 2 else n
  }

  /** `smoothData`: every element replaced by the mean of the window around it,
      cut at both ends of the list. A window of size 0 would be empty (a division
      by zero); the source always passes 3. */
  function SmoothData(data: seq<real>, windowSize: nat): (r: seq<real>)
    requires windowSize >= 1
    ensures |r| == |data|
    ensures forall i :: 0 <= i < |data| ==>
              WindowStart(i, windowSize) < WindowEnd(i, windowSize, |data|) <= |data|
              && r[i] == Mean(data[WindowStart(i, windowSize)..WindowEnd(i, windowSize, |data|)])
  {
    seq(|data|, i requires 0 <= i < |data| =>
      Mean(data[WindowStart(i, windowSize)..WindowEnd(i, windowSize, |data|)]))
  }

  /** Smoothing a constant list changes nothing. */
  lemma SmoothConstant(data: seq<real>, windowSize: nat, k: real)
    requires windowSize >= 1
    requires forall i :: 0 <= i < |data| ==> data[i] == k
    ensures SmoothData(data, windowSize) == data
  {
    var r := SmoothData(data, windowSize);
    forall i | 0 <= i < |data| ensures r[i] == data[i] {
      var w := data[WindowStart(i, windowSize)..WindowEnd(i, windowSize, |data|)];
      MeanConstant(w, k);
    }
  }

  /** Smoothed values stay within any bounds of the input. */
  lemma SmoothWithin(data: seq<real>, windowSize: nat, lo: real, hi: real)
    requires windowSize >= 1
    requires AllIn(data, lo, hi)
    ensures AllIn(SmoothData(data, windowSize), lo, hi)
  {
    var r := SmoothData(data, windowSize);
    forall i | 0 <= i < |data| ensures lo <= r[i] <= hi {
      var w := data[WindowStart(i, windowSize)..WindowEnd(i, windowSize, |data|)];
      MeanBounds(w, lo, hi);
    }
  }

  /** Marks an hour without samples before the fill. */
  const Missing: real := -1.0

  /** Used as the previous value when no earlier hour is filled. */
  const DefaultLevel: real := 5.0

  datatype DailyPattern = DailyPattern(hour: int, value: real)

  /** The readings of dimension `d` logged in local hour `h`, in input order. */
  function HourGroup(logs: seq<LogEntry>, d: Dimension, hourOf: int -> Hour, h: Hour): seq<real>
  {
    if |logs| == 0 then []
    else
      var last := logs[|logs| - 1];
      HourGroup(logs[..|logs| - 1], d, hourOf, h)
        + (if hourOf(last.timestamp) == h then [Component(last.values, d)] else [])
  }

  function HourMean(values: seq<real>): real
  {
    if |values| > 0 then Mean(values) else Missing
  }

  /** The raw baseline: each hour's mean, or the sentinel when it has no samples. */
  function RawBaseline(logs: seq<LogEntry>, d: Dimension, hourOf: int -> Hour): (r: seq<real>)
    ensures |r| == 24
  {
    seq(24, h requires 0 <= h < 24 => HourMean(HourGroup(logs, d, hourOf, h)))
  }

  /** The nearest index at or below `j` that is not the sentinel, or -1. */
  function PrevScan(f: seq<real>, j: int): (r: int)
    requires -1 <= j < |f|
    ensures -1 <= r <= j
    ensures r >= 0 ==> f[r] != Missing
    ensures forall k :: r < k <= j ==> f[k] == Missing
    decreases j + 1
  {
    if j < 0 then -1 else if f[j] != Missing then j else PrevScan(f, j - 1)
  }

  /** The nearest index at or above `j` that is not the sentinel, or `|f|`. */
  function NextScan(f: seq<real>, j: nat): (r: nat)
    requires j <= |f|
    ensures j <= r <= |f|
    ensures r < |f| ==> f[r] != Missing
    ensures forall k :: j <= k < r ==> f[k] == Missing
    decreases |f| - j
  {
    if j == |f| then |f| else if f[j] != Missing then j else NextScan(f, j + 1)
  }

  /** The value written into a missing hour `i`: the mean of the previous and the
      next value, the previous defaulting to 5 and the next to the previous. */
  function FillValue(f: seq<real>, i: nat): real
    requires i < |f|
  {
    var p := PrevScan(f, i - 1);
    var prevVal := if p >= 0 then f[p] else DefaultLevel;
    var n := NextScan(f, i + 1);
    if n < |f| then (prevVal + f[n]) / 2.0 else (prevVal + prevVal) / 2.0
  }

  /** Step `i` of the fill loop. */
  function FillStep(f: seq<real>, i: nat): (r: seq<real>)
    requires i < |f|
    ensures |r| == |f|
  {
    if f[i] == Missing then f[i := FillValue(f, i)] else f
  }

  /** The array after the first `k` steps of the fill loop. */
  function Filled(raw: seq<real>, k: nat): (r: seq<real>)
    requires k <= |raw|
    ensures |r| == |raw|
  {
    if k == 0 then raw else FillStep(Filled(raw, k - 1), k - 1)
  }

  /** The wrap-around smoothing: three hours copied on each side, smoothed with a
      window of 3, and the middle 24 kept. */
  function WrapSmooth(f: seq<real>): (r: seq<real>)
    requires |f| == 24
    ensures |r| == 24
  {
    var extended := f[21..] + f + f[..3];
    SmoothData(extended, 3)[3..27]
  }

  /** The 24 values of the dynamic baseline of dimension `d`. */
  function DynamicCurve(logs: seq<LogEntry>, d: Dimension, hourOf: int -> Hour): (r: seq<real>)
    ensures |r| == 24
  {
    WrapSmooth(Filled(RawBaseline(logs, d, hourOf), 24))
  }

  function Patterns(curve: seq<real>): (r: seq<DailyPattern>)
    ensures |r| == |curve|
    ensures forall i :: 0 <= i < |curve| ==> r[i].hour == i && r[i].value == curve[i]
  {
    seq(|curve|, i requires 0 <= i < |curve| => DailyPattern(i, curve[i]))
  }

  /** Step 1 of `calculateDynamicBaseline`: each log's reading is pushed onto the
      list of its local hour. */
  method GroupByHour(historyLogs: seq<LogEntry>, d: Dimension, hourOf: int -> Hour)
    returns (groups: seq<seq<real>>)
    ensures |groups| == 24
    ensures forall h :: 0 <= h < 24 ==> groups[h] == HourGroup(historyLogs, d, hourOf, h)
  {
    var hourlyGroups := new seq<real>[24](_ => []);
    for k := 0 to |historyLogs|
      invariant forall h :: 0 <= h < 24 ==> hourlyGroups[h] == HourGroup(historyLogs[..k], d, hourOf, h)
    {
      var log := historyLogs[k];
      var hour := hourOf(log.timestamp);
      hourlyGroups[hour] := hourlyGroups[hour] + [Component(log.values, d)];
      assert historyLogs[..k + 1][..k] == historyLogs[..k];
    }
    assert historyLogs[..|historyLogs|] == historyLogs;
    groups := hourlyGroups[..];
  }

  /** Step 2: the mean of each hour, or the sentinel for an hour without samples. */
  method AverageHours(groups: seq<seq<real>>) returns (rawBaseline: seq<real>)
    requires |groups| == 24
    ensures |rawBaseline| == 24
    ensures forall h :: 0 <= h < 24 ==> rawBaseline[h] == HourMean(groups[h])
  {
    rawBaseline := [];
    for i := 0 to 24
      invariant |rawBaseline| == i
      invariant forall h :: 0 <= h < i ==> rawBaseline[h] == HourMean(groups[h])
    {
      var values := groups[i];
      if |values| > 0 {
        rawBaseline := rawBaseline + [Sum(values) / (|values| as real)];
      } else {
        rawBaseline := rawBaseline + [Missing];
      }
    }
  }

  /** The backward scan of the fill loop: the nearest hour before `i` holding a
      value, or -1. */
  method ScanBack(a: array<real>, i: int) returns (prev: int)
    requires 0 <= i < a.Length
    ensures prev == PrevScan(a[..], i - 1)
  {
    prev := i - 1;
    while prev >= 0 && a[prev] == Missing
      invariant -1 <= prev < i
      invariant PrevScan(a[..], prev) == PrevScan(a[..], i - 1)
    {
      prev := prev - 1;
    }
  }

  /** The forward scan of the fill loop: the nearest hour after `i` holding a
      value, or the length. */
  method ScanForward(a: array<real>, i: int) returns (next: int)
    requires 0 <= i < a.Length
    ensures next == NextScan(a[..], i + 1)
  {
    next := i + 1;
    while next < a.Length && a[next] == Missing
      invariant i < next <= a.Length
      invariant NextScan(a[..], next) == NextScan(a[..], i + 1)
    {
      next := next + 1;
    }
  }

  /** Step 3: the gaps are filled in place, front to back, so a filled hour is the
      previous value of the next gap. */
  method FillMissing(raw: seq<real>) returns (f: seq<real>)
    requires |raw| == 24
    ensures f == Filled(raw, 24)
  {
    var filled := new real[24](i requires 0 <= i < 24 => raw[i]);
    assert filled[..] == Filled(raw, 0);
    for i := 0 to 24
      invariant filled[..] == Filled(raw, i)
    {
      if filled[i] == Missing {
        var prev := ScanBack(filled, i);
        var prevVal := if prev >= 0 then filled[prev] else DefaultLevel;
        var next := ScanForward(filled, i);
        var nextVal := if next < 24 then filled[next] else prevVal;
        filled[i] := (prevVal + nextVal) / 2.0;
      }
    }
    f := filled[..];
  }

  /** `calculateDynamicBaseline`: groups, averages, fills the gaps and smooths
      circularly; the result is the dynamic curve labelled with its hours. */
  method CalculateDynamicBaseline(historyLogs: seq<LogEntry>, d: Dimension, hourOf: int -> Hour)
    returns (r: seq<DailyPattern>)
    ensures |r| == 24
    ensures forall i :: 0 <= i < 24 ==> r[i].hour == i
    ensures r == Patterns(DynamicCurve(historyLogs, d, hourOf))
  {
    var groups := GroupByHour(historyLogs, d, hourOf);
    var raw := AverageHours(groups);
    assert raw == RawBaseline(historyLogs, d, hourOf);
    var f := FillMissing(raw);
    var extended := f[21..] + f + f[..3];
    var smoothed := SmoothData(extended, 3);
    var finalBaseline := smoothed[3..27];
    r := seq(24, i requires 0 <= i < 24 => DailyPattern(i, finalBaseline[i]));
  }

  /** Every reading of dimension `d` lies in [lo, hi]. */
  ghost predicate ComponentsIn(logs: seq<LogEntry>, d: Dimension, lo: real, hi: real)
  {
    forall i :: 0 <= i < |logs| ==> lo <= Component(logs[i].values, d) <= hi
  }

  /** Every entry is the sentinel or lies in [lo, hi]. */
  ghost predicate MissingOrIn(raw: seq<real>, lo: real, hi: real)
  {
    forall j :: 0 <= j < |raw| ==> raw[j] == Missing || lo <= raw[j] <= hi
  }

  lemma {:induction false} HourGroupWithin(logs: seq<LogEntry>, d: Dimension, hourOf: int -> Hour, h: Hour, lo: real, hi: real)
    requires ComponentsIn(logs, d, lo, hi)
    ensures AllIn(HourGroup(logs, d, hourOf, h), lo, hi)
  {
    if |logs| > 0 {
      HourGroupWithin(logs[..|logs| - 1], d, hourOf, h, lo, hi);
    }
  }

  /** With non-negative bounds, an hour is the sentinel exactly when it has no
      samples, and otherwise holds a mean within the bounds. */
  lemma RawBaselineWithin(logs: seq<LogEntry>, d: Dimension, hourOf: int -> Hour, lo: real, hi: real)
    requires 0.0 <= lo && ComponentsIn(logs, d, lo, hi)
    ensures MissingOrIn(RawBaseline(logs, d, hourOf), lo, hi)
    ensures forall h: Hour ::
              (RawBaseline(logs, d, hourOf)[h] != Missing <==> |HourGroup(logs, d, hourOf, h)| > 0)
  {
    var raw := RawBaseline(logs, d, hourOf);
    forall h: Hour ensures (raw[h] == Missing || lo <= raw[h] <= hi)
                           && (raw[h] != Missing <==> |HourGroup(logs, d, hourOf, h)| > 0) {
      var g := HourGroup(logs, d, hourOf, h);
      if |g| > 0 {
        HourGroupWithin(logs, d, hourOf, h, lo, hi);
        MeanBounds(g, lo, hi);
      }
    }
  }

  /** Step `i` leaves index `i` final. */
  lemma {:induction false} FilledStable(raw: seq<real>, i: nat, m: nat)
    requires i < m <= |raw|
    ensures Filled(raw, m)[i] == Filled(raw, i + 1)[i]
  {
    if m > i + 1 {
      FilledStable(raw, i, m - 1);
    }
  }

  lemma {:induction false} NextScanAgree(f: seq<real>, g: seq<real>, j: nat)
    requires |f| == |g| && j <= |f|
    requires forall k :: j <= k < |f| ==> f[k] == g[k]
    ensures NextScan(f, j) == NextScan(g, j)
    decreases |f| - j
  {
    if j < |f| {
      NextScanAgree(f, g, j + 1);
    }
  }

  /** After `k` steps the first `k` entries lie within the bounds of the present
      hours (the default 5 included) and the rest are untouched. */
  lemma {:induction false} FilledWithin(raw: seq<real>, k: nat, lo: real, hi: real)
    requires k <= |raw|
    requires 0.0 <= lo <= DefaultLevel <= hi
    requires MissingOrIn(raw, lo, hi)
    ensures forall j :: 0 <= j < k ==> lo <= Filled(raw, k)[j] <= hi
    ensures forall j :: k <= j < |raw| ==> Filled(raw, k)[j] == raw[j]
  {
    if k > 0 {
      FilledWithin(raw, k - 1, lo, hi);
      var f := Filled(raw, k - 1);
      var i := k - 1;
      if f[i] == Missing {
        var p := PrevScan(f, i - 1);
        var n := NextScan(f, i + 1);
        assert p >= 0 ==> lo <= f[p] <= hi;
        assert n < |f| ==> lo <= f[n] <= hi;
      }
    }
  }

  /** The fill hour by hour, when the present hours lie in non-negative bounds: a
      present hour keeps its value; a missing hour gets the mean of the previous
      hour's filled value (5 at the first hour) and the next present hour's value
      (the previous value when there is none). */
  lemma FilledSpec(raw: seq<real>, h: nat, lo: real, hi: real)
    requires h < |raw|
    requires 0.0 <= lo <= DefaultLevel <= hi
    requires MissingOrIn(raw, lo, hi)
    ensures var f := Filled(raw, |raw|);
            var prevVal := if h == 0 then DefaultLevel else f[h - 1];
            var n := NextScan(raw, h + 1);
            && lo <= f[h] <= hi
            && (raw[h] != Missing ==> f[h] == raw[h])
            && (raw[h] == Missing ==> f[h] == (prevVal + (if n < |raw| then raw[n] else prevVal)) / 2.0)
  {
    FilledWithin(raw, |raw|, lo, hi);
    FilledWithin(raw, h, lo, hi);
    var g := Filled(raw, h);
    FilledStable(raw, h, |raw|);
    if h > 0 {
      FilledStable(raw, h - 1, |raw|);
      assert PrevScan(g, h - 1) == h - 1;
    }
    NextScanAgree(g, raw, h + 1);
  }

  /** A list without gaps is left as it is. */
  lemma {:induction false} FilledNoGaps(raw: seq<real>, k: nat)
    requires k <= |raw|
    requires forall j :: 0 <= j < |raw| ==> raw[j] != Missing
    ensures Filled(raw, k) == raw
  {
    if k > 0 {
      FilledNoGaps(raw, k - 1);
    }
  }

  /** Before smoothing, for readings in [lo, hi] with 0 <= lo <= 5 <= hi: every hour
      lies in [lo, hi], so no sentinel is left; an hour with samples holds their mean;
      an hour without holds the mean of the previous hour's filled value (5 at
      hour 0) and the mean of the next hour with samples (the previous value when
      no later hour has one). */
  lemma FilledBaseline(logs: seq<LogEntry>, d: Dimension, hourOf: int -> Hour, h: Hour, lo: real, hi: real)
    requires 0.0 <= lo <= DefaultLevel <= hi
    requires ComponentsIn(logs, d, lo, hi)
    ensures var raw := RawBaseline(logs, d, hourOf);
            var f := Filled(raw, 24);
            var prevVal := if h == 0 then DefaultLevel else f[h - 1];
            var n := NextScan(raw, h + 1);
            && lo <= f[h] <= hi
            && f[h] != Missing
            && (|HourGroup(logs, d, hourOf, h)| > 0 ==> f[h] == Mean(HourGroup(logs, d, hourOf, h)))
            && (|HourGroup(logs, d, hourOf, h)| == 0 ==>
                  && (forall j :: h < j < n ==> |HourGroup(logs, d, hourOf, j)| == 0)
                  && (n < 24 ==> |HourGroup(logs, d, hourOf, n)| > 0
                                 && f[h] == (prevVal + Mean(HourGroup(logs, d, hourOf, n))) / 2.0)
                  && (n == 24 ==> f[h] == (prevVal + prevVal) / 2.0))
  {
    var raw := RawBaseline(logs, d, hourOf);
    RawBaselineWithin(logs, d, hourOf, lo, hi);
    FilledSpec(raw, h, lo, hi);
  }

  /** Hour `h` of the wrapped smoothing is the mean of hours h-1, h and h+1, read
      around the clock. */
  lemma WrapSmoothAt(f: seq<real>, h: nat)
    requires |f| == 24 && h < 24
    ensures WrapSmooth(f)[h] == (f[(h + 23) % 24] + f[h] + f[(h + 1) % 24]) / 3.0
  {
    var e := f[21..] + f + f[..3];
    assert |e| == 30;
    assert WindowStart(h + 3, 3) == h + 2 && WindowEnd(h + 3, 3, 30) == h + 5;
    var w := e[h + 2..h + 5];
    assert w == [f[(h + 23) % 24], f[h], f[(h + 1) % 24]] by {
      assert w[0] == e[h + 2] && w[1] == e[h + 3] && w[2] == e[h + 4];
    }
    SumOfThree(f[(h + 23) % 24], f[h], f[(h + 1) % 24]);
    assert WrapSmooth(f)[h] == SmoothData(e, 3)[h + 3] == Mean(w);
  }

  /** If every hour has samples with mean `k`, the whole curve is `k`. */
  lemma DynamicCurveConstant(logs: seq<LogEntry>, d: Dimension, hourOf: int -> Hour, k: real)
    requires k != Missing
    requires forall h: Hour :: |HourGroup(logs, d, hourOf, h)| > 0 && Mean(HourGroup(logs, d, hourOf, h)) == k
    ensures forall h :: 0 <= h < 24 ==> DynamicCurve(logs, d, hourOf)[h] == k
  {
    var raw := RawBaseline(logs, d, hourOf);
    assert forall j :: 0 <= j < 24 ==> raw[j] == k;
    FilledNoGaps(raw, 24);
    forall h | 0 <= h < 24 ensures DynamicCurve(logs, d, hourOf)[h] == k {
      WrapSmoothAt(raw, h);
    }
  }

  /** Readings in [lo, hi] with 0 <= lo <= 5 <= hi give a curve within [lo, hi]. */
  lemma DynamicCurveWithin(logs: seq<LogEntry>, d: Dimension, hourOf: int -> Hour, lo: real, hi: real)
    requires 0.0 <= lo <= DefaultLevel <= hi
    requires ComponentsIn(logs, d, lo, hi)
    ensures forall h :: 0 <= h < 24 ==> lo <= DynamicCurve(logs, d, hourOf)[h] <= hi
  {
    var raw := RawBaseline(logs, d, hourOf);
    var f := Filled(raw, 24);
    RawBaselineWithin(logs, d, hourOf, lo, hi);
    FilledWithin(raw, 24, lo, hi);
    forall h | 0 <= h < 24 ensures lo <= DynamicCurve(logs, d, hourOf)[h] <= hi {
      WrapSmoothAt(f, h);
    }
  }

  datatype TrendStatus = Normal | BurnoutRisk | ManicRisk

  datatype WeeklyTrend = WeeklyTrend(status: TrendStatus, average: real)

  /** `subDays(now, 7)`, taken as seven fixed-length days. */
  function WeekAgo(now: int): int
  {
    now - 7 * DayMs
  }

  /** The logs at or after `cutoff`, in input order. */
  function Since(logs: seq<LogEntry>, cutoff: int): (r: seq<LogEntry>)
    ensures |r| <= |logs|
    ensures forall l :: l in r <==> l in logs && l.timestamp >= cutoff
  {
    FilterMembers(logs, (l: LogEntry) => l.timestamp >= cutoff);
    Filter(logs, (l: LogEntry) => l.timestamp >= cutoff)
  }

  /** `analyzeWeeklyTrend`: with no log in the last seven days, Normal at 5;
      otherwise the mean physical level of those logs, Burnout Risk below 3, Manic
      Risk above 8, Normal in between. */
  function AnalyzeWeeklyTrend(logs: seq<LogEntry>, now: int): (r: WeeklyTrend)
    ensures (forall l :: l in logs ==> l.timestamp < WeekAgo(now)) ==> r == WeeklyTrend(Normal, 5.0)
    ensures (exists l :: l in logs && l.timestamp >= WeekAgo(now)) ==>
              && |Since(logs, WeekAgo(now))| > 0
              && r.average == Mean(Values(Since(logs, WeekAgo(now)), P))
              && (r.status == BurnoutRisk <==> r.average < 3.0)
              && (r.status == ManicRisk <==> r.average > 8.0)
  {
    var weeklyLogs := Since(logs, WeekAgo(now));
    if |weeklyLogs| == 0 then WeeklyTrend(Normal, 5.0)
    else
      var avgP := Sum(Values(weeklyLogs, P)) / (|weeklyLogs| as real);
      var status := if avgP > 8.0 then ManicRisk else if avgP < 3.0 then BurnoutRisk else Normal;
      WeeklyTrend(status, avgP)
  }

  /** Physical readings in [lo, hi] (with 5 inside) give an average in [lo, hi]. */
  lemma AnalyzeWeeklyTrendWithin(logs: seq<LogEntry>, now: int, lo: real, hi: real)
    requires ComponentsIn(logs, P, lo, hi) && lo <= 5.0 <= hi
    ensures lo <= AnalyzeWeeklyTrend(logs, now).average <= hi
  {
    var weeklyLogs := Since(logs, WeekAgo(now));
    if |weeklyLogs| > 0 {
      var vals := Values(weeklyLogs, P);
      forall i | 0 <= i < |vals| ensures lo <= vals[i] <= hi {
        assert weeklyLogs[i] in logs;
      }
      MeanBounds(vals, lo, hi);
    }
  }
}
