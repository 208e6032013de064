/** Outlier-resistant statistics for the monthly baseline: median, the IQR fence,
    and the per-dimension median summary with its low-confidence flag. */
module Baseline {
  import opened Trinity
  import opened Sorting
  import opened Numeric
  import NumberText

  /** Used when a dimension has no values to summarise. */
  const DefaultBaseline: TrinityValue := TrinityValue(5.0, 5.0, 2.0)

  /** `[...values].sort((a, b) => a - b)`. */
  function SortAsc(values: seq<real>): (r: seq<real>)
    ensures Ascending(r) && multiset(r) == multiset(values) && |r| == |values|
  {
    var r := SortBy(values, Identity);
    SortedByIdentity(r);
    r
  }

  lemma SortAscOfAscending(s: seq<real>)
    requires Ascending(s)
    ensures SortAsc(s) == s
  {
    AscendingUnique(SortAsc(s), s);
  }

  /** 0 for no values; otherwise the middle of the sorted copy, or the average of
      the two middle elements for an even count. */
  function Median(values: seq<real>): real
  {
    if |values| == 0 then 0.0 else MiddleOf(SortAsc(values))
  }

  /** The middle element of a sorted list, or the average of its two middle elements. */
  function MiddleOf(sorted: seq<real>): real
    requires |sorted| > 0
  {
    var mid := |sorted| / 2;
    if |sorted| % 2 == 0 then (sorted[mid - 1] + sorted[mid]) / 2.0 else sorted[mid]
  }

  lemma MedianOfSingleton(x: real)
    ensures Median([]) == 0.0
    ensures Median([x]) == x
  {
    assert Ascending([x]);
    SortAscOfAscending([x]);
  }

  lemma MedianOfPair(a: real, b: real)
    ensures Median([a, b]) == (a + b) / 2.0
  {
    var lo, hi := if a <= b then a else b, if a <= b then b else a;
    assert Ascending([lo, hi]);
    assert multiset([lo, hi]) == multiset([a, b]);
    AscendingUnique(SortAsc([a, b]), [lo, hi]);
  }

  /** The median does not depend on the order of its input. */
  lemma MedianPermutationInvariant(a: seq<real>, b: seq<real>)
    requires multiset(a) == multiset(b)
    ensures Median(a) == Median(b)
  {
    assert |a| == |multiset(a)| == |multiset(b)| == |b|;
    AscendingUnique(SortAsc(a), SortAsc(b));
  }

  /** The median of a non-empty list lies between two of its elements
      (so between its minimum and its maximum). */
  lemma MedianBetweenElements(values: seq<real>)
    requires |values| > 0
    ensures exists i, j :: 0 <= i < |values| && 0 <= j < |values| && values[i] <= Median(values) <= values[j]
  {
    var sorted := SortAsc(values);
    var n := |sorted|;
    var lo, hi := sorted[0], sorted[n - 1];
    assert lo <= Median(values) <= hi;
    assert lo in multiset(values) && hi in multiset(values) by {
      assert lo in multiset(sorted) && hi in multiset(sorted);
    }
    assert lo in values && hi in values;
  }

  lemma MedianWithin(values: seq<real>, lo: real, hi: real)
    requires |values| > 0 && AllIn(values, lo, hi)
    ensures lo <= Median(values) <= hi
  {
    MedianBetweenElements(values);
  }

  /** `values.filter(v => v >= lo && v <= hi)`. */
  function KeepWithin(s: seq<real>, lo: real, hi: real): (r: seq<real>)
    ensures |r| <= |s|
    ensures forall i :: 0 <= i < |r| ==> r[i] in s && lo <= r[i] <= hi
  {
    if |s| == 0 then []
    else
      var rest := KeepWithin(s[1..], lo, hi);
      assert forall x :: x in s[1..] ==> x in s;
      if lo <= s[0] <= hi then [s[0]] + rest else rest
  }

  /** Filtering keeps every occurrence of an in-range value and nothing else. */
  lemma {:induction false} KeepWithinCounts(s: seq<real>, lo: real, hi: real, v: real)
    ensures multiset(KeepWithin(s, lo, hi))[v] == if lo <= v <= hi then multiset(s)[v] else 0
  {
    if |s| > 0 {
      KeepWithinCounts(s[1..], lo, hi, v);
      assert s == [s[0]] + s[1..];
      assert multiset(s) == multiset{s[0]} + multiset(s[1..]);
      var rest := KeepWithin(s[1..], lo, hi);
      if lo <= s[0] <= hi {
        assert multiset([s[0]] + rest) == multiset{s[0]} + multiset(rest);
      }
    }
  }

  lemma {:induction false} KeepWithinAscending(s: seq<real>, lo: real, hi: real)
    requires Ascending(s)
    ensures Ascending(KeepWithin(s, lo, hi))
  {
    if |s| > 0 {
      AscendingTail(s);
      KeepWithinAscending(s[1..], lo, hi);
      var rest := KeepWithin(s[1..], lo, hi);
      forall i | 0 <= i < |rest| ensures s[0] <= rest[i] {
        var j :| 0 <= j < |s[1..]| && s[1..][j] == rest[i];
        assert s[0] <= s[j + 1];
      }
    }
  }

  /** The first and third quartiles of a sorted list: the medians of its first
      floor(n/2) elements and of its elements from ceil(n/2) on. */
  function Quartiles(sorted: seq<real>): (real, real)
  {
    var n := |sorted|;
    (Median(sorted[..n / 2]), Median(sorted[(n + 1) / 2..]))
  }

  /** The bounds [q1 - 1.5 iqr, q3 + 1.5 iqr] of the fence, with iqr = q3 - q1. */
  function Fence(sorted: seq<real>): (real, real)
  {
    var (q1, q3) := Quartiles(sorted);
    var iqr := q3 - q1;
    (q1 - 1.5 * iqr, q3 + 1.5 * iqr)
  }

  /** The fence is inclusive at both ends. */
  predicate InFence(sorted: seq<real>, v: real)
  {
    Fence(sorted).0 <= v <= Fence(sorted).1
  }

  /** `filterOutliers`: under four values, the input itself; otherwise the sorted
      values inside the fence. */
  function FilterOutliers(values: seq<real>): (r: seq<real>)
    ensures |r| <= |values|
  {
    if |values| < 4 then values else KeepInFence(SortAsc(values))
  }

  function KeepInFence(sorted: seq<real>): (r: seq<real>)
    ensures |r| <= |sorted|
  {
    KeepWithin(sorted, Fence(sorted).0, Fence(sorted).1)
  }

  /** Fewer than four values are returned unchanged. From four on, the result is
      sorted and holds exactly the input's values inside the fence, each as often
      as in the input. */
  lemma FilterOutliersSpec(values: seq<real>)
    ensures |values| < 4 ==> FilterOutliers(values) == values
    ensures |values| >= 4 ==> Ascending(FilterOutliers(values))
    ensures |values| >= 4 ==>
              forall v :: multiset(FilterOutliers(values))[v]
                       == (if InFence(SortAsc(values), v) then multiset(values)[v] else 0)
  {
    if |values| >= 4 {
      var sorted := SortAsc(values);
      var (lower, upper) := Fence(sorted);
      assert FilterOutliers(values) == KeepInFence(sorted) == KeepWithin(sorted, lower, upper);
      KeepWithinAscending(sorted, lower, upper);
      forall v ensures multiset(FilterOutliers(values))[v]
                    == (if InFence(sorted, v) then multiset(values)[v] else 0) {
        KeepWithinCounts(sorted, lower, upper, v);
      }
    }
  }

  lemma AscendingWithin(s: seq<real>)
    requires Ascending(s) && |s| > 0
    ensures AllIn(s, s[0], s[|s| - 1])
  {
  }

  /** For four values or more the quartiles are ordered (iqr >= 0) and the largest
      element of the lower half lies between them, so it survives the filter. */
  lemma QuartilesOrdered(values: seq<real>)
    requires |values| >= 4
    ensures var sorted := SortAsc(values);
            var (q1, q3) := Quartiles(sorted);
            q1 <= sorted[|sorted| / 2 - 1] <= q3
  {
    QuartilesAround(SortAsc(values));
  }

  lemma QuartilesAround(sorted: seq<real>)
    requires Ascending(sorted) && |sorted| >= 4
    ensures Quartiles(sorted).0 <= sorted[|sorted| / 2 - 1] <= Quartiles(sorted).1
  {
    var n := |sorted|;
    var lower, upper := sorted[..n / 2], sorted[(n + 1) / 2..];
    AscendingSlice(sorted, 0, n / 2);
    AscendingSlice(sorted, (n + 1) / 2, n);
    assert lower == sorted[0..n / 2] && upper == sorted[(n + 1) / 2..n];
    MiddleOfAscending(lower);
    MiddleOfAscending(upper);
    assert sorted[n / 2 - 1] <= sorted[(n + 1) / 2];
  }

  lemma AscendingSlice(s: seq<real>, i: nat, j: nat)
    requires Ascending(s) && i <= j <= |s|
    ensures Ascending(s[i..j])
  {
    forall a, b | 0 <= a < b < j - i ensures s[i..j][a] <= s[i..j][b] {
      assert s[i..j][a] == s[i + a] && s[i..j][b] == s[i + b];
    }
  }

  /** The median of a sorted non-empty list is its middle and lies between its ends. */
  lemma MiddleOfAscending(s: seq<real>)
    requires Ascending(s) && |s| > 0
    ensures Median(s) == MiddleOf(s)
    ensures s[0] <= Median(s) <= s[|s| - 1]
  {
    SortAscOfAscending(s);
    var mid := |s| / 2;
    assert s[0] <= s[mid] <= s[|s| - 1];
    if |s| % 2 == 0 {
      assert s[0] <= s[mid - 1] <= s[|s| - 1];
    }
  }

  /** The largest value of the lower half lies between the quartiles, so inside the fence. */
  lemma LowerMiddleInFence(values: seq<real>)
    requires |values| >= 4
    ensures InFence(SortAsc(values), SortAsc(values)[|values| / 2 - 1])
  {
    var sorted := SortAsc(values);
    QuartilesOrdered(values);
    var (q1, q3) := Quartiles(sorted);
    assert Fence(sorted) == (q1 - 1.5 * (q3 - q1), q3 + 1.5 * (q3 - q1));
  }

  /** The output is a sub-multiset of the input. */
  lemma FilterOutliersSubMultiset(values: seq<real>)
    ensures multiset(FilterOutliers(values)) <= multiset(values)
  {
    FilterOutliersSpec(values);
    if |values| >= 4 {
      var r := FilterOutliers(values);
      forall v ensures multiset(r)[v] <= multiset(values)[v] {
      }
    }
  }

  /** Filtering never drops everything: a non-empty input keeps at least one value. */
  lemma FilterOutliersNonEmpty(values: seq<real>)
    requires |values| > 0
    ensures |FilterOutliers(values)| > 0
  {
    FilterOutliersSpec(values);
    if |values| >= 4 {
      var sorted := SortAsc(values);
      var x := sorted[|values| / 2 - 1];
      LowerMiddleInFence(values);
      assert x in multiset(sorted);
      assert multiset(FilterOutliers(values))[x] > 0;
    }
  }

  lemma FilterOutliersWithin(values: seq<real>, lo: real, hi: real)
    requires AllIn(values, lo, hi)
    ensures AllIn(FilterOutliers(values), lo, hi)
  {
    var r := FilterOutliers(values);
    FilterOutliersSubMultiset(values);
    forall i | 0 <= i < |r| ensures lo <= r[i] <= hi {
      assert r[i] in multiset(r);
      assert r[i] in multiset(values);
      assert r[i] in values;
    }
  }

  datatype MedianStats = MedianStats(values: TrinityValue, sample: nat, lowConfidence: bool)

  function Min3(a: nat, b: nat, c: nat): nat
  {
    if a <= b && a <= c then a else if b <= c then b else c
  }

  /** `filterOutliers(logs.map(l => l.values[d]))`. */
  function FilteredValues(logs: seq<LogEntry>, d: Dimension): seq<real>
  {
    FilterOutliers(Values(logs, d))
  }

  function MedianOr(values: seq<real>, fallback: real): real
  {
    if |values| > 0 then Median(values) else fallback
  }

  function ComputeMedianStats(logs: seq<LogEntry>): (r: MedianStats)
    ensures r.lowConfidence <==> r.sample < 5
  {
    if |logs| == 0 then MedianStats(DefaultBaseline, 0, true)
    else
      var pList := FilteredValues(logs, P);
      var cList := FilteredValues(logs, C);
      var sList := FilteredValues(logs, S);
      var sample := Min3(|pList|, |cList|, |sList|);
      MedianStats(
        TrinityValue(MedianOr(pList, DefaultBaseline.p),
                     MedianOr(cList, DefaultBaseline.c),
                     MedianOr(sList, DefaultBaseline.s)),
        sample, sample < 5)
  }

  lemma ComputeMedianStatsEmpty()
    ensures ComputeMedianStats([]) == MedianStats(TrinityValue(5.0, 5.0, 2.0), 0, true)
  {
  }

  /** For a non-empty history: each dimension reports the median of its filtered
      list (never the default, since filtering keeps a value), `sample` is the
      smallest filtered length, between 1 and the number of logs, and equal to it
      for fewer than four logs. */
  lemma ComputeMedianStatsNonEmpty(logs: seq<LogEntry>)
    requires |logs| > 0
    ensures var r := ComputeMedianStats(logs);
            && r.values == TrinityValue(Median(FilteredValues(logs, P)),
                                        Median(FilteredValues(logs, C)),
                                        Median(FilteredValues(logs, S)))
            && r.sample == Min3(|FilteredValues(logs, P)|, |FilteredValues(logs, C)|, |FilteredValues(logs, S)|)
            && 1 <= r.sample <= |logs|
            && (|logs| < 4 ==> r.sample == |logs|)
  {
    var p, c, s := FilteredValues(logs, P), FilteredValues(logs, C), FilteredValues(logs, S);
    FilteredLength(logs, P);
    FilteredLength(logs, C);
    FilteredLength(logs, S);
    var r := ComputeMedianStats(logs);
    assert r.sample == Min3(|p|, |c|, |s|);
    assert r.values == TrinityValue(MedianOr(p, 5.0), MedianOr(c, 5.0), MedianOr(s, 2.0));
    assert MedianOr(p, 5.0) == Median(p) && MedianOr(c, 5.0) == Median(c) && MedianOr(s, 2.0) == Median(s);
  }

  lemma FilteredLength(logs: seq<LogEntry>, d: Dimension)
    requires |logs| > 0
    ensures 0 < |FilteredValues(logs, d)| <= |logs|
    ensures |logs| < 4 ==> |FilteredValues(logs, d)| == |logs|
  {
    FilterOutliersNonEmpty(Values(logs, d));
  }

  /** Readings within [lo, hi] give a summary within [lo, hi] when the defaults are. */
  lemma ComputeMedianStatsWithin(logs: seq<LogEntry>, lo: real, hi: real)
    requires ValuesIn(logs, lo, hi)
    requires lo <= 2.0 && 5.0 <= hi
    ensures var v := ComputeMedianStats(logs).values;
            lo <= v.p <= hi && lo <= v.c <= hi && lo <= v.s <= hi
  {
    if |logs| > 0 {
      forall d: Dimension ensures |FilteredValues(logs, d)| > 0 && lo <= Median(FilteredValues(logs, d)) <= hi {
        var vals := Values(logs, d);
        assert AllIn(vals, lo, hi);
        assert |vals| > 0;
        FilterOutliersNonEmpty(vals);
        FilterOutliersWithin(vals, lo, hi);
        MedianWithin(FilterOutliers(vals), lo, hi);
      }
      var _ := FilteredValues(logs, P);
      var _ := FilteredValues(logs, C);
      var _ := FilteredValues(logs, S);
    }
  }

  /** A month of the year as `Date.getMonth` returns it (0 is January). */
  type Month = m: int | 0 <= m < 12

  /** Two-digit text of 1..12, `String(n).padStart(2, '0')`. */
  function Pad2(n: int): (r: string)
    requires 1 <= n <= 12
    ensures |r| == 2
  {
    [NumberText.DigitChar(n / 10), NumberText.DigitChar(n % 10)]
  }

  /** `getMonthKey`: "YYYY-MM" with the month counted from 1. */
  function MonthKey(year: int, month: Month): string
  {
    NumberText.DecimalString(year) + "-" + Pad2(month + 1)
  }

  /** The key names its month: the year text, `-`, and two digits spelling month + 1;
      different (year, month) pairs have different keys. */
  lemma MonthKeyInjective(y1: int, m1: Month, y2: int, m2: Month)
    requires MonthKey(y1, m1) == MonthKey(y2, m2)
    ensures y1 == y2 && m1 == m2
  {
    var k := MonthKey(y1, m1);
    var t1, t2 := NumberText.DecimalString(y1), NumberText.DecimalString(y2);
    assert |t1| == |t2| by {
      assert |k| == |t1| + 3 == |t2| + 3;
    }
    assert t1 == k[..|t1|] == t2;
    NumberText.ParseIntDecimal(y1);
    NumberText.ParseIntDecimal(y2);
    assert Pad2(m1 + 1) == k[|t1| + 1..] == Pad2(m2 + 1);
    NumberText.DigitRoundTrip((m1 + 1) / 10);
    NumberText.DigitRoundTrip((m1 + 1) % 10);
    NumberText.DigitRoundTrip((m2 + 1) / 10);
    NumberText.DigitRoundTrip((m2 + 1) % 10);
  }
}
