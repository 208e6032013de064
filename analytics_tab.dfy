/** The analytics view's aggregation helpers: the days x 24 heatmap, the 24-hour
    map, the state summary and colour rules, and the filters and deltas the view
    applies. Clock and calendar facts come in as `now`, `hourOf` and `dayOfWeek`. */
module AnalyticsTab {
  import opened Wrappers
  import opened Trinity
  import opened Numeric
  import Analytics

  /** `clamp(v, min, max)`: `Math.max(min, Math.min(max, v))`. */
  function Clamp(v: real, lo: real, hi: real): (r: real)
    ensures lo <= hi ==> lo <= r <= hi
    ensures lo <= v <= hi ==> r == v
    ensures v < lo ==> r == lo
    ensures lo <= hi < v ==> r == hi
  {
    var m := if hi < v then hi else v;
    if lo < m then m else lo
  }

  /** The default range of `clamp`. */
  function Clamp10(v: real): real
  {
    Clamp(v, 0.0, 10.0)
  }

  datatype StateLabel = HighFocus | LowRest | ImpulseHigh | DeepWork | SocialActive | Regular

  /** The text the view shows for each label. */
  function LabelText(state: StateLabel): string
  {
    match state
    case HighFocus => "高能专注"
    case LowRest => "低能休整"
    case ImpulseHigh => "冲动偏高"
    case DeepWork => "深度工作友好"
    case SocialActive => "社交/运动适合"
    case Regular => "常规"
  }

  lemma LabelTextInjective(a: StateLabel, b: StateLabel)
    requires LabelText(a) == LabelText(b)
    ensures a == b
  {
    assert LabelText(a)[0] == LabelText(b)[0];
    if a.HighFocus? || b.HighFocus? {
      assert LabelText(a)[1] == LabelText(b)[1];
    }
  }

  /** The condition of each rule of the summary table. */
  predicate RuleHolds(state: StateLabel, p: real, c: real, s: real)
  {
    match state
    case HighFocus => p >= 8.0 && c >= 8.0 && s <= 4.0
    case LowRest => p <= 4.0 && c <= 4.0 && s <= 4.0
    case ImpulseHigh => s >= 7.0 && c <= 5.0
    case DeepWork => c >= 7.0 && p >= 6.0 && s <= 6.0
    case SocialActive => p >= 6.0 && s >= 6.0
    case Regular => true
  }

  /** The rules in the order they are tried. */
  const RuleOrder: seq<StateLabel> := [HighFocus, LowRest, ImpulseHigh, DeepWork, SocialActive]

  /** The first rule of `rules` that holds, or `Regular`. */
  function FirstRule(rules: seq<StateLabel>, p: real, c: real, s: real): StateLabel
  {
    if |rules| == 0 then Regular
    else if RuleHolds(rules[0], p, c, s) then rules[0]
    else FirstRule(rules[1..], p, c, s)
  }

  /** `summarizeState`, as the source's chain of tests. */
  function SummarizeState(p: real, c: real, s: real): (r: StateLabel)
    ensures r == Regular <==> forall i :: 0 <= i < |RuleOrder| ==> !RuleHolds(RuleOrder[i], p, c, s)
    ensures r != Regular ==> exists i :: 0 <= i < |RuleOrder| && RuleOrder[i] == r && RuleHolds(r, p, c, s)
                                         && forall j :: 0 <= j < i ==> !RuleHolds(RuleOrder[j], p, c, s)
  {
    if p >= 8.0 && c >= 8.0 && s <= 4.0 then
      assert RuleOrder[0] == HighFocus; HighFocus
    else if p <= 4.0 && c <= 4.0 && s <= 4.0 then
      assert RuleOrder[1] == LowRest; LowRest
    else if s >= 7.0 && c <= 5.0 then
      assert RuleOrder[2] == ImpulseHigh; ImpulseHigh
    else if c >= 7.0 && p >= 6.0 && s <= 6.0 then
      assert RuleOrder[3] == DeepWork; DeepWork
    else if p >= 6.0 && s >= 6.0 then
      assert RuleOrder[4] == SocialActive; SocialActive
    else Regular
  }

  /** The chain of tests is the first-match reading of the rule table. */
  lemma SummarizeStateIsFirstRule(p: real, c: real, s: real)
    ensures SummarizeState(p, c, s) == FirstRule(RuleOrder, p, c, s)
  {
    var r5: seq<StateLabel> := [];
    var r4, r3 := [SocialActive] + r5, [DeepWork, SocialActive];
    var r2, r1 := [ImpulseHigh] + r3, [LowRest, ImpulseHigh, DeepWork, SocialActive];
    assert r4[1..] == r5 && r3[1..] == r4 && r2[1..] == r3 && r1[1..] == r2 && RuleOrder[1..] == r1;
    assert FirstRule(r4, p, c, s) == if RuleHolds(SocialActive, p, c, s) then SocialActive else Regular;
    assert FirstRule(r3, p, c, s) == if RuleHolds(DeepWork, p, c, s) then DeepWork else FirstRule(r4, p, c, s);
    assert FirstRule(r2, p, c, s) == if RuleHolds(ImpulseHigh, p, c, s) then ImpulseHigh else FirstRule(r3, p, c, s);
    assert FirstRule(r1, p, c, s) == if RuleHolds(LowRest, p, c, s) then LowRest else FirstRule(r2, p, c, s);
  }

  /** High physical and cognitive levels with low impulse are always "high focus". */
  lemma SummarizeHighFocus(p: real, c: real, s: real)
    requires p >= 8.0 && c >= 8.0 && s <= 4.0
    ensures LabelText(SummarizeState(p, c, s)) == "高能专注"
  {
  }

  datatype Rgba = Rgba(red: int, green: int, blue: int, alpha: real)

  const ImpulseRed: Rgba := Rgba(239, 68, 68, 1.0)
  const CognitiveBlue: Rgba := Rgba(59, 130, 246, 1.0)
  const PhysicalGreen: Rgba := Rgba(34, 197, 94, 1.0)
  const FaintWhite: Rgba := Rgba(255, 255, 255, 0.05)

  /** `Math.min(1, (x - 6) / 4)`. */
  function Intensity(x: real): real
  {
    if (x - 6.0) / 4.0 < 1.0 then (x - 6.0) / 4.0 else 1.0
  }

  function WithAlpha(base: Rgba, alpha: real): Rgba
  {
    base.(alpha := alpha)
  }

  /** `getHeatmapColor`: impulse first, then cognitive, then physical, each from 6.5
      on, with an alpha growing with the level; the faint white otherwise. */
  function HeatmapColor(p: real, c: real, s: real): (r: Rgba)
    ensures r == FaintWhite <==> s < 6.5 && c < 6.5 && p < 6.5
    ensures r != FaintWhite ==> 0.125 <= r.alpha <= 1.0
  {
    if s >= 6.5 then WithAlpha(ImpulseRed, Intensity(s))
    else if c >= 6.5 then WithAlpha(CognitiveBlue, Intensity(c))
    else if p >= 6.5 then WithAlpha(PhysicalGreen, Intensity(p))
    else FaintWhite
  }

  /** The colour names the dimension that decided it, in the priority impulse,
      cognitive, physical, and its alpha is that dimension's intensity. */
  lemma HeatmapColorAlpha(p: real, c: real, s: real)
    ensures var r := HeatmapColor(p, c, s);
            && (r.red == 239 <==> s >= 6.5)
            && (r.red == 59 <==> s < 6.5 && c >= 6.5)
            && (r.red == 34 <==> s < 6.5 && c < 6.5 && p >= 6.5)
            && (r.red == 239 ==> r.alpha == Intensity(s))
            && (r.red == 59 ==> r.alpha == Intensity(c))
            && (r.red == 34 ==> r.alpha == Intensity(p))
  {
  }

  /** One aggregated cell: per-dimension values and the number of logs. */
  datatype Cell = Cell(p: real, c: real, s: real, count: nat)

  const EmptyCell: Cell := Cell(0.0, 0.0, 0.0, 0)

  /** The running sums the source accumulates with `+=`. */
  function Totals(g: seq<LogEntry>): (r: Cell)
    ensures r.count == |g|
  {
    Cell(Sum(Values(g, P)), Sum(Values(g, C)), Sum(Values(g, S)), |g|)
  }

  /** The averaging step: sums divided by the count when there are logs. */
  function Average(t: Cell): Cell
  {
    if t.count > 0 then Cell(t.p / t.count as real, t.c / t.count as real, t.s / t.count as real, t.count)
    else t
  }

  /** The cell of a group of logs: zeros for no logs, else the means and the count. */
  function MeanCell(g: seq<LogEntry>): (r: Cell)
    ensures |g| == 0 ==> r == EmptyCell
    ensures |g| > 0 ==> r == Cell(Mean(Values(g, P)), Mean(Values(g, C)), Mean(Values(g, S)), |g|)
  {
    Average(Totals(g))
  }

  lemma TotalsAppend(g: seq<LogEntry>, l: LogEntry)
    ensures Totals(g + [l]) == Cell(Totals(g).p + l.values.p, Totals(g).c + l.values.c,
                                    Totals(g).s + l.values.s, Totals(g).count + 1)
  {
    forall d: Dimension ensures Sum(Values(g + [l], d)) == Sum(Values(g, d)) + Component(l.values, d) {
      var vs := Values(g + [l], d);
      assert vs[..|vs| - 1] == Values(g, d);
    }
  }

  function Abs(x: int): nat
  {
    if x < 0 then -x else x
  }

  /** `Math.floor(Math.abs(now - ts) / 86400000)`: whole days away from now, in
      either direction. */
  function RowIndex(now: int, ts: int): nat
  {
    Abs(now - ts) / DayMs
  }

  /** Future logs land in rows too: a log k ms ahead of now shares the row of a log
      k ms behind it. */
  lemma RowIndexSymmetric(now: int, k: nat)
    ensures RowIndex(now, now + k) == RowIndex(now, now - k) == k / DayMs
  {
  }

  function InCell(now: int, hourOf: int -> Hour, row: nat, h: Hour): LogEntry -> bool
  {
    (l: LogEntry) => RowIndex(now, l.timestamp) == row && hourOf(l.timestamp) == h
  }

  /** The logs counted in cell (row, h), in input order. */
  function CellLogs(logs: seq<LogEntry>, now: int, hourOf: int -> Hour, row: nat, h: Hour): seq<LogEntry>
  {
    Filter(logs, InCell(now, hourOf, row, h))
  }

  /** The cell (row, h) of the heatmap. */
  function HeatCell(logs: seq<LogEntry>, now: int, hourOf: int -> Hour, row: nat, h: Hour): Cell
  {
    MeanCell(CellLogs(logs, now, hourOf, row, h))
  }

  lemma CellLogsStep(logs: seq<LogEntry>, k: nat, now: int, hourOf: int -> Hour, row: nat, h: Hour)
    requires k < |logs|
    ensures CellLogs(logs[..k + 1], now, hourOf, row, h)
         == CellLogs(logs[..k], now, hourOf, row, h)
            + (if RowIndex(now, logs[k].timestamp) == row && hourOf(logs[k].timestamp) == h then [logs[k]] else [])
  {
    assert logs[..k + 1][..k] == logs[..k];
  }

  /** `hData.p += l.values.p` and so on, and `hData.count += 1`. */
  function AddLog(cell: Cell, l: LogEntry): Cell
  {
    Cell(cell.p + l.values.p, cell.c + l.values.c, cell.s + l.values.s, cell.count + 1)
  }

  lemma TotalsStep(logs: seq<LogEntry>, k: nat, now: int, hourOf: int -> Hour, row: nat, h: Hour)
    requires k < |logs|
    ensures Totals(CellLogs(logs[..k + 1], now, hourOf, row, h))
         == if RowIndex(now, logs[k].timestamp) == row && hourOf(logs[k].timestamp) == h
            then AddLog(Totals(CellLogs(logs[..k], now, hourOf, row, h)), logs[k])
            else Totals(CellLogs(logs[..k], now, hourOf, row, h))
  {
    var g := CellLogs(logs[..k], now, hourOf, row, h);
    CellLogsStep(logs, k, now, hourOf, row, h);
    if RowIndex(now, logs[k].timestamp) == row && hourOf(logs[k].timestamp) == h {
      assert CellLogs(logs[..k + 1], now, hourOf, row, h) == g + [logs[k]];
      TotalsAppend(g, logs[k]);
    } else {
      assert CellLogs(logs[..k + 1], now, hourOf, row, h) == g;
    }
  }

  /** The summing pass of `buildHeatmapData`: each log is added to the cell of its
      row and local hour when the row is below `days`. */
  method AccumulateHeatmap(logs: seq<LogEntry>, days: nat, now: int, hourOf: int -> Hour)
    returns (grid: array2<Cell>)
    ensures fresh(grid) && grid.Length0 == days && grid.Length1 == 24
    ensures forall d, h :: 0 <= d < days && 0 <= h < 24 ==>
              grid[d, h] == Totals(CellLogs(logs, now, hourOf, d, h))
  {
    grid := new Cell[days, 24]((_, _) => EmptyCell);
    for k := 0 to |logs|
      invariant forall d, h :: 0 <= d < days && 0 <= h < 24 ==>
                  grid[d, h] == Totals(CellLogs(logs[..k], now, hourOf, d, h))
    {
      var l := logs[k];
      var diffDays := Abs(now - l.timestamp) / DayMs;
      if diffDays < days {
        var hour := hourOf(l.timestamp);
        var cell := grid[diffDays, hour];
        grid[diffDays, hour] := AddLog(cell, l);
        forall d, h | 0 <= d < days && 0 <= h < 24
          ensures grid[d, h] == Totals(CellLogs(logs[..k + 1], now, hourOf, d, h))
        {
          TotalsStep(logs, k, now, hourOf, d, h);
        }
      } else {
        forall d, h | 0 <= d < days && 0 <= h < 24
          ensures grid[d, h] == Totals(CellLogs(logs[..k + 1], now, hourOf, d, h))
        {
          TotalsStep(logs, k, now, hourOf, d, h);
        }
      }
    }
    assert logs[..|logs|] == logs;
  }

  /** The averaging pass: every cell with logs is divided by its count in place. */
  method AverageCells(grid: array2<Cell>)
    modifies grid
    ensures forall d, h :: 0 <= d < grid.Length0 && 0 <= h < grid.Length1 ==>
              grid[d, h] == Average(old(grid[d, h]))
  {
    for d := 0 to grid.Length0
      invariant forall d', h :: 0 <= d' < d && 0 <= h < grid.Length1 ==> grid[d', h] == Average(old(grid[d', h]))
      invariant forall d', h :: d <= d' < grid.Length0 && 0 <= h < grid.Length1 ==> grid[d', h] == old(grid[d', h])
    {
      for h := 0 to grid.Length1
        invariant forall d', h' :: 0 <= d' < d && 0 <= h' < grid.Length1 ==> grid[d', h'] == Average(old(grid[d', h']))
        invariant forall h' :: 0 <= h' < h ==> grid[d, h'] == Average(old(grid[d, h']))
        invariant forall d', h' :: d <= d' < grid.Length0 && 0 <= h' < grid.Length1 && (d' > d || h' >= h) ==>
                    grid[d', h'] == old(grid[d', h'])
      {
        var cell := grid[d, h];
        if cell.count > 0 {
          grid[d, h] := Cell(cell.p / cell.count as real, cell.c / cell.count as real,
                             cell.s / cell.count as real, cell.count);
        }
      }
    }
  }

  /** `buildHeatmapData` without the date labels: `days` rows of 24 cells, cell
      (row, h) holding the mean of the logs of that row and local hour. */
  method BuildHeatmapData(logs: seq<LogEntry>, days: nat, now: int, hourOf: int -> Hour)
    returns (data: seq<seq<Cell>>)
    ensures |data| == days
    ensures forall d :: 0 <= d < days ==> |data[d]| == 24
    ensures forall d, h :: 0 <= d < days && 0 <= h < 24 ==> data[d][h] == HeatCell(logs, now, hourOf, d, h)
  {
    var grid := AccumulateHeatmap(logs, days, now, hourOf);
    AverageCells(grid);
    data := [];
    for d := 0 to days
      invariant |data| == d
      invariant forall d' :: 0 <= d' < d ==> |data[d']| == 24
      invariant forall d', h :: 0 <= d' < d && 0 <= h < 24 ==> data[d'][h] == HeatCell(logs, now, hourOf, d', h)
    {
      var row := seq(24, h requires 0 <= h < 24 reads grid => grid[d, h]);
      data := data + [row];
    }
  }

  /** The logs the heatmap counts: those less than `days` whole days from now. */
  function InRange(now: int, days: nat): LogEntry -> bool
  {
    (l: LogEntry) => RowIndex(now, l.timestamp) < days
  }

  /** The number of logs in the first `hs` cells of row `d`. */
  function RowCount(logs: seq<LogEntry>, now: int, hourOf: int -> Hour, d: nat, hs: nat): nat
    requires hs <= 24
  {
    if hs == 0 then 0 else RowCount(logs, now, hourOf, d, hs - 1) + |CellLogs(logs, now, hourOf, d, hs - 1)|
  }

  /** The number of logs in the first `ds` rows. */
  function GridCount(logs: seq<LogEntry>, now: int, hourOf: int -> Hour, ds: nat): nat
  {
    if ds == 0 then 0 else GridCount(logs, now, hourOf, ds - 1) + RowCount(logs, now, hourOf, ds - 1, 24)
  }

  lemma {:induction false} RowCountStep(logs: seq<LogEntry>, now: int, hourOf: int -> Hour, d: nat, hs: nat)
    requires |logs| > 0 && hs <= 24
    ensures var l := logs[|logs| - 1];
            RowCount(logs, now, hourOf, d, hs)
            == RowCount(logs[..|logs| - 1], now, hourOf, d, hs)
               + (if RowIndex(now, l.timestamp) == d && hourOf(l.timestamp) < hs then 1 else 0)
  {
    if hs > 0 {
      RowCountStep(logs, now, hourOf, d, hs - 1);
    }
  }

  lemma {:induction false} GridCountStep(logs: seq<LogEntry>, now: int, hourOf: int -> Hour, ds: nat)
    requires |logs| > 0
    ensures var l := logs[|logs| - 1];
            GridCount(logs, now, hourOf, ds)
            == GridCount(logs[..|logs| - 1], now, hourOf, ds) + (if RowIndex(now, l.timestamp) < ds then 1 else 0)
  {
    if ds > 0 {
      GridCountStep(logs, now, hourOf, ds - 1);
      RowCountStep(logs, now, hourOf, ds - 1, 24);
    }
  }

  lemma {:induction false} GridCountNoLogs(now: int, hourOf: int -> Hour, ds: nat)
    ensures GridCount([], now, hourOf, ds) == 0
  {
    if ds > 0 {
      GridCountNoLogs(now, hourOf, ds - 1);
      RowCountNoLogs(now, hourOf, ds - 1, 24);
    }
  }

  lemma {:induction false} RowCountNoLogs(now: int, hourOf: int -> Hour, d: nat, hs: nat)
    requires hs <= 24
    ensures RowCount([], now, hourOf, d, hs) == 0
  {
    if hs > 0 {
      RowCountNoLogs(now, hourOf, d, hs - 1);
    }
  }

  /** The counts of all cells add up to the number of logs less than `days` days
      from now: each such log lands in exactly one cell, every other log in none. */
  lemma {:induction false} HeatmapCountsLogs(logs: seq<LogEntry>, now: int, hourOf: int -> Hour, days: nat)
    ensures GridCount(logs, now, hourOf, days) == |Filter(logs, InRange(now, days))|
  {
    if |logs| == 0 {
      GridCountNoLogs(now, hourOf, days);
    } else {
      HeatmapCountsLogs(logs[..|logs| - 1], now, hourOf, days);
      GridCountStep(logs, now, hourOf, days);
    }
  }

  /** A log lands in exactly the cell of its row and local hour. */
  lemma HeatmapCellOfLog(logs: seq<LogEntry>, now: int, hourOf: int -> Hour, l: LogEntry, d: nat, h: Hour)
    requires l in logs
    ensures l in CellLogs(logs, now, hourOf, d, h)
            <==> RowIndex(now, l.timestamp) == d && hourOf(l.timestamp) == h
  {
    FilterMembers(logs, InCell(now, hourOf, d, h));
  }

  function AtOrAfter(cutoff: int): LogEntry -> bool
  {
    (l: LogEntry) => l.timestamp >= cutoff
  }

  function InBucket(cutoff: int, hourOf: int -> Hour, h: Hour): LogEntry -> bool
  {
    (l: LogEntry) => l.timestamp >= cutoff && hourOf(l.timestamp) == h
  }

  /** The logs of local hour `h` at or after the cutoff, in input order. */
  function HourBucket(logs: seq<LogEntry>, cutoff: int, hourOf: int -> Hour, h: Hour): seq<LogEntry>
  {
    Filter(logs, InBucket(cutoff, hourOf, h))
  }

  /** `Date.now() - days * 24 * 60 * 60 * 1000`. */
  function WindowStart(now: int, days: nat): int
  {
    now - days * DayMs
  }

  /** `buildHourMap`: 24 buckets of the logs at or after the cutoff, each reduced to
      zeros or to its means and count. */
  method BuildHourMap(logs: seq<LogEntry>, days: nat, now: int, hourOf: int -> Hour) returns (r: seq<Cell>)
    ensures |r| == 24
    ensures forall h :: 0 <= h < 24 ==> r[h] == MeanCell(HourBucket(logs, WindowStart(now, days), hourOf, h))
  {
    var cutoff := now - days * 24 * 60 * 60 * 1000;
    var buckets := new seq<LogEntry>[24](_ => []);
    for k := 0 to |logs|
      invariant forall h :: 0 <= h < 24 ==> buckets[h] == HourBucket(logs[..k], cutoff, hourOf, h)
    {
      var l := logs[k];
      assert logs[..k + 1][..k] == logs[..k];
      if l.timestamp >= cutoff {
        var h := hourOf(l.timestamp);
        buckets[h] := buckets[h] + [l];
      }
    }
    assert logs[..|logs|] == logs;
    r := seq(24, h requires 0 <= h < 24 reads buckets => MeanCell(buckets[h]));
  }

  /** The number of logs in the first `hs` buckets. */
  function BucketCount(logs: seq<LogEntry>, cutoff: int, hourOf: int -> Hour, hs: nat): nat
    requires hs <= 24
  {
    if hs == 0 then 0 else BucketCount(logs, cutoff, hourOf, hs - 1) + |HourBucket(logs, cutoff, hourOf, hs - 1)|
  }

  lemma {:induction false} BucketCountStep(logs: seq<LogEntry>, cutoff: int, hourOf: int -> Hour, hs: nat)
    requires |logs| > 0 && hs <= 24
    ensures var l := logs[|logs| - 1];
            BucketCount(logs, cutoff, hourOf, hs)
            == BucketCount(logs[..|logs| - 1], cutoff, hourOf, hs)
               + (if l.timestamp >= cutoff && hourOf(l.timestamp) < hs then 1 else 0)
  {
    if hs > 0 {
      BucketCountStep(logs, cutoff, hourOf, hs - 1);
    }
  }

  lemma {:induction false} BucketCountNoLogs(cutoff: int, hourOf: int -> Hour, hs: nat)
    requires hs <= 24
    ensures BucketCount([], cutoff, hourOf, hs) == 0
  {
    if hs > 0 {
      BucketCountNoLogs(cutoff, hourOf, hs - 1);
    }
  }

  /** The bucket counts add up to the number of logs at or after the cutoff (a log
      exactly at the cutoff counts, an earlier one does not). */
  lemma {:induction false} HourMapCountsLogs(logs: seq<LogEntry>, cutoff: int, hourOf: int -> Hour)
    ensures BucketCount(logs, cutoff, hourOf, 24) == |Filter(logs, AtOrAfter(cutoff))|
  {
    if |logs| == 0 {
      BucketCountNoLogs(cutoff, hourOf, 24);
    } else {
      HourMapCountsLogs(logs[..|logs| - 1], cutoff, hourOf);
      BucketCountStep(logs, cutoff, hourOf, 24);
    }
  }

  datatype DayType = AllDays | Weekdays | Weekends

  /** `d === 0 || d === 6` for the local day of week. */
  predicate IsWeekend(dayOfWeek: int -> Weekday, ts: int)
  {
    dayOfWeek(ts) == 0 || dayOfWeek(ts) == 6
  }

  function DayTypeTest(dayType: DayType, dayOfWeek: int -> Weekday): LogEntry -> bool
  {
    (l: LogEntry) => if dayType == Weekends then IsWeekend(dayOfWeek, l.timestamp) else !IsWeekend(dayOfWeek, l.timestamp)
  }

  /** The day-type filter: everything for "all", otherwise weekend or weekday logs. */
  function FilterDayType(logs: seq<LogEntry>, dayType: DayType, dayOfWeek: int -> Weekday): (r: seq<LogEntry>)
    ensures dayType == AllDays ==> r == logs
    ensures dayType == Weekends ==> forall l :: l in r <==> l in logs && dayOfWeek(l.timestamp) in {0, 6}
    ensures dayType == Weekdays ==> forall l :: l in r <==> l in logs && 1 <= dayOfWeek(l.timestamp) <= 5
  {
    FilterMembers(logs, DayTypeTest(dayType, dayOfWeek));
    if dayType == AllDays then logs else Filter(logs, DayTypeTest(dayType, dayOfWeek))
  }

  function HasTag(tag: string): LogEntry -> bool
  {
    (l: LogEntry) => tag in l.tags
  }

  /** `filterTag`: everything for "all", otherwise the logs carrying the tag. */
  function FilterTag(logs: seq<LogEntry>, selectedTag: string): (r: seq<LogEntry>)
    ensures selectedTag == "all" ==> r == logs
    ensures selectedTag != "all" ==> forall l :: l in r <==> l in logs && selectedTag in l.tags
  {
    FilterMembers(logs, HasTag(selectedTag));
    if selectedTag == "all" then logs else Filter(logs, HasTag(selectedTag))
  }

  /** `heatFiltered`: the history within `heatRange` days, then the day-type filter. */
  function HeatFiltered(history: seq<LogEntry>, heatRange: nat, dayType: DayType, now: int,
                        dayOfWeek: int -> Weekday): seq<LogEntry>
  {
    FilterDayType(Filter(history, AtOrAfter(WindowStart(now, heatRange))), dayType, dayOfWeek)
  }

  /** The heatmap and the hour map of the view: the heatmap is built from the whole
      history, whatever the day type; the hour map from the filtered history. */
  method HeatViews(history: seq<LogEntry>, heatRange: nat, dayType: DayType, now: int,
                   hourOf: int -> Hour, dayOfWeek: int -> Weekday)
    returns (heatmap: seq<seq<Cell>>, hourMap: seq<Cell>)
    ensures |heatmap| == heatRange && |hourMap| == 24
    ensures forall d, h :: 0 <= d < heatRange && 0 <= h < 24 ==>
              |heatmap[d]| == 24 && heatmap[d][h] == HeatCell(history, now, hourOf, d, h)
    ensures forall h :: 0 <= h < 24 ==>
              hourMap[h] == MeanCell(HourBucket(HeatFiltered(history, heatRange, dayType, now, dayOfWeek),
                                                WindowStart(now, heatRange), hourOf, h))
  {
    heatmap := BuildHeatmapData(history, heatRange, now, hourOf);
    hourMap := BuildHourMap(HeatFiltered(history, heatRange, dayType, now, dayOfWeek), heatRange, now, hourOf);
  }

  /** `(actual ?? baseline) - baseline`. */
  function Delta(actual: Option<real>, baseline: real): (r: real)
    ensures actual.None? ==> r == 0.0
    ensures actual.Some? ==> r + baseline == actual.value
  {
    actual.GetOr(baseline) - baseline
  }

  predicate HasActual(pt: Analytics.ChartPoint)
  {
    pt.pActual.Some? || pt.cActual.Some? || pt.sActual.Some?
  }

  /** `[...chartData].reverse().find(...)`: the last point with any reading. */
  function LatestPoint(chart: seq<Analytics.ChartPoint>): (r: Option<Analytics.ChartPoint>)
    ensures r.None? <==> forall i :: 0 <= i < |chart| ==> !HasActual(chart[i])
    ensures r.Some? ==> exists i :: 0 <= i < |chart| && chart[i] == r.value && HasActual(r.value)
                                    && forall j :: i < j < |chart| ==> !HasActual(chart[j])
  {
    if |chart| == 0 then None
    else if HasActual(chart[|chart| - 1]) then Some(chart[|chart| - 1])
    else
      var r := LatestPoint(chart[..|chart| - 1]);
      assert forall i :: 0 <= i < |chart| - 1 ==> chart[..|chart| - 1][i] == chart[i];
      r
  }

  /** `latestDelta`: the deviation from baseline at the last point with a reading,
      0 in each dimension without one. */
  function LatestDelta(chart: seq<Analytics.ChartPoint>): (r: Option<TrinityValue>)
    ensures r.None? <==> forall i :: 0 <= i < |chart| ==> !HasActual(chart[i])
    ensures r.Some? ==> exists i :: 0 <= i < |chart| && HasActual(chart[i])
                         && (forall j :: i < j < |chart| ==> !HasActual(chart[j]))
                         && (chart[i].pActual.None? ==> r.value.p == 0.0)
                         && (chart[i].cActual.None? ==> r.value.c == 0.0)
                         && (chart[i].sActual.None? ==> r.value.s == 0.0)
                         && (chart[i].pActual.Some? ==> r.value.p == chart[i].pActual.value - chart[i].pBaseline)
                         && (chart[i].cActual.Some? ==> r.value.c == chart[i].cActual.value - chart[i].cBaseline)
                         && (chart[i].sActual.Some? ==> r.value.s == chart[i].sActual.value - chart[i].sBaseline)
  {
    match LatestPoint(chart)
    case None => None
    case Some(pt) =>
      Some(TrinityValue(Delta(pt.pActual, pt.pBaseline), Delta(pt.cActual, pt.cBaseline), Delta(pt.sActual, pt.sBaseline)))
  }

  datatype ComboItem = ComboItem(hour: int, p: real, c: real, s: real, count: nat, desc: string)

  const NoDataText: string := "暂无数据"

  /** `comboList`: each hour's clamped means, its count, and the summary label
      (or "no data" for an empty hour). */
  function ComboList(hourMap: seq<Cell>): (r: seq<ComboItem>)
    ensures |r| == |hourMap|
    ensures forall i :: 0 <= i < |hourMap| ==>
              && r[i].hour == i && r[i].count == hourMap[i].count
              && r[i].p == Clamp10(hourMap[i].p) && r[i].c == Clamp10(hourMap[i].c) && r[i].s == Clamp10(hourMap[i].s)
              && 0.0 <= r[i].p <= 10.0 && 0.0 <= r[i].c <= 10.0 && 0.0 <= r[i].s <= 10.0
              && (hourMap[i].count == 0 ==> r[i].desc == NoDataText)
              && (hourMap[i].count > 0 ==> r[i].desc == LabelText(SummarizeState(r[i].p, r[i].c, r[i].s)))
  {
    seq(|hourMap|, i requires 0 <= i < |hourMap| =>
      var h := hourMap[i];
      var p, c, s := Clamp10(h.p), Clamp10(h.c), Clamp10(h.s);
      ComboItem(i, p, c, s, h.count, if h.count > 0 then LabelText(SummarizeState(p, c, s)) else NoDataText))
  }
}
