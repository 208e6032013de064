/** The day chart: 48 half-hour slots from local midnight, each with the standard
    circadian value, the baseline from history and the reading logged near it. */
module Analytics {
  import opened Wrappers
  import opened Trinity
  import NumberText
  import Biorhythm

  const SlotMs: int := 30 * MinuteMs
  const SlotCount: nat := 48

  /** A log matches a slot when it lies strictly within 15 minutes of it. */
  const MatchMs: int := 15 * MinuteMs

  /** The slot timestamps of the day starting at `midnight`. */
  function TimeSlots(midnight: int): (r: seq<int>)
    ensures |r| == SlotCount
    ensures forall i :: 0 <= i < SlotCount ==> r[i] == midnight + i * SlotMs
  {
    seq(SlotCount, i requires 0 <= i < SlotCount => midnight + i * SlotMs)
  }

  /** Slots are strictly increasing, 30 minutes apart. */
  lemma TimeSlotsIncreasing(midnight: int, i: nat, j: nat)
    requires i < j < SlotCount
    ensures TimeSlots(midnight)[j] - TimeSlots(midnight)[i] >= SlotMs
  {
    var s := TimeSlots(midnight);
    assert s[j] - s[i] == (j - i) * SlotMs;
  }

  /** `generateTimeSlots`, with local midnight passed in. */
  method GenerateTimeSlots(midnight: int) returns (slots: seq<int>)
    ensures slots == TimeSlots(midnight)
  {
    slots := [];
    for i := 0 to SlotCount
      invariant |slots| == i
      invariant forall k :: 0 <= k < i ==> slots[k] == midnight + k * 30 * 60 * 1000
    {
      slots := slots + [midnight + i * 30 * 60 * 1000];
    }
  }

  /** `getStandardValue`: the piecewise standard circadian curve of one dimension. */
  function StandardValue(hour: real, d: Dimension): real
  {
    match d
    case P =>
      if hour < 6.0 then 2.0
      else if hour < 12.0 then 2.0 + (hour - 6.0) * 1.3
      else if hour < 15.0 then 8.0
      else if hour < 18.0 then 9.0
      else 9.0 - (hour - 18.0) * 1.2
    case C =>
      if hour < 5.0 then 1.0
      else if hour < 11.0 then 9.0
      else if hour < 14.0 then 5.0
      else if hour < 17.0 then 8.0
      else 4.0
    case S =>
      if hour < 8.0 then 7.0
      else if hour < 20.0 then 3.0
      else 8.0
  }

  /** Cognitive and impulse take only their listed levels, and over a day every
      standard value lies in [1, 10]. */
  lemma StandardValueRange(hour: real)
    requires 0.0 <= hour < 24.0
    ensures StandardValue(hour, C) in {1.0, 9.0, 5.0, 8.0, 4.0}
    ensures StandardValue(hour, S) in {7.0, 3.0, 8.0}
    ensures forall d: Dimension :: 1.0 <= StandardValue(hour, d) <= 10.0
  {
    assert 1.0 <= StandardValue(hour, P) <= 10.0 by {
      if 6.0 <= hour < 12.0 {
        assert (hour - 6.0) * 1.3 < 6.0 * 1.3;
      } else if 18.0 <= hour {
        assert (hour - 18.0) * 1.2 < 6.0 * 1.2;
      }
    }
  }

  /** `Math.abs(l.timestamp - slotTime) < 15 * 60 * 1000`. */
  predicate Near(ts: int, slot: int)
  {
    (if ts - slot < 0 then slot - ts else ts - slot) < MatchMs
  }

  /** `todayLogs.find(...)`: the first log in input order near the slot. */
  function FirstNear(logs: seq<LogEntry>, slot: int): (r: Option<LogEntry>)
    ensures r.None? <==> forall i :: 0 <= i < |logs| ==> !Near(logs[i].timestamp, slot)
    ensures r.Some? ==> exists i :: 0 <= i < |logs| && logs[i] == r.value && Near(r.value.timestamp, slot)
                                    && forall j :: 0 <= j < i ==> !Near(logs[j].timestamp, slot)
  {
    if |logs| == 0 then None
    else if Near(logs[0].timestamp, slot) then Some(logs[0])
    else
      var r := FirstNear(logs[1..], slot);
      assert forall i :: 1 <= i < |logs| ==> logs[i] == logs[1..][i - 1];
      r
  }

  /** Two distinct slots are never both near one timestamp, so a log fills the
      readings of at most one slot; a log exactly 15 minutes from a slot fills none. */
  lemma NearAtMostOneSlot(midnight: int, ts: int, i: nat, j: nat)
    requires i < j < SlotCount
    ensures !(Near(ts, TimeSlots(midnight)[i]) && Near(ts, TimeSlots(midnight)[j]))
  {
    TimeSlotsIncreasing(midnight, i, j);
  }

  lemma FifteenMinutesMatchesNone(midnight: int, ts: int, i: nat)
    requires i < SlotCount
    requires ts == TimeSlots(midnight)[i] + MatchMs || ts == TimeSlots(midnight)[i] - MatchMs
    ensures forall j :: 0 <= j < SlotCount ==> !Near(ts, TimeSlots(midnight)[j])
  {
    var s := TimeSlots(midnight);
    forall j | 0 <= j < SlotCount ensures !Near(ts, s[j]) {
      assert ts - s[j] == (i - j) * SlotMs + (ts - s[i]);
    }
  }

  /** `getBaselineVal`: the standard value without history, else the curve entry of
      the hour (the standard value if there is none). */
  function BaselineVal(curve: seq<Biorhythm.DailyPattern>, h: int, std: real): real
  {
    if |curve| == 0 then std
    else match FindHour(curve, h)
      case Some(item) => item.value
      case None => std
  }

  /** `curve.find(i => i.hour === h)`. */
  function FindHour(curve: seq<Biorhythm.DailyPattern>, h: int): (r: Option<Biorhythm.DailyPattern>)
    ensures r.Some? ==> r.value in curve && r.value.hour == h
    ensures r.None? ==> forall i :: 0 <= i < |curve| ==> curve[i].hour != h
  {
    if |curve| == 0 then None
    else if curve[0].hour == h then Some(curve[0])
    else
      assert forall i :: 1 <= i < |curve| ==> curve[i] == curve[1..][i - 1];
      FindHour(curve[1..], h)
  }

  /** In the labelled curve, the entry of hour `h` is the curve value at `h`. */
  lemma {:induction false} FindHourPatterns(curve: seq<real>, h: nat)
    requires h < |curve|
    ensures FindHour(Biorhythm.Patterns(curve), h) == Some(Biorhythm.DailyPattern(h, curve[h]))
  {
    var ps := Biorhythm.Patterns(curve);
    FindHourFrom(ps, 0, h);
  }

  lemma {:induction false} FindHourFrom(ps: seq<Biorhythm.DailyPattern>, k: nat, h: nat)
    requires k <= h < |ps| + k
    requires forall i :: 0 <= i < |ps| ==> ps[i].hour == i + k
    ensures FindHour(ps, h) == Some(ps[h - k])
    decreases |ps|
  {
    if ps[0].hour != h {
      FindHourFrom(ps[1..], k + 1, h);
    }
  }

  /** The "HH:mm" text of slot `i`. */
  function TimeLabel(i: nat): (r: string)
    requires i < SlotCount
    ensures |r| == 5
  {
    var hour := i / 2;
    [NumberText.DigitChar(hour / 10), NumberText.DigitChar(hour % 10), ':']
      + (if i % 2 == 0 then "00" else "30")
  }

  /** The label reads back as the slot's hour and minute. */
  lemma TimeLabelReadsBack(i: nat)
    requires i < SlotCount
    ensures var r := TimeLabel(i);
            && r[2] == ':'
            && NumberText.DigitValue(r[0]) * 10 + NumberText.DigitValue(r[1]) == i / 2
            && NumberText.DigitValue(r[3]) * 10 + NumberText.DigitValue(r[4]) == (i % 2) * 30
  {
    NumberText.DigitRoundTrip((i / 2) / 10);
    NumberText.DigitRoundTrip((i / 2) % 10);
    NumberText.DigitRoundTrip(0);
    NumberText.DigitRoundTrip(3);
    assert NumberText.DigitChar(0) == '0' && NumberText.DigitChar(3) == '3';
  }

  datatype ChartPoint = ChartPoint(
    time: string,
    timestamp: int,
    pStandard: real, pBaseline: real, pActual: Option<real>,
    cStandard: real, cBaseline: real, cActual: Option<real>,
    sStandard: real, sBaseline: real, sActual: Option<real>)

  function ActualOf(log: Option<LogEntry>, d: Dimension): Option<real>
  {
    match log
    case Some(l) => Some(Component(l.values, d))
    case None => None
  }

  /** One slot of `processChartData`: slot `i` starts at local hour i/2 and minute
      (i % 2) * 30. */
  function ChartPointAt(i: nat, slot: int, todayLogs: seq<LogEntry>,
                        pCurve: seq<Biorhythm.DailyPattern>, cCurve: seq<Biorhythm.DailyPattern>,
                        sCurve: seq<Biorhythm.DailyPattern>): ChartPoint
    requires i < SlotCount
  {
    var hour := i / 2;
    var hourFloat := i as real / 2.0;
    var pStandard := StandardValue(hourFloat, P);
    var cStandard := StandardValue(hourFloat, C);
    var sStandard := StandardValue(hourFloat, S);
    var log := FirstNear(todayLogs, slot);
    ChartPoint(TimeLabel(i), slot,
      pStandard, BaselineVal(pCurve, hour, pStandard), ActualOf(log, P),
      cStandard, BaselineVal(cCurve, hour, cStandard), ActualOf(log, C),
      sStandard, BaselineVal(sCurve, hour, sStandard), ActualOf(log, S))
  }

  /** The baseline curve of one dimension, empty without history. */
  function CurveOf(historyLogs: seq<LogEntry>, d: Dimension, hourOf: int -> Hour): seq<Biorhythm.DailyPattern>
  {
    if |historyLogs| > 0 then Biorhythm.Patterns(Biorhythm.DynamicCurve(historyLogs, d, hourOf)) else []
  }

  /** `processChartData`: one point per slot, in slot order. */
  function ProcessChartData(todayLogs: seq<LogEntry>, historyLogs: seq<LogEntry>, midnight: int,
                            hourOf: int -> Hour): (r: seq<ChartPoint>)
    ensures |r| == SlotCount
    ensures forall i :: 0 <= i < SlotCount ==>
              r[i].timestamp == midnight + i * SlotMs && r[i].time == TimeLabel(i)
  {
    var slots := TimeSlots(midnight);
    var pCurve := CurveOf(historyLogs, P, hourOf);
    var cCurve := CurveOf(historyLogs, C, hourOf);
    var sCurve := CurveOf(historyLogs, S, hourOf);
    seq(SlotCount, i requires 0 <= i < SlotCount => ChartPointAt(i, slots[i], todayLogs, pCurve, cCurve, sCurve))
  }

  /** The standard values are the curve at the slot's fractional hour. */
  lemma ChartStandard(todayLogs: seq<LogEntry>, historyLogs: seq<LogEntry>, midnight: int,
                      hourOf: int -> Hour, i: nat)
    requires i < SlotCount
    ensures var pt := ProcessChartData(todayLogs, historyLogs, midnight, hourOf)[i];
            && pt.pStandard == StandardValue(i as real / 2.0, P)
            && pt.cStandard == StandardValue(i as real / 2.0, C)
            && pt.sStandard == StandardValue(i as real / 2.0, S)
            && 1.0 <= pt.pStandard <= 10.0 && 1.0 <= pt.cStandard <= 10.0 && 1.0 <= pt.sStandard <= 10.0
  {
    StandardValueRange(i as real / 2.0);
  }

  /** Without history every baseline is the standard value of its slot. */
  lemma ChartWithoutHistory(todayLogs: seq<LogEntry>, midnight: int, hourOf: int -> Hour, i: nat)
    requires i < SlotCount
    ensures var pt := ProcessChartData(todayLogs, [], midnight, hourOf)[i];
            pt.pBaseline == pt.pStandard && pt.cBaseline == pt.cStandard && pt.sBaseline == pt.sStandard
  {
  }

  /** With history every baseline is the dynamic curve at the slot's hour, so both
      half-hour slots of an hour share it. */
  lemma ChartWithHistory(todayLogs: seq<LogEntry>, historyLogs: seq<LogEntry>, midnight: int,
                         hourOf: int -> Hour, i: nat)
    requires |historyLogs| > 0 && i < SlotCount
    ensures var pt := ProcessChartData(todayLogs, historyLogs, midnight, hourOf)[i];
            && pt.pBaseline == Biorhythm.DynamicCurve(historyLogs, P, hourOf)[i / 2]
            && pt.cBaseline == Biorhythm.DynamicCurve(historyLogs, C, hourOf)[i / 2]
            && pt.sBaseline == Biorhythm.DynamicCurve(historyLogs, S, hourOf)[i / 2]
  {
    FindHourPatterns(Biorhythm.DynamicCurve(historyLogs, P, hourOf), i / 2);
    FindHourPatterns(Biorhythm.DynamicCurve(historyLogs, C, hourOf), i / 2);
    FindHourPatterns(Biorhythm.DynamicCurve(historyLogs, S, hourOf), i / 2);
  }

  lemma ChartHalfHoursShareBaseline(todayLogs: seq<LogEntry>, historyLogs: seq<LogEntry>, midnight: int,
                                    hourOf: int -> Hour, h: nat)
    requires |historyLogs| > 0 && h < 24
    ensures var r := ProcessChartData(todayLogs, historyLogs, midnight, hourOf);
            && r[2 * h].pBaseline == r[2 * h + 1].pBaseline
            && r[2 * h].cBaseline == r[2 * h + 1].cBaseline
            && r[2 * h].sBaseline == r[2 * h + 1].sBaseline
  {
    var i, j := 2 * h, 2 * h + 1;
    assert i / 2 == h && j / 2 == h;
    ChartWithHistory(todayLogs, historyLogs, midnight, hourOf, i);
    ChartWithHistory(todayLogs, historyLogs, midnight, hourOf, j);
    var r := ProcessChartData(todayLogs, historyLogs, midnight, hourOf);
    assert r[i].pBaseline == Biorhythm.DynamicCurve(historyLogs, P, hourOf)[h] == r[j].pBaseline;
    assert r[i].cBaseline == Biorhythm.DynamicCurve(historyLogs, C, hourOf)[h] == r[j].cBaseline;
    assert r[i].sBaseline == Biorhythm.DynamicCurve(historyLogs, S, hourOf)[h] == r[j].sBaseline;
  }

  /** The readings of a slot are all null when no log is near it, and otherwise all
      three come from the first near log in input order. */
  lemma ChartActuals(todayLogs: seq<LogEntry>, historyLogs: seq<LogEntry>, midnight: int,
                     hourOf: int -> Hour, i: nat)
    requires i < SlotCount
    ensures var pt := ProcessChartData(todayLogs, historyLogs, midnight, hourOf)[i];
            var slot := midnight + i * SlotMs;
            && ((forall k :: 0 <= k < |todayLogs| ==> !Near(todayLogs[k].timestamp, slot)) ==>
                  pt.pActual.None? && pt.cActual.None? && pt.sActual.None?)
            && ((exists k :: 0 <= k < |todayLogs| && Near(todayLogs[k].timestamp, slot)) ==>
                  exists k :: 0 <= k < |todayLogs|
                    && Near(todayLogs[k].timestamp, slot)
                    && (forall j :: 0 <= j < k ==> !Near(todayLogs[j].timestamp, slot))
                    && pt.pActual == Some(todayLogs[k].values.p)
                    && pt.cActual == Some(todayLogs[k].values.c)
                    && pt.sActual == Some(todayLogs[k].values.s))
  {
    var slot := midnight + i * SlotMs;
    var log := FirstNear(todayLogs, slot);
    assert ProcessChartData(todayLogs, historyLogs, midnight, hourOf)[i].pActual == ActualOf(log, P);
  }
}
