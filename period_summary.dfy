/** Week and month views of the calendar: the logs of a half-open time window in
    ascending time order, with the window echoed back and a period title. The
    locale month name and the day of month are inputs. */
module PeriodSummary {
  import opened Trinity
  import opened Sorting
  import NumberText

  datatype PeriodData = PeriodData(period: string, startDate: int, endDate: int, logs: seq<LogEntry>)

  /** A day of the month, as `Date.getDate` returns it. */
  type DayOfMonth = d: int | 1 <= d <= 31 witness 1

  function TimestampKey(l: LogEntry): real
  {
    l.timestamp as real
  }

  function InWindow(start: int, end: int): LogEntry -> bool
  {
    (l: LogEntry) => l.timestamp >= start && l.timestamp < end
  }

  /** `allLogs.filter(start <= ts < end).sort(by timestamp)`. */
  function WindowLogs(allLogs: seq<LogEntry>, start: int, end: int): seq<LogEntry>
  {
    SortBy(Filter(allLogs, InWindow(start, end)), TimestampKey)
  }

  /** The window's logs are exactly the logs with start <= ts < end, each as often
      as in the input, in ascending time order, logs with equal timestamps keeping
      their input order. */
  lemma WindowLogsSpec(allLogs: seq<LogEntry>, start: int, end: int)
    ensures var r := WindowLogs(allLogs, start, end);
            && (forall i, j :: 0 <= i < j < |r| ==> r[i].timestamp <= r[j].timestamp)
            && (forall l :: multiset(r)[l] == if start <= l.timestamp < end then multiset(allLogs)[l] else 0)
            && (forall l :: l in r <==> l in allLogs && start <= l.timestamp < end)
            && (forall k: real :: WithKey(r, TimestampKey, k)
                                  == WithKey(Filter(allLogs, InWindow(start, end)), TimestampKey, k))
  {
    var kept := Filter(allLogs, InWindow(start, end));
    var r := WindowLogs(allLogs, start, end);
    FilterMultiset(allLogs, InWindow(start, end));
    forall i, j | 0 <= i < j < |r| ensures r[i].timestamp <= r[j].timestamp {
      assert TimestampKey(r[i]) <= TimestampKey(r[j]);
    }
    forall l ensures l in r <==> l in allLogs && start <= l.timestamp < end {
      assert l in r <==> multiset(r)[l] > 0;
      assert l in allLogs <==> multiset(allLogs)[l] > 0;
    }
    forall k: real ensures WithKey(r, TimestampKey, k) == WithKey(kept, TimestampKey, k) {
      SortByStable(kept, TimestampKey, k);
    }
  }

  /** Two adjacent windows hold together exactly the logs of their union. */
  lemma WindowsSplit(allLogs: seq<LogEntry>, a: int, b: int, c: int)
    requires a <= b <= c
    ensures multiset(WindowLogs(allLogs, a, c))
         == multiset(WindowLogs(allLogs, a, b)) + multiset(WindowLogs(allLogs, b, c))
  {
    var whole := Filter(allLogs, InWindow(a, c));
    var first := Filter(allLogs, InWindow(a, b));
    var second := Filter(allLogs, InWindow(b, c));
    FilterMultiset(allLogs, InWindow(a, c));
    FilterMultiset(allLogs, InWindow(a, b));
    FilterMultiset(allLogs, InWindow(b, c));
    forall l ensures multiset(whole)[l] == multiset(first)[l] + multiset(second)[l] {
    }
    assert multiset(whole) == multiset(first) + multiset(second);
  }

  /** `Math.ceil(day / 7)`: the week of the month a day falls in. */
  function WeekNum(day: DayOfMonth): (r: int)
    ensures 1 <= r <= 5
    ensures 7 * (r - 1) < day <= 7 * r
  {
    (day + 6) / 7
  }

  /** "<month name> 第<n>周". */
  function WeekTitle(monthName: string, weekNum: int): string
  {
    monthName + " 第" + NumberText.DecimalString(weekNum) + "周"
  }

  /** `getWeekData`: the week's logs, its title, and the bounds echoed back. */
  function GetWeekData(allLogs: seq<LogEntry>, weekStart: int, weekEnd: int,
                       dayOfMonth: int -> DayOfMonth, monthName: string): (r: PeriodData)
    ensures r.startDate == weekStart && r.endDate == weekEnd
    ensures r.logs == WindowLogs(allLogs, weekStart, weekEnd)
    ensures r.period == WeekTitle(monthName, WeekNum(dayOfMonth(weekStart)))
  {
    var weekLogs := WindowLogs(allLogs, weekStart, weekEnd);
    var weekNum := WeekNum(dayOfMonth(weekStart));
    PeriodData(WeekTitle(monthName, weekNum), weekStart, weekEnd, weekLogs)
  }

  /** `getMonthData`: the month's logs under the month name, the bounds echoed back. */
  function GetMonthData(allLogs: seq<LogEntry>, monthStart: int, monthEnd: int, monthName: string): (r: PeriodData)
    ensures r.startDate == monthStart && r.endDate == monthEnd
    ensures r.logs == WindowLogs(allLogs, monthStart, monthEnd)
    ensures r.period == monthName
  {
    PeriodData(monthName, monthStart, monthEnd, WindowLogs(allLogs, monthStart, monthEnd))
  }

  /** The title reads back as the week number. */
  lemma WeekTitleReadsBack(monthName: string, day: DayOfMonth)
    ensures var t := WeekTitle(monthName, WeekNum(day));
            && |t| == |monthName| + 4
            && t[..|monthName|] == monthName
            && NumberText.DigitValue(t[|monthName| + 2]) == WeekNum(day)
  {
    var n := WeekNum(day);
    assert NumberText.DecimalString(n) == NumberText.Digits(n);
    assert NumberText.Digits(n) == [NumberText.DigitChar(n)];
    NumberText.DigitRoundTrip(n);
  }
}
