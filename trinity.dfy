/** The recorded state: a Trinity value (Physical, Cognitive, Impulse) per log entry.
    Clock and calendar facts (local hour of day, day of week) are not computed from
    timestamps here; they are inputs of the operations that need them. */
module Trinity {
  import opened Wrappers

  datatype TrinityValue = TrinityValue(p: real, c: real, s: real)

  /** The key of one dimension (`keyof TrinityValue`). */
  datatype Dimension = P | C | S

  datatype Trend = Up | Flat | Down

  datatype LogEntry = LogEntry(
    id: string,
    timestamp: int,         // epoch milliseconds
    values: TrinityValue,
    tags: seq<string>,
    trend: Trend,
    note: Option<string>)

  /** A local hour of day, as `Date.getHours` returns it. */
  type Hour = h: int | 0 <= h < 24

  /** A day of week, as `Date.getDay` returns it (0 is Sunday). */
  type Weekday = d: int | 0 <= d < 7

  const MinuteMs: int := 60 * 1000
  const HourMs: int := 60 * MinuteMs
  const DayMs: int := 24 * HourMs

  function Component(v: TrinityValue, d: Dimension): real
  {
    match d
    case P => v.p
    case C => v.c
    case S => v.s
  }

  /** `logs.map(l => l.values[d])`. */
  function Values(logs: seq<LogEntry>, d: Dimension): (r: seq<real>)
    ensures |r| == |logs|
    ensures forall i :: 0 <= i < |logs| ==> r[i] == Component(logs[i].values, d)
  {
    seq(|logs|, i requires 0 <= i < |logs| => Component(logs[i].values, d))
  }

  /** Every reading of every log lies in [lo, hi]. */
  ghost predicate ValuesIn(logs: seq<LogEntry>, lo: real, hi: real)
  {
    forall i :: 0 <= i < |logs| ==>
      lo <= logs[i].values.p <= hi && lo <= logs[i].values.c <= hi && lo <= logs[i].values.s <= hi
  }

  /** `logs.filter(keep)`: the logs that pass, in input order. */
  function Filter(logs: seq<LogEntry>, keep: LogEntry -> bool): (r: seq<LogEntry>)
    ensures |r| <= |logs|
    ensures forall i :: 0 <= i < |r| ==> keep(r[i])
  {
    if |logs| == 0 then []
    else
      var last := logs[|logs| - 1];
      Filter(logs[..|logs| - 1], keep) + (if keep(last) then [last] else [])
  }

  /** Filtering keeps each passing log as often as the input holds it, and drops
      every other log. */
  lemma {:induction false} FilterMultiset(logs: seq<LogEntry>, keep: LogEntry -> bool)
    ensures forall l :: multiset(Filter(logs, keep))[l] == if keep(l) then multiset(logs)[l] else 0
  {
    if |logs| > 0 {
      var last := logs[|logs| - 1];
      FilterMultiset(logs[..|logs| - 1], keep);
      assert logs == logs[..|logs| - 1] + [last];
    }
  }

  lemma FilterMembers(logs: seq<LogEntry>, keep: LogEntry -> bool)
    ensures forall l :: l in Filter(logs, keep) <==> l in logs && keep(l)
  {
    FilterMultiset(logs, keep);
    forall l ensures l in Filter(logs, keep) <==> l in logs && keep(l) {
      assert l in Filter(logs, keep) <==> multiset(Filter(logs, keep))[l] > 0;
      assert l in logs <==> multiset(logs)[l] > 0;
    }
  }
}
