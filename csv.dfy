/** The CSV file of the log history. The exporter writes a header line and one line
    per log; `parseCSV` splits the text into non-blank lines, checks the header,
    splits each row with a quote-aware scanner, drops rows it cannot read, promotes
    second timestamps to milliseconds and reads non-numeric values as 0. */
module Csv {
  import opened Wrappers
  import opened Trinity
  import opened NumberText

  // ---------------------------------------------------------------------------
  // String.split, Array.join, Array.filter on strings
  // ---------------------------------------------------------------------------

  /** `s.split(sep)` for a one-character separator. */
  function Split(s: string, sep: char): (r: seq<string>)
    ensures |r| >= 1
    ensures forall i :: 0 <= i < |r| ==> sep !in r[i]
  {
    if |s| == 0 then [""]
    else
      var rest := Split(s[1..], sep);
      if s[0] == sep then [""] + rest
      else [[s[0]] + rest[0]] + rest[1..]
  }

  /** `parts.join(sep)`. */
  function Join(parts: seq<string>, sep: char): string
  {
    if |parts| == 0 then ""
    else if |parts| == 1 then parts[0]
    else parts[0] + [sep] + Join(parts[1..], sep)
  }

  /** Joining the pieces of a split gives back the text. */
  lemma {:induction false} JoinSplit(s: string, sep: char)
    ensures Join(Split(s, sep), sep) == s
  {
    if |s| > 0 {
      var rest := Split(s[1..], sep);
      JoinSplit(s[1..], sep);
      if s[0] == sep {
        assert Split(s, sep)[1..] == rest;
      } else if |rest| == 1 {
        assert Join(rest, sep) == rest[0];
      } else {
        var r := Split(s, sep);
        assert r[1..] == rest[1..];
        assert Join(rest, sep) == rest[0] + [sep] + Join(rest[1..], sep);
      }
    }
  }

  /** A piece free of the separator splits to itself. */
  lemma {:induction false} SplitFree(x: string, sep: char)
    requires sep !in x
    ensures Split(x, sep) == [x]
  {
    if |x| > 0 {
      assert sep !in x[1..];
      SplitFree(x[1..], sep);
      assert [x[0]] + x[1..] == x;
    }
  }

  /** A piece free of the separator, then the separator, splits off first. */
  lemma {:induction false} SplitAtSeparator(x: string, sep: char, t: string)
    requires sep !in x
    ensures Split(x + [sep] + t, sep) == [x] + Split(t, sep)
  {
    if |x| == 0 {
      assert x + [sep] + t == [sep] + t;
      assert ([sep] + t)[1..] == t;
    } else {
      assert (x + [sep] + t)[1..] == x[1..] + [sep] + t;
      assert sep !in x[1..];
      SplitAtSeparator(x[1..], sep, t);
      assert [x[0]] + x[1..] == x;
    }
  }

  /** Splitting a join of separator-free pieces gives back the pieces. */
  lemma {:induction false} SplitJoin(parts: seq<string>, sep: char)
    requires |parts| >= 1
    requires forall i :: 0 <= i < |parts| ==> sep !in parts[i]
    ensures Split(Join(parts, sep), sep) == parts
  {
    if |parts| == 1 {
      SplitFree(parts[0], sep);
    } else {
      SplitJoin(parts[1..], sep);
      SplitAtSeparator(parts[0], sep, Join(parts[1..], sep));
      assert [parts[0]] + parts[1..] == parts;
    }
  }

  /** A character other than the separator occurs in a join only inside a piece. */
  lemma {:induction false} JoinFree(parts: seq<string>, sep: char, c: char)
    requires c != sep
    requires forall i :: 0 <= i < |parts| ==> c !in parts[i]
    ensures c !in Join(parts, sep)
  {
    if |parts| > 1 {
      JoinFree(parts[1..], sep, c);
    }
  }

  /** A join of two or more pieces contains the separator. */
  lemma JoinHasSeparator(parts: seq<string>, sep: char)
    requires |parts| >= 2
    ensures sep in Join(parts, sep)
  {
    assert Join(parts, sep)[|parts[0]|] == sep;
  }

  /** A join of non-empty pieces starts with the first piece's first character and
      ends with the last piece's last character. */
  lemma {:induction false} JoinEnds(parts: seq<string>, sep: char)
    requires |parts| >= 1
    requires forall i :: 0 <= i < |parts| ==> |parts[i]| > 0
    ensures var j := Join(parts, sep);
            |j| > 0 && j[0] == parts[0][0] && j[|j| - 1] == parts[|parts| - 1][|parts[|parts| - 1]| - 1]
  {
    if |parts| > 1 {
      JoinEnds(parts[1..], sep);
    }
  }

  /** `ss.filter(keep)`. */
  function Keep(ss: seq<string>, keep: string -> bool): (r: seq<string>)
    ensures |r| <= |ss|
    ensures forall i :: 0 <= i < |r| ==> keep(r[i])
  {
    if |ss| == 0 then []
    else (if keep(ss[0]) then [ss[0]] else []) + Keep(ss[1..], keep)
  }

  /** The kept strings are those of the input that pass. */
  lemma {:induction false} KeepMembers(ss: seq<string>, keep: string -> bool)
    ensures forall x :: x in Keep(ss, keep) <==> x in ss && keep(x)
  {
    if |ss| > 0 {
      KeepMembers(ss[1..], keep);
      assert ss == [ss[0]] + ss[1..];
    }
  }

  /** When everything passes, nothing is dropped. */
  lemma {:induction false} KeepAll(ss: seq<string>, keep: string -> bool)
    requires forall i :: 0 <= i < |ss| ==> keep(ss[i])
    ensures Keep(ss, keep) == ss
  {
    if |ss| > 0 {
      KeepAll(ss[1..], keep);
    }
  }

  // ---------------------------------------------------------------------------
  // Facts about `trim`
  // ---------------------------------------------------------------------------

  /** A string that neither starts nor ends with white space is its own trim. */
  lemma TrimOfTrimmed(s: string)
    requires |s| > 0 ==> !IsSpace(s[0]) && !IsSpace(s[|s| - 1])
    ensures Trim(s) == s
  {
  }

  /** A trimmed string neither starts nor ends with white space. */
  lemma TrimmedEnds(s: string)
    requires Trim(s) == s && |s| > 0
    ensures !IsSpace(s[0]) && !IsSpace(s[|s| - 1])
  {
    var t := TrimStart(s);
    assert s == t[..|s|];
  }

  /** A string holding a non-space character does not trim to empty. */
  lemma TrimNotEmpty(s: string, i: int)
    requires 0 <= i < |s| && !IsSpace(s[i])
    ensures Trim(s) != ""
  {
    var t := TrimStart(s);
    assert i >= |s| - |t|;
    assert t[i - (|s| - |t|)] == s[i];
  }

  // ---------------------------------------------------------------------------
  // parseLine
  // ---------------------------------------------------------------------------

  /** The state of the line scanner: the fields pushed so far, the field being
      read, and whether the scanner is inside quotes. */
  datatype Scanner = Scanner(result: seq<string>, current: string, inQuote: bool)

  const Start := Scanner([], "", false)

  /** One character: a quote toggles the quote state and is dropped, a comma
      outside quotes ends the field, anything else is appended. */
  function Step(st: Scanner, ch: char): Scanner
  {
    if ch == '"' then st.(inQuote := !st.inQuote)
    else if ch == ',' && !st.inQuote then Scanner(st.result + [st.current], "", st.inQuote)
    else st.(current := st.current + [ch])
  }

  function Run(st: Scanner, s: string): Scanner
    decreases |s|
  {
    if |s| == 0 then st else Step(Run(st, s[..|s| - 1]), s[|s| - 1])
  }

  /** The fields `parseLine` returns: those pushed, then the last one. */
  function SplitFields(line: string): (r: seq<string>)
    ensures |r| >= 1
  {
    var st := Run(Start, line);
    st.result + [st.current]
  }

  /** `parseLine`: a character loop over the line. */
  method ParseLine(line: string) returns (fields: seq<string>)
    ensures fields == SplitFields(line)
  {
    var result: seq<string> := [];
    var current := "";
    var inQuote := false;
    for i := 0 to |line|
      invariant Scanner(result, current, inQuote) == Run(Start, line[..i])
    {
      var ch := line[i];
      if ch == '"' {
        inQuote := !inQuote;
      } else if ch == ',' && !inQuote {
        result := result + [current];
        current := "";
      } else {
        current := current + [ch];
      }
      assert line[..i + 1][..i] == line[..i];
    }
    assert line[..|line|] == line;
    fields := result + [current];
  }

  /** The number of quote characters in `s`. */
  function QuoteCount(s: string): nat
  {
    if |s| == 0 then 0 else QuoteCount(s[..|s| - 1]) + (if s[|s| - 1] == '"' then 1 else 0)
  }

  /** Position i of `s` is a separator: a comma preceded by an even number of quotes. */
  predicate IsSeparator(s: string, i: int)
    requires 0 <= i < |s|
  {
    s[i] == ',' && QuoteCount(s[..i]) % 2 == 0
  }

  /** The number of separating commas in `s`. */
  function SeparatorCount(s: string): nat
  {
    if |s| == 0 then 0
    else SeparatorCount(s[..|s| - 1]) + (if IsSeparator(s, |s| - 1) then 1 else 0)
  }

  /** `s` without its quotes and its separating commas. */
  function Stripped(s: string): string
  {
    if |s| == 0 then ""
    else Stripped(s[..|s| - 1])
         + (if s[|s| - 1] == '"' || IsSeparator(s, |s| - 1) then "" else [s[|s| - 1]])
  }

  /** Concatenation of strings. */
  function Concat(ss: seq<string>): string
  {
    if |ss| == 0 then "" else Concat(ss[..|ss| - 1]) + ss[|ss| - 1]
  }

  /** What the scanner knows after reading `s`: its quote state is the parity of
      the quotes read, it has pushed one field per separator, no field holds a
      quote, and its fields spell out `s` without quotes and separators. */
  lemma {:induction false} RunFacts(s: string)
    ensures var st := Run(Start, s);
            && st.inQuote == (QuoteCount(s) % 2 == 1)
            && |st.result| == SeparatorCount(s)
            && (forall k :: 0 <= k < |st.result| ==> '"' !in st.result[k])
            && '"' !in st.current
            && Concat(st.result) + st.current == Stripped(s)
    decreases |s|
  {
    if |s| > 0 {
      var init := s[..|s| - 1];
      RunFacts(init);
      var st := Run(Start, init);
      assert s[..|s| - 1] == init;
      if s[|s| - 1] == ',' && !st.inQuote {
        var pushed := st.result + [st.current];
        assert pushed[..|st.result|] == st.result;
        assert Concat(pushed) == Concat(st.result) + st.current;
      }
    }
  }

  /** `parseLine` returns one field more than there are commas outside quotes. */
  lemma SplitFieldsCount(line: string)
    ensures |SplitFields(line)| == 1 + SeparatorCount(line)
  {
    RunFacts(line);
  }

  /** No field holds a quote character. */
  lemma SplitFieldsNoQuotes(line: string)
    ensures forall k :: 0 <= k < |SplitFields(line)| ==> '"' !in SplitFields(line)[k]
  {
    RunFacts(line);
  }

  /** The fields, concatenated, are the line without its quotes and its separating
      commas: commas inside quotes and every other character are kept in order. */
  lemma SplitFieldsConcat(line: string)
    ensures Concat(SplitFields(line)) == Stripped(line)
  {
    RunFacts(line);
    var st := Run(Start, line);
    assert SplitFields(line)[..|st.result|] == st.result;
  }

  // ---------------------------------------------------------------------------
  // Scanning cells written by the exporter
  // ---------------------------------------------------------------------------

  /** No comma, quote or line break. */
  predicate Plain(x: string)
  {
    ',' !in x && '"' !in x && '\n' !in x
  }

  /** `"${x}"`. */
  function Quoted(x: string): string
  {
    "\"" + x + "\""
  }

  /** A written cell `raw` holding the text `content`: the plain text itself, or
      quoted text free of quotes (commas allowed). */
  predicate Encodes(raw: string, content: string)
  {
    '"' !in content && (raw == Quoted(content) || (raw == content && ',' !in content))
  }

  lemma RunSnoc(st: Scanner, s: string, ch: char)
    ensures Run(st, s + [ch]) == Step(Run(st, s), ch)
  {
    assert (s + [ch])[..|s|] == s;
  }

  lemma {:induction false} RunConcat(st: Scanner, a: string, b: string)
    ensures Run(st, a + b) == Run(Run(st, a), b)
    decreases |b|
  {
    if |b| == 0 {
      assert a + b == a;
    } else {
      assert (a + b)[..|a + b| - 1] == a + b[..|b| - 1];
      RunConcat(st, a, b[..|b| - 1]);
    }
  }

  /** Text free of quotes, read inside quotes or free also of commas, is appended
      to the current field. */
  lemma {:induction false} RunAppends(st: Scanner, x: string)
    requires '"' !in x && (st.inQuote || ',' !in x)
    ensures Run(st, x) == st.(current := st.current + x)
    decreases |x|
  {
    if |x| > 0 {
      var init := x[..|x| - 1];
      assert '"' !in init && ',' !in x ==> ',' !in init;
      RunAppends(st, init);
      assert init + [x[|x| - 1]] == x;
    } else {
      assert st.current + x == st.current;
    }
  }

  /** Outside quotes, a written cell adds its content to the current field and
      leaves the scanner outside quotes. */
  lemma RunCell(st: Scanner, raw: string, content: string)
    requires !st.inQuote && Encodes(raw, content)
    ensures Run(st, raw) == st.(current := st.current + content)
  {
    if raw == Quoted(content) {
      var open := st.(inQuote := true);
      assert Run(st, "\"") == Step(Run(st, ""), '"');
      RunConcat(st, "\"", content);
      RunAppends(open, content);
      RunConcat(st, "\"" + content, "\"");
      var inside := open.(current := st.current + content);
      assert Run(inside, "\"") == Step(Run(inside, ""), '"');
    } else {
      RunAppends(st, raw);
    }
  }

  /** A written cell and the comma after it push the cell's content as a field. */
  lemma RunSeparator(st: Scanner, raw: string, content: string)
    requires !st.inQuote && st.current == "" && Encodes(raw, content)
    ensures Run(st, raw + [',']) == Scanner(st.result + [content], "", false)
  {
    RunCell(st, raw, content);
    RunSnoc(st, raw, ',');
    assert "" + content == content;
  }

  /** Scanning a comma-joined row of written cells yields their contents. */
  lemma {:induction false} RunCells(result: seq<string>, raws: seq<string>, contents: seq<string>)
    requires |raws| == |contents| >= 1
    requires forall i :: 0 <= i < |raws| ==> Encodes(raws[i], contents[i])
    ensures Run(Scanner(result, "", false), Join(raws, ','))
         == Scanner(result + contents[..|contents| - 1], contents[|contents| - 1], false)
    decreases |raws|
  {
    var st := Scanner(result, "", false);
    if |raws| == 1 {
      RunCell(st, raws[0], contents[0]);
      assert "" + contents[0] == contents[0];
      assert contents[..0] == [];
      assert result + [] == result;
    } else {
      RunSeparator(st, raws[0], contents[0]);
      var rest := Join(raws[1..], ',');
      assert Join(raws, ',') == raws[0] + [','] + rest;
      RunConcat(st, raws[0] + [','], rest);
      assert forall i :: 0 <= i < |raws| - 1 ==> Encodes(raws[1..][i], contents[1..][i]);
      RunCells(result + [contents[0]], raws[1..], contents[1..]);
      assert result + [contents[0]] + contents[1..][..|contents| - 2] == result + contents[..|contents| - 1];
    }
  }

  /** `parseLine` reads back a row of written cells. */
  lemma SplitFieldsOfCells(raws: seq<string>, contents: seq<string>)
    requires |raws| == |contents| >= 1
    requires forall i :: 0 <= i < |raws| ==> Encodes(raws[i], contents[i])
    ensures SplitFields(Join(raws, ',')) == contents
  {
    RunCells([], raws, contents);
    assert [] + contents[..|contents| - 1] == contents[..|contents| - 1];
  }

  // ---------------------------------------------------------------------------
  // clean, safeFloat, the seconds promotion
  // ---------------------------------------------------------------------------

  /** `val.replace(/^"|"$/g, '')`: one leading and one trailing quote removed. */
  function StripOuterQuotes(v: string): (r: string)
    ensures |r| <= |v|
  {
    var a := if |v| > 0 && v[0] == '"' then v[1..] else v;
    if |a| > 0 && a[|a| - 1] == '"' then a[..|a| - 1] else a
  }

  /** `.replace(/""/g, '"')`: each doubled quote, left to right, becomes one. */
  function UnescapeQuotes(s: string): (r: string)
    ensures |r| <= |s|
  {
    if |s| < 2 then s
    else if s[0] == '"' && s[1] == '"' then "\"" + UnescapeQuotes(s[2..])
    else [s[0]] + UnescapeQuotes(s[1..])
  }

  lemma {:induction false} UnescapeNoQuotes(s: string)
    requires '"' !in s
    ensures UnescapeQuotes(s) == s
  {
    if |s| >= 2 {
      UnescapeNoQuotes(s[1..]);
    }
  }

  /** `clean`: the empty (or missing) value is ""; otherwise the outer quotes are
      removed, doubled quotes undone, and white space trimmed. */
  function Clean(v: string): (r: string)
    ensures |r| > 0 ==> !IsSpace(r[0]) && !IsSpace(r[|r| - 1])
  {
    if v == "" then ""
    else
      var t := UnescapeQuotes(StripOuterQuotes(v));
      var r := Trim(t);
      assert |r| > 0 ==> r[0] == TrimStart(t)[0];
      r
  }

  /** A value without quotes is only trimmed. */
  lemma CleanUnquoted(v: string)
    requires '"' !in v
    ensures Clean(v) == Trim(v)
  {
    if v != "" {
      UnescapeNoQuotes(v);
    }
  }

  /** `safeFloat`: `parseFloat`, with NaN read as 0. */
  function SafeFloat(v: string): (r: real)
    ensures ParseFloat(v).Some? ==> r == ParseFloat(v).value
    ensures ParseFloat(v).None? ==> r == 0.0
  {
    ParseFloat(v).GetOr(0.0)
  }

  const SecondsLimit: int := 1000000000000

  /** A timestamp below 10^12 is taken for seconds and multiplied by 1000. */
  function Promote(t: int): (r: int)
    ensures t < SecondsLimit ==> r == 1000 * t
    ensures t >= SecondsLimit ==> r == t
  {
    if t < SecondsLimit then t * 1000 else t
  }

  /** Timestamps in seconds from 10^9 on land on milliseconds at or past 10^12, so
      promoting twice is promoting once. */
  lemma PromoteIdempotent(t: int)
    requires t >= 1000000000
    ensures Promote(t) >= SecondsLimit
    ensures Promote(Promote(t)) == Promote(t)
  {
  }

  // ---------------------------------------------------------------------------
  // Rows and the whole file
  // ---------------------------------------------------------------------------

  /** A log as `parseCSV` returns it; the trend is the cleaned text, unchecked. */
  datatype Imported = Imported(timestamp: int, values: TrinityValue, tags: seq<string>, trend: string, note: string)

  /** `cols[i]`, with a missing column read as the empty value. */
  function Column(cols: seq<string>, i: nat): string
  {
    if i < |cols| then cols[i] else ""
  }

  function NonEmpty(t: string): bool
  {
    t != ""
  }

  /** `clean(val).split(',').filter(t => t)`. */
  function TagsOf(v: string): (r: seq<string>)
    ensures forall i :: 0 <= i < |r| ==> r[i] != "" && ',' !in r[i]
  {
    var pieces := Split(Clean(v), ',');
    var r := Keep(pieces, NonEmpty);
    KeepMembers(pieces, NonEmpty);
    assert forall i :: 0 <= i < |r| ==> r[i] in pieces;
    r
  }

  /** The per-row map of `parseCSV`: rows of fewer than 7 columns and rows whose
      column 1 is not an integer are dropped (None). */
  function ParseRow(cols: seq<string>): (r: Option<Imported>)
    ensures r.Some? <==> |cols| >= 7 && ParseInt(cols[1]).Some?
    ensures r.Some? ==> r.value.timestamp == Promote(ParseInt(cols[1]).value)
    ensures r.Some? ==> r.value.values == TrinityValue(SafeFloat(cols[4]), SafeFloat(cols[5]), SafeFloat(cols[6]))
  {
    if |cols| < 7 then None
    else
      match ParseInt(cols[1])
      case None => None
      case Some(t) =>
        Some(Imported(Promote(t),
                      TrinityValue(SafeFloat(cols[4]), SafeFloat(cols[5]), SafeFloat(cols[6])),
                      TagsOf(Column(cols, 7)),
                      Clean(Column(cols, 8)),
                      Clean(Column(cols, 9))))
  }

  /** `xs.map(parse).filter(r => r !== null)`: the parsed results, in order, of the
      elements that parse. */
  function KeepParsed<A, B>(xs: seq<A>, parse: A -> Option<B>): (r: seq<B>)
    ensures |r| <= |xs|
  {
    if |xs| == 0 then []
    else
      var init := KeepParsed(xs[..|xs| - 1], parse);
      match parse(xs[|xs| - 1])
      case None => init
      case Some(e) => init + [e]
  }

  /** The row a data line imports as, if any. */
  function RowOfLine(line: string): Option<Imported>
  {
    ParseRow(SplitFields(line))
  }

  /** The rows after the header, parsed, the dropped ones filtered out. */
  function ParseRows(lines: seq<string>): (r: seq<Imported>)
    ensures |r| <= |lines|
  {
    KeepParsed(lines, RowOfLine)
  }

  function NonBlank(l: string): bool
  {
    Trim(l) != ""
  }

  /** `csvText.split('\n').filter(l => l.trim())`. */
  function Lines(text: string): seq<string>
  {
    Keep(Split(text, '\n'), NonBlank)
  }

  const InvalidFormat := "Invalid CSV format"

  /** `parseCSV`: no rows below two non-blank lines; an error when the header's
      comma-split fields include no `Timestamp` or no `P`; else the parsed rows. */
  function ParseCsv(text: string): (r: Result<seq<Imported>, string>)
    ensures |Lines(text)| < 2 ==> r == Ok([])
    ensures r.Err? <==> (|Lines(text)| >= 2
                         && ("Timestamp" !in Split(Lines(text)[0], ',') || "P" !in Split(Lines(text)[0], ',')))
    ensures r.Err? ==> r.error == InvalidFormat
    ensures r.Ok? && |r.value| > 0 ==> |r.value| < |Lines(text)|
    ensures r.Ok? && |Lines(text)| >= 2 ==> r.value == ParseRows(Lines(text)[1..])
  {
    var lines := Lines(text);
    if |lines| < 2 then Ok([])
    else
      var headers := Split(lines[0], ',');
      if "Timestamp" !in headers || "P" !in headers then Err(InvalidFormat)
      else Ok(ParseRows(lines[1..]))
  }

  // ---------------------------------------------------------------------------
  // The exporter's layout
  // ---------------------------------------------------------------------------

  const Headers: seq<string> := ["ID", "Timestamp", "Date", "Time", "P", "C", "S", "Tags", "Trend", "Note"]

  function TrendText(t: Trend): string
  {
    match t
    case Up => "up"
    case Flat => "flat"
    case Down => "down"
  }

  /** The cells of one exported row. The date and time columns (`yyyy-MM-dd`,
      `HH:mm:ss`) and the text of a number are inputs. */
  function ExportCells(log: LogEntry, dateOf: int -> string, timeOf: int -> string,
                       numberText: real -> string): (r: seq<string>)
    ensures |r| == |Headers|
  {
    [log.id, DecimalString(log.timestamp), dateOf(log.timestamp), timeOf(log.timestamp),
     numberText(log.values.p), numberText(log.values.c), numberText(log.values.s),
     Quoted(Join(log.tags, ',')), TrendText(log.trend), Quoted(log.note.GetOr(""))]
  }

  function ExportRow(log: LogEntry, dateOf: int -> string, timeOf: int -> string,
                     numberText: real -> string): string
  {
    Join(ExportCells(log, dateOf, timeOf, numberText), ',')
  }

  function ExportRows(logs: seq<LogEntry>, dateOf: int -> string, timeOf: int -> string,
                      numberText: real -> string): (r: seq<string>)
    ensures |r| == |logs|
    ensures forall i :: 0 <= i < |logs| ==> r[i] == ExportRow(logs[i], dateOf, timeOf, numberText)
  {
    if |logs| == 0 then []
    else ExportRows(logs[..|logs| - 1], dateOf, timeOf, numberText)
         + [ExportRow(logs[|logs| - 1], dateOf, timeOf, numberText)]
  }

  /** The exported text: the header line, then one line per log. */
  function ExportCsv(logs: seq<LogEntry>, dateOf: int -> string, timeOf: int -> string,
                     numberText: real -> string): string
  {
    Join([Join(Headers, ',')] + ExportRows(logs, dateOf, timeOf, numberText), '\n')
  }

  /** What an import of the exported row of `log` should give. */
  function Expected(log: LogEntry): Imported
  {
    Imported(log.timestamp, log.values, log.tags, TrendText(log.trend), log.note.GetOr(""))
  }

  /** What an import of the exported rows of `logs` should give, log by log. */
  function ExpectedAll(logs: seq<LogEntry>): (r: seq<Imported>)
    ensures |r| == |logs|
    ensures forall i :: 0 <= i < |logs| ==> r[i] == Expected(logs[i])
  {
    if |logs| == 0 then [] else ExpectedAll(logs[..|logs| - 1]) + [Expected(logs[|logs| - 1])]
  }

  /** A tag that survives the round trip: non-empty, no comma, quote or line break,
      no surrounding white space. */
  predicate PlainTag(t: string)
  {
    t != "" && Plain(t) && Trim(t) == t
  }

  /** The cells of a log that the exporter writes without damage: its timestamp
      is in milliseconds, its id, date, time and number texts are plain, its tags
      are plain tags, and its note has no quote, no line break and no surrounding
      white space. */
  predicate CellsPlain(log: LogEntry, dateOf: int -> string, timeOf: int -> string,
                       numberText: real -> string)
  {
    && log.timestamp >= SecondsLimit
    && Plain(log.id) && Plain(dateOf(log.timestamp)) && Plain(timeOf(log.timestamp))
    && Plain(numberText(log.values.p)) && Plain(numberText(log.values.c)) && Plain(numberText(log.values.s))
    && (forall i :: 0 <= i < |log.tags| ==> PlainTag(log.tags[i]))
    && '"' !in log.note.GetOr("") && '\n' !in log.note.GetOr("")
    && Trim(log.note.GetOr("")) == log.note.GetOr("")
  }

  /** Each number text of the log reads back as the number. */
  predicate NumbersReadBack(v: TrinityValue, numberText: real -> string)
  {
    && ParseFloat(numberText(v.p)) == Some(v.p)
    && ParseFloat(numberText(v.c)) == Some(v.c)
    && ParseFloat(numberText(v.s)) == Some(v.s)
  }

  /** A log whose exported row reads back as it was written. */
  predicate Exportable(log: LogEntry, dateOf: int -> string, timeOf: int -> string,
                       numberText: real -> string)
  {
    CellsPlain(log, dateOf, timeOf, numberText) && NumbersReadBack(log.values, numberText)
  }

  lemma DigitsPlain(n: nat)
    ensures Plain(Digits(n))
  {
    var d := Digits(n);
    assert forall i :: 0 <= i < |d| ==> IsDigit(d[i]);
  }

  /** A plain tag list joins, and then cleans, to itself. */
  lemma CleanTagsJoin(tags: seq<string>)
    requires forall i :: 0 <= i < |tags| ==> PlainTag(tags[i])
    ensures Clean(Join(tags, ',')) == Join(tags, ',')
    ensures '"' !in Join(tags, ',') && '\n' !in Join(tags, ',')
  {
    JoinFree(tags, ',', '"');
    JoinFree(tags, ',', '\n');
    CleanUnquoted(Join(tags, ','));
    JoinTrimmed(tags);
  }

  lemma JoinTrimmed(tags: seq<string>)
    requires forall i :: 0 <= i < |tags| ==> PlainTag(tags[i])
    ensures Trim(Join(tags, ',')) == Join(tags, ',')
  {
    var j := Join(tags, ',');
    if |tags| > 0 {
      JoinEnds(tags, ',');
      TrimmedEnds(tags[0]);
      TrimmedEnds(tags[|tags| - 1]);
      assert !IsSpace(j[0]) && !IsSpace(j[|j| - 1]);
    }
    TrimOfTrimmed(j);
  }

  /** The tags read back from the joined tag cell are the tags. */
  lemma TagsRoundTrip(tags: seq<string>)
    requires forall i :: 0 <= i < |tags| ==> PlainTag(tags[i])
    ensures TagsOf(Join(tags, ',')) == tags
  {
    CleanTagsJoin(tags);
    if |tags| == 0 {
      assert Split("", ',') == [""];
    } else {
      SplitJoin(tags, ',');
      KeepAll(tags, NonEmpty);
    }
  }

  /** The texts the cells of an exported row carry. */
  function ExportContents(log: LogEntry, dateOf: int -> string, timeOf: int -> string,
                          numberText: real -> string): (r: seq<string>)
    ensures |r| == |Headers|
  {
    [log.id, DecimalString(log.timestamp), dateOf(log.timestamp), timeOf(log.timestamp),
     numberText(log.values.p), numberText(log.values.c), numberText(log.values.s),
     Join(log.tags, ','), TrendText(log.trend), log.note.GetOr("")]
  }

  lemma PlainEncodes(x: string)
    requires Plain(x)
    ensures Encodes(x, x) && '\n' !in x
  {
  }

  lemma QuotedEncodes(x: string)
    requires '"' !in x && '\n' !in x
    ensures Encodes(Quoted(x), x) && '\n' !in Quoted(x)
  {
  }

  /** The cells of an exportable log encode its fields. */
  lemma ExportCellsEncode(log: LogEntry, dateOf: int -> string, timeOf: int -> string,
                          numberText: real -> string)
    requires CellsPlain(log, dateOf, timeOf, numberText)
    ensures var cells := ExportCells(log, dateOf, timeOf, numberText);
            var contents := ExportContents(log, dateOf, timeOf, numberText);
            forall i :: 0 <= i < |cells| ==> Encodes(cells[i], contents[i]) && '\n' !in cells[i]
  {
    var cells := ExportCells(log, dateOf, timeOf, numberText);
    var contents := ExportContents(log, dateOf, timeOf, numberText);
    DigitsPlain(log.timestamp);
    JoinFree(log.tags, ',', '"');
    JoinFree(log.tags, ',', '\n');
    QuotedEncodes(Join(log.tags, ','));
    QuotedEncodes(log.note.GetOr(""));
    PlainEncodes(TrendText(log.trend));
    forall i | 0 <= i < |cells|
      ensures Encodes(cells[i], contents[i]) && '\n' !in cells[i]
    {
      if i != 7 && i != 8 && i != 9 {
        assert cells[i] == contents[i];
        PlainEncodes(cells[i]);
      }
    }
  }

  /** A row whose columns hold the texts written for `log` imports as `log`. */
  lemma ImportContents(cols: seq<string>, log: LogEntry)
    requires |cols| == 10 && log.timestamp >= SecondsLimit
    requires ParseInt(cols[1]) == Some(log.timestamp)
    requires SafeFloat(cols[4]) == log.values.p && SafeFloat(cols[5]) == log.values.c
    requires SafeFloat(cols[6]) == log.values.s
    requires TagsOf(cols[7]) == log.tags
    requires Clean(cols[8]) == TrendText(log.trend) && Clean(cols[9]) == log.note.GetOr("")
    ensures ParseRow(cols) == Some(Expected(log))
  {
  }

  /** A trend text cleans to itself. */
  lemma CleanTrend(t: Trend)
    ensures Clean(TrendText(t)) == TrendText(t)
  {
    var text := TrendText(t);
    assert '"' !in text && !IsSpace(text[0]) && !IsSpace(text[|text| - 1]) by {
      match t
      case Up => assert text == "up";
      case Flat => assert text == "flat";
      case Down => assert text == "down";
    }
    CleanUnquoted(text);
    TrimOfTrimmed(text);
  }

  /** A trimmed note without quotes cleans to itself. */
  lemma CleanNote(note: string)
    requires '"' !in note && Trim(note) == note
    ensures Clean(note) == note
  {
    CleanUnquoted(note);
  }

  lemma SafeFloatReadsBack(v: TrinityValue, numberText: real -> string)
    requires NumbersReadBack(v, numberText)
    ensures SafeFloat(numberText(v.p)) == v.p && SafeFloat(numberText(v.c)) == v.c
    ensures SafeFloat(numberText(v.s)) == v.s
  {
  }

  /** `parseLine` splits an exported row into the texts written. */
  lemma ExportRowFields(log: LogEntry, dateOf: int -> string, timeOf: int -> string,
                        numberText: real -> string)
    requires CellsPlain(log, dateOf, timeOf, numberText)
    ensures SplitFields(ExportRow(log, dateOf, timeOf, numberText)) == ExportContents(log, dateOf, timeOf, numberText)
  {
    ExportCellsEncode(log, dateOf, timeOf, numberText);
    SplitFieldsOfCells(ExportCells(log, dateOf, timeOf, numberText), ExportContents(log, dateOf, timeOf, numberText));
  }

  lemma ExportContentsAt(log: LogEntry, dateOf: int -> string, timeOf: int -> string,
                         numberText: real -> string)
    ensures var cols := ExportContents(log, dateOf, timeOf, numberText);
            && cols[1] == DecimalString(log.timestamp)
            && cols[4] == numberText(log.values.p) && cols[5] == numberText(log.values.c)
            && cols[6] == numberText(log.values.s) && cols[7] == Join(log.tags, ',')
            && cols[8] == TrendText(log.trend) && cols[9] == log.note.GetOr("")
  {
  }

  /** The timestamp column reads back as the timestamp. */
  lemma ExportedTimestamp(log: LogEntry, dateOf: int -> string, timeOf: int -> string,
                          numberText: real -> string)
    ensures ParseInt(ExportContents(log, dateOf, timeOf, numberText)[1]) == Some(log.timestamp)
  {
    ExportContentsAt(log, dateOf, timeOf, numberText);
    ParseIntDecimal(log.timestamp);
  }

  /** The number columns read back as the values. */
  lemma ExportedNumbers(log: LogEntry, dateOf: int -> string, timeOf: int -> string,
                        numberText: real -> string)
    requires NumbersReadBack(log.values, numberText)
    ensures var cols := ExportContents(log, dateOf, timeOf, numberText);
            SafeFloat(cols[4]) == log.values.p && SafeFloat(cols[5]) == log.values.c
            && SafeFloat(cols[6]) == log.values.s
  {
    ExportContentsAt(log, dateOf, timeOf, numberText);
    SafeFloatReadsBack(log.values, numberText);
  }

  /** The tag, trend and note columns clean back to the log's fields. */
  lemma ExportedTexts(log: LogEntry, dateOf: int -> string, timeOf: int -> string,
                      numberText: real -> string)
    requires CellsPlain(log, dateOf, timeOf, numberText)
    ensures var cols := ExportContents(log, dateOf, timeOf, numberText);
            TagsOf(cols[7]) == log.tags && Clean(cols[8]) == TrendText(log.trend)
            && Clean(cols[9]) == log.note.GetOr("")
  {
    ExportContentsAt(log, dateOf, timeOf, numberText);
    TagsRoundTrip(log.tags);
    CleanTrend(log.trend);
    CleanNote(log.note.GetOr(""));
  }

  /** The texts written for an exportable log import as the log. */
  lemma ExportContentsImport(log: LogEntry, dateOf: int -> string, timeOf: int -> string,
                             numberText: real -> string)
    requires Exportable(log, dateOf, timeOf, numberText)
    ensures ParseRow(ExportContents(log, dateOf, timeOf, numberText)) == Some(Expected(log))
  {
    ExportedTimestamp(log, dateOf, timeOf, numberText);
    ExportedNumbers(log, dateOf, timeOf, numberText);
    ExportedTexts(log, dateOf, timeOf, numberText);
    ImportContents(ExportContents(log, dateOf, timeOf, numberText), log);
  }

  /** The row of an exportable log reads back as the log. */
  lemma RowRoundTrip(log: LogEntry, dateOf: int -> string, timeOf: int -> string,
                     numberText: real -> string)
    requires Exportable(log, dateOf, timeOf, numberText)
    ensures ParseRow(SplitFields(ExportRow(log, dateOf, timeOf, numberText))) == Some(Expected(log))
  {
    ExportRowFields(log, dateOf, timeOf, numberText);
    ExportContentsImport(log, dateOf, timeOf, numberText);
  }

  /** An exported row has no line break and is not blank. */
  lemma RowIsOneLine(log: LogEntry, dateOf: int -> string, timeOf: int -> string,
                     numberText: real -> string)
    requires CellsPlain(log, dateOf, timeOf, numberText)
    ensures var row := ExportRow(log, dateOf, timeOf, numberText);
            '\n' !in row && NonBlank(row)
  {
    var cells := ExportCells(log, dateOf, timeOf, numberText);
    ExportCellsEncode(log, dateOf, timeOf, numberText);
    JoinFree(cells, ',', '\n');
    JoinHasSeparator(cells, ',');
    var row := ExportRow(log, dateOf, timeOf, numberText);
    var i :| 0 <= i < |row| && row[i] == ',';
    TrimNotEmpty(row, i);
  }

  /** A row that imports as `e`, appended to the rows, appends `e` to the import. */
  lemma ParseRowsSnoc(lines: seq<string>, line: string, e: Imported)
    requires ParseRow(SplitFields(line)) == Some(e)
    ensures ParseRows(lines + [line]) == ParseRows(lines) + [e]
  {
    KeepParsedSnoc(lines, line, RowOfLine);
  }

  /** A row that does not parse is dropped: the rows before it are unchanged. */
  lemma ParseRowsDrop(lines: seq<string>, line: string)
    requires ParseRow(SplitFields(line)).None?
    ensures ParseRows(lines + [line]) == ParseRows(lines)
  {
    KeepParsedSnoc(lines, line, RowOfLine);
  }

  /** One more element adds its parsed result, if it has one, at the end. */
  lemma KeepParsedSnoc<A, B>(xs: seq<A>, x: A, parse: A -> Option<B>)
    ensures KeepParsed(xs + [x], parse)
         == KeepParsed(xs, parse) + (if parse(x).Some? then [parse(x).value] else [])
  {
    assert (xs + [x])[..|xs|] == xs;
  }

  /** Some element of a non-empty list passes exactly when some element of its
      prefix passes or its last element does. */
  lemma ExistsSnoc<T>(xs: seq<T>, ok: T -> bool)
    requires |xs| > 0
    ensures (exists x :: x in xs && ok(x))
            <==> (exists x :: x in xs[..|xs| - 1] && ok(x)) || ok(xs[|xs| - 1])
  {
    if exists x :: x in xs && ok(x) {
      var x :| x in xs && ok(x);
      if x != xs[|xs| - 1] {
        var i :| 0 <= i < |xs| && xs[i] == x;
        assert xs[..|xs| - 1][i] == x;
      }
    }
    if exists x :: x in xs[..|xs| - 1] && ok(x) {
      var x :| x in xs[..|xs| - 1] && ok(x);
      assert x in xs;
    }
  }

  /** The kept results are exactly the parsed results of the elements that parse. */
  lemma {:induction false} KeepParsedMembers<A, B>(xs: seq<A>, parse: A -> Option<B>, e: B)
    ensures e in KeepParsed(xs, parse) <==> exists x :: x in xs && parse(x) == Some(e)
  {
    if |xs| > 0 {
      var init, last := xs[..|xs| - 1], xs[|xs| - 1];
      assert xs == init + [last];
      KeepParsedMembers(init, parse, e);
      KeepParsedSnoc(init, last, parse);
      ExistsSnoc(xs, x => parse(x) == Some(e));
    }
  }

  /** The imported rows are exactly the rows of the data lines that parse: a line
      with fewer than 7 columns or a non-integer column 1 adds nothing. */
  lemma ParseRowsMembers(lines: seq<string>, e: Imported)
    ensures e in ParseRows(lines) <==> exists l :: l in lines && ParseRow(SplitFields(l)) == Some(e)
  {
    KeepParsedMembers(lines, RowOfLine, e);
    if exists l :: l in lines && ParseRow(SplitFields(l)) == Some(e) {
      var l :| l in lines && ParseRow(SplitFields(l)) == Some(e);
      assert RowOfLine(l) == Some(e);
    }
  }

  /** The exported rows of exportable logs parse back to the logs, in order. */
  lemma {:induction false} RowsRoundTrip(logs: seq<LogEntry>, dateOf: int -> string, timeOf: int -> string,
                                         numberText: real -> string)
    requires forall i :: 0 <= i < |logs| ==> Exportable(logs[i], dateOf, timeOf, numberText)
    ensures ParseRows(ExportRows(logs, dateOf, timeOf, numberText)) == ExpectedAll(logs)
  {
    if |logs| > 0 {
      var init, last := logs[..|logs| - 1], logs[|logs| - 1];
      assert forall i :: 0 <= i < |init| ==> init[i] == logs[i];
      RowsRoundTrip(init, dateOf, timeOf, numberText);
      RowRoundTrip(last, dateOf, timeOf, numberText);
      ParseRowsSnoc(ExportRows(init, dateOf, timeOf, numberText), ExportRow(last, dateOf, timeOf, numberText),
                    Expected(last));
    }
  }

  /** Text joined from non-blank lines free of line breaks splits back into them. */
  lemma LinesOfJoin(lines: seq<string>)
    requires |lines| >= 1
    requires forall i :: 0 <= i < |lines| ==> '\n' !in lines[i] && NonBlank(lines[i])
    ensures Lines(Join(lines, '\n')) == lines
  {
    SplitJoin(lines, '\n');
    KeepAll(lines, NonBlank);
  }

  /** The header line has no line break. */
  lemma HeaderIsOneLine()
    ensures '\n' !in Join(Headers, ',')
  {
    JoinFree(Headers, ',', '\n');
  }

  /** The header line is not blank: it starts with the `I` of `ID`. */
  lemma HeaderNotBlank()
    ensures NonBlank(Join(Headers, ','))
  {
    var hs := Headers;
    assert hs[0] == "ID";
    JoinNotBlank(hs, ',');
  }

  /** A join whose first piece starts with a non-space character is not blank. */
  lemma JoinNotBlank(parts: seq<string>, sep: char)
    requires |parts| >= 1 && |parts[0]| > 0 && !IsSpace(parts[0][0])
    ensures NonBlank(Join(parts, sep))
  {
    var j := Join(parts, sep);
    if |parts| > 1 {
      assert j == parts[0] + ([sep] + Join(parts[1..], sep));
    }
    assert j[0] == parts[0][0];
    TrimNotEmpty(j, 0);
  }

  /** The exported text splits into the header line and the rows. */
  lemma ExportLines(logs: seq<LogEntry>, dateOf: int -> string, timeOf: int -> string,
                    numberText: real -> string)
    requires forall i :: 0 <= i < |logs| ==> CellsPlain(logs[i], dateOf, timeOf, numberText)
    ensures Lines(ExportCsv(logs, dateOf, timeOf, numberText))
         == [Join(Headers, ',')] + ExportRows(logs, dateOf, timeOf, numberText)
  {
    var rows := ExportRows(logs, dateOf, timeOf, numberText);
    var all := [Join(Headers, ',')] + rows;
    HeaderIsOneLine();
    HeaderNotBlank();
    forall i | 0 <= i < |all|
      ensures '\n' !in all[i] && NonBlank(all[i])
    {
      if i > 0 {
        assert all[i] == rows[i - 1];
        RowIsOneLine(logs[i - 1], dateOf, timeOf, numberText);
      }
    }
    LinesOfJoin(all);
  }

  /** The exported header passes the header check. */
  lemma HeaderAccepted()
    ensures "Timestamp" in Split(Join(Headers, ','), ',') && "P" in Split(Join(Headers, ','), ',')
  {
    SplitJoin(Headers, ',');
    assert Headers[1] == "Timestamp" && Headers[4] == "P";
  }

  /** Exporting logs that are exportable and importing the file gives back each
      log's timestamp, values, tags, trend and note, in order; with no logs the
      file is the header alone and imports as nothing. */
  lemma ExportThenImport(logs: seq<LogEntry>, dateOf: int -> string, timeOf: int -> string,
                         numberText: real -> string)
    requires forall i :: 0 <= i < |logs| ==> Exportable(logs[i], dateOf, timeOf, numberText)
    ensures ParseCsv(ExportCsv(logs, dateOf, timeOf, numberText)) == Ok(ExpectedAll(logs))
  {
    var rows := ExportRows(logs, dateOf, timeOf, numberText);
    ExportLines(logs, dateOf, timeOf, numberText);
    HeaderAccepted();
    assert ([Join(Headers, ',')] + rows)[1..] == rows;
    RowsRoundTrip(logs, dateOf, timeOf, numberText);
  }
}
