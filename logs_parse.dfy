/**
 * The journal reader of `pkg/logs/service.go`: the classifier of one
 * `journalctl -o cat` line, the filtered batch parser `parseLogs`, the
 * argument list handed to journalctl, and the unit-name extraction of
 * `GetLogUnits`.  Every line is handled on its own: there is no assembly
 * of continuation lines, no sorting and no merging of entries.
 */
module LogParse {
  import opened Wrappers
  import opened Text
  import Decimal

  /** A wall-clock reading as `time.Parse` returns it for the layout "2006/01/02 15:04:05". */
  datatype DateTime = DateTime(year: nat, month: nat, day: nat, hour: nat, minute: nat, second: nat)

  /**
   * `LogEntry`.  The timestamp is `None` where the source falls back to
   * `time.Now()` (a line without header, or a header whose time does not parse).
   */
  datatype LogEntry = LogEntry(timestamp: Option<DateTime>, level: string, message: string)

  /** `LogFilter`: `lines` bounds journalctl's output, the other fields are "" when unset. */
  datatype LogFilter = LogFilter(lines: int, level: string, since: string, search: string)

  /** The pieces of a header line that the pattern captures or skips. */
  datatype Header = Header(stamp: string, ctx: string, level: string, message: string)

  // ---------------------------------------------------------------------
  // The header pattern
  //   ^(\d{4}/\d{2}/\d{2} \d{2}:\d{2}:\d{2}) \[.*?\] \[([A-Z]+)\] (.*)
  // ---------------------------------------------------------------------

  /** The 19 characters `\d{4}/\d{2}/\d{2} \d{2}:\d{2}:\d{2}`. */
  predicate IsStampText(s: string) {
    && |s| == 19
    && s[4] == '/' && s[7] == '/' && s[10] == ' ' && s[13] == ':' && s[16] == ':'
    && forall i :: 0 <= i < 19 && i != 4 && i != 7 && i != 10 && i != 13 && i != 16 ==> Decimal.IsDigit(s[i])
  }

  predicate IsUpper(c: char) {
    'A' <= c <= 'Z'
  }

  predicate AllUpper(s: string) {
    forall i :: 0 <= i < |s| ==> IsUpper(s[i])
  }

  /** The length of the run of `[A-Z]` characters of `l` that starts at `p`. */
  function UpperRun(l: string, p: nat): (n: nat)
    requires p <= |l|
    ensures p + n <= |l|
    ensures forall i :: p <= i < p + n ==> IsUpper(l[i])
    ensures p + n == |l| || !IsUpper(l[p + n])
    decreases |l| - p
  {
    if p < |l| && IsUpper(l[p]) then 1 + UpperRun(l, p + 1) else 0
  }

  /** What `(.*)` captures: everything up to the first newline. */
  function LineRest(s: string): (r: string)
    ensures |r| <= |s| && r == s[..|r|]
    ensures '\n' !in r
    ensures |r| == |s| || s[|r|] == '\n'
  {
    if s == [] || s[0] == '\n' then [] else [s[0]] + LineRest(s[1..])
  }

  /** The part of the pattern after the context: `\] \[([A-Z]+)\] (.*)` at position `p`. */
  function TailAt(l: string, p: nat): Option<(string, string)>
    requires p <= |l|
  {
    if p + 3 <= |l| && l[p..p + 3] == "] [" then
      var n := UpperRun(l, p + 3);
      var q := p + 3 + n;
      if n > 0 && q + 2 <= |l| && l[q..q + 2] == "] " then Some((l[p + 3..q], LineRest(l[q + 2..])))
      else None
    else None
  }

  /**
   * The lazy `.*?`: tries the context `l[21..p]`, then one character more,
   * and stops at a newline, which `.` does not match.
   */
  function FindCtx(l: string, p: nat): (r: Option<Header>)
    requires 21 <= p <= |l|
    ensures r.Some? ==> r.value.stamp == l[..19]
    decreases |l| - p
  {
    match TailAt(l, p)
    case Some((level, message)) => Some(Header(l[..19], l[21..p], level, message))
    case None => if p < |l| && l[p] != '\n' then FindCtx(l, p + 1) else None
  }

  /** `logPattern.FindStringSubmatch(line)`, as the pieces it matched. */
  function MatchHeader(l: string): (r: Option<Header>)
    ensures r.Some? ==> IsStampText(r.value.stamp)
  {
    if 21 <= |l| && IsStampText(l[..19]) && l[19..21] == " [" then FindCtx(l, 21) else None
  }

  /**
   * `l` reads `stamp ␠[ctx] [level] message` and then ends or continues with
   * a newline: one way the pattern can match `l`.
   */
  ghost predicate Splits(l: string, h: Header) {
    var p := 21 + |h.ctx|;
    var q := p + 3 + |h.level|;
    var e := q + 2 + |h.message|;
    && IsStampText(h.stamp)
    && '\n' !in h.ctx
    && h.level != [] && AllUpper(h.level)
    && '\n' !in h.message
    && e <= |l|
    && l[..19] == h.stamp && l[19..21] == " [" && l[21..p] == h.ctx
    && l[p..p + 3] == "] [" && l[p + 3..q] == h.level && l[q..q + 2] == "] "
    && l[q + 2..e] == h.message
    && (e == |l| || l[e] == '\n')
  }

  /** Where one split puts its context, the rest of the pattern matches just one way. */
  lemma SplitsTail(l: string, h: Header)
    requires Splits(l, h)
    ensures TailAt(l, 21 + |h.ctx|) == Some((h.level, h.message))
  {
    var p := 21 + |h.ctx|;
    var q := p + 3 + |h.level|;
    assert UpperRun(l, p + 3) == |h.level| by {
      var n := UpperRun(l, p + 3);
      assert l[q] == l[q..q + 2][0] == ']';
      assert forall i :: p + 3 <= i < q ==> l[i] == h.level[i - (p + 3)];
      if n < |h.level| {
        assert false;
      } else if n > |h.level| {
        assert false;
      }
    }
    var s := l[q + 2..];
    var m := h.message;
    assert LineRest(s) == m by {
      var r := LineRest(s);
      if |r| < |m| {
        assert false;
      } else if |r| > |m| {
        assert false;
      }
    }
  }

  /** Every header `FindCtx` returns is a split of the line. */
  lemma {:induction false} FindCtxSound(l: string, p: nat)
    requires 21 <= p <= |l| && 21 <= |l| && IsStampText(l[..19]) && l[19..21] == " ["
    requires forall i :: 21 <= i < p ==> l[i] != '\n'
    requires FindCtx(l, p).Some?
    ensures Splits(l, FindCtx(l, p).value)
    decreases |l| - p
  {
    match TailAt(l, p)
    case Some((level, message)) =>
      var h := FindCtx(l, p).value;
      var n := UpperRun(l, p + 3);
      var q := p + 3 + n;
      assert h == Header(l[..19], l[21..p], level, message);
      assert level == l[p + 3..q];
      var s := l[q + 2..];
      assert message == s[..|message|];
      assert l[q + 2..q + 2 + |message|] == message;
      assert '\n' !in h.ctx by {
        forall i | 0 <= i < |h.ctx| ensures h.ctx[i] != '\n' { assert h.ctx[i] == l[21 + i]; }
      }
      if q + 2 + |message| < |l| {
        assert l[q + 2 + |message|] == s[|message|];
      }
    case None =>
      FindCtxSound(l, p + 1);
  }

  /** A split with a context of a given length is determined by that length. */
  lemma SplitsUnique(l: string, h1: Header, h2: Header)
    requires Splits(l, h1) && Splits(l, h2) && |h1.ctx| == |h2.ctx|
    ensures h1 == h2
  {
    SplitsTail(l, h1);
    SplitsTail(l, h2);
  }

  /** Whenever the line has a split, `FindCtx` finds one whose context is no longer. */
  lemma {:induction false} FindCtxComplete(l: string, p: nat, h: Header)
    requires Splits(l, h)
    requires 21 <= p <= 21 + |h.ctx|
    ensures FindCtx(l, p).Some? && |FindCtx(l, p).value.ctx| <= |h.ctx|
    decreases 21 + |h.ctx| - p
  {
    SplitsTail(l, h);
    if TailAt(l, p).None? {
      assert p < 21 + |h.ctx|;
      assert l[p] == h.ctx[p - 21];
      FindCtxComplete(l, p + 1, h);
    }
  }

  /**
   * The pattern matches exactly the lines that have a split, and then
   * captures the split with the shortest context, as the lazy `.*?` prescribes.
   */
  lemma MatchHeaderIff(l: string, h: Header)
    ensures MatchHeader(l) == Some(h) <==>
              Splits(l, h) && forall h' :: Splits(l, h') ==> |h.ctx| <= |h'.ctx|
  {
    if MatchHeader(l) == Some(h) {
      FindCtxSound(l, 21);
      forall h' | Splits(l, h') ensures |h.ctx| <= |h'.ctx| {
        FindCtxComplete(l, 21, h');
      }
    }
    if Splits(l, h) && forall h' :: Splits(l, h') ==> |h.ctx| <= |h'.ctx| {
      FindCtxComplete(l, 21, h);
      var m := MatchHeader(l).value;
      FindCtxSound(l, 21);
      SplitsUnique(l, m, h);
    }
  }

  /** A line without any split does not match. */
  lemma MatchHeaderNone(l: string)
    ensures MatchHeader(l).None? <==> forall h :: !Splits(l, h)
  {
    if MatchHeader(l).Some? {
      MatchHeaderIff(l, MatchHeader(l).value);
    } else {
      forall h | Splits(l, h) ensures false { FindCtxComplete(l, 21, h); }
    }
  }

  // ---------------------------------------------------------------------
  // The timestamp: time.Parse("2006/01/02 15:04:05", stamp)
  // ---------------------------------------------------------------------

  function Digit(c: char): nat
    requires Decimal.IsDigit(c)
  {
    c as int - '0' as int
  }

  function Num2(s: string, i: nat): nat
    requires IsStampText(s) && i + 1 < 19 && i + 1 != 4 && i != 4 && i + 1 != 7 && i != 7
    requires i + 1 != 10 && i != 10 && i + 1 != 13 && i != 13 && i + 1 != 16 && i != 16
  {
    10 * Digit(s[i]) + Digit(s[i + 1])
  }

  predicate IsLeap(year: nat) {
    year % 4 == 0 && (year % 100 != 0 || year % 400 == 0)
  }

  /** Go's `daysIn`. */
  function DaysIn(month: nat, year: nat): nat
    requires 1 <= month <= 12
  {
    if month == 2 then (if IsLeap(year) then 29 else 28)
    else if month == 4 || month == 6 || month == 9 || month == 11 then 30
    else 31
  }

  /**
   * `time.Parse` of a stamp: it fails (`None`) when the month, the day of
   * that month, the hour, the minute or the second is out of range.
   */
  function ParseStamp(s: string): (r: Option<DateTime>)
    requires IsStampText(s)
    ensures r.Some? ==> 1 <= r.value.month <= 12 && 1 <= r.value.day <= DaysIn(r.value.month, r.value.year)
    ensures r.Some? ==> r.value.hour < 24 && r.value.minute < 60 && r.value.second < 60
    ensures r.Some? <==>
      && 1 <= Num2(s, 5) <= 12 && 1 <= Num2(s, 8) <= DaysIn(Num2(s, 5), 100 * Num2(s, 0) + Num2(s, 2))
      && Num2(s, 11) < 24 && Num2(s, 14) < 60 && Num2(s, 17) < 60
    ensures r.Some? ==> r.value == DateTime(100 * Num2(s, 0) + Num2(s, 2), Num2(s, 5), Num2(s, 8),
                                           Num2(s, 11), Num2(s, 14), Num2(s, 17))
  {
    var year := 100 * Num2(s, 0) + Num2(s, 2);
    var month := Num2(s, 5);
    var day := Num2(s, 8);
    var hour := Num2(s, 11);
    var minute := Num2(s, 14);
    var second := Num2(s, 17);
    if 1 <= month <= 12 && 1 <= day <= DaysIn(month, year) && hour < 24 && minute < 60 && second < 60
    then Some(DateTime(year, month, day, hour, minute, second))
    else None
  }

  /** A date and time whose every field is in the range `time.Parse` accepts. */
  predicate ValidDateTime(d: DateTime) {
    && 1 <= d.month <= 12 && 1 <= d.day <= DaysIn(d.month, d.year)
    && d.hour < 24 && d.minute < 60 && d.second < 60
  }

  /** Two decimal digits of `n`, with a leading zero. */
  function Pad2(n: nat): (s: string)
    requires n < 100
    ensures |s| == 2 && Decimal.AllDigits(s)
  {
    [Decimal.DigitChar(n / 10), Decimal.DigitChar(n % 10)]
  }

  /** The text of a date and time in the `2006/01/02 15:04:05` layout. */
  function StampText(d: DateTime): (s: string)
    requires d.year < 10000 && ValidDateTime(d)
    ensures IsStampText(s)
  {
    Pad2(d.year / 100) + Pad2(d.year % 100) + "/" + Pad2(d.month) + "/" + Pad2(d.day) + " "
      + Pad2(d.hour) + ":" + Pad2(d.minute) + ":" + Pad2(d.second)
  }

  /** Every four-digit date and time in range is read back from its own text. */
  lemma ParseStampText(d: DateTime)
    requires d.year < 10000 && ValidDateTime(d)
    ensures ParseStamp(StampText(d)) == Some(d)
  {
    var s := StampText(d);
    assert Num2(s, 0) == d.year / 100;
    assert Num2(s, 2) == d.year % 100;
    assert Num2(s, 5) == d.month && Num2(s, 8) == d.day;
    assert Num2(s, 11) == d.hour && Num2(s, 14) == d.minute && Num2(s, 17) == d.second;
  }

  /** A stamp that `time.Parse` accepts is the text of the date and time it reads. */
  lemma StampTextParse(s: string)
    requires IsStampText(s) && ParseStamp(s).Some?
    ensures ParseStamp(s).value.year < 10000 && ValidDateTime(ParseStamp(s).value)
    ensures StampText(ParseStamp(s).value) == s
  {
    var d := ParseStamp(s).value;
    Century(Num2(s, 0), Num2(s, 2));
    assert d.year / 100 == Num2(s, 0) && d.year % 100 == Num2(s, 2);
    Pad2Num2(s, 0); Pad2Num2(s, 2); Pad2Num2(s, 5); Pad2Num2(s, 8);
    Pad2Num2(s, 11); Pad2Num2(s, 14); Pad2Num2(s, 17);
    StampPieces(s);
  }

  lemma Century(hi: nat, lo: nat)
    requires lo < 100
    ensures (100 * hi + lo) / 100 == hi && (100 * hi + lo) % 100 == lo
  {
  }

  lemma StampPieces(s: string)
    requires |s| == 19 && s[4] == '/' && s[7] == '/' && s[10] == ' ' && s[13] == ':' && s[16] == ':'
    ensures s == [s[0], s[1]] + [s[2], s[3]] + "/" + [s[5], s[6]] + "/" + [s[8], s[9]] + " "
      + [s[11], s[12]] + ":" + [s[14], s[15]] + ":" + [s[17], s[18]]
  {
  }

  lemma Pad2Num2(s: string, i: nat)
    requires IsStampText(s) && i + 1 < 19 && i + 1 != 4 && i != 4 && i + 1 != 7 && i != 7
    requires i + 1 != 10 && i != 10 && i + 1 != 13 && i != 13 && i + 1 != 16 && i != 16
    ensures Pad2(Num2(s, i)) == [s[i], s[i + 1]]
  {
  }

  // ---------------------------------------------------------------------
  // parseLogLine and parseLogs
  // ---------------------------------------------------------------------

  /** `parseLogLine`: never nil; a line without header becomes an INFO entry of the whole line. */
  function ParseLogLine(line: string): LogEntry {
    match MatchHeader(line)
    case None => LogEntry(None, "INFO", line)
    case Some(h) => LogEntry(ParseStamp(h.stamp), h.level, h.message)
  }

  /** What `parseLogLine` yields, in terms of the splits of its line. */
  lemma ParseLogLineSpec(line: string)
    ensures (forall h :: !Splits(line, h)) ==> ParseLogLine(line) == LogEntry(None, "INFO", line)
    ensures forall h :: Splits(line, h) && (forall h' :: Splits(line, h') ==> |h.ctx| <= |h'.ctx|) ==>
              ParseLogLine(line) == LogEntry(ParseStamp(h.stamp), h.level, h.message)
  {
    MatchHeaderNone(line);
    forall h | Splits(line, h) && (forall h' :: Splits(line, h') ==> |h.ctx| <= |h'.ctx|)
      ensures ParseLogLine(line) == LogEntry(ParseStamp(h.stamp), h.level, h.message)
    {
      MatchHeaderIff(line, h);
    }
  }

  /** The level and search tests `parseLogs` applies to a header line. */
  predicate PassesFilter(h: Header, f: LogFilter) {
    && (f.level == "" || h.level == f.level)
    && (f.search == "" || ContainsFold(h.message, f.search) || ContainsFold(h.level, f.search))
  }

  /** Whether `parseLogs` emits an entry for an already trimmed line. */
  predicate Kept(line: string, f: LogFilter) {
    line != "" &&
    match MatchHeader(line)
    case None => true
    case Some(h) => PassesFilter(h, f)
  }

  /** What one raw line contributes to the parse. */
  function LineParse(line: string, f: LogFilter): seq<LogEntry> {
    var t := TrimSpace(line);
    if Kept(t, f) then [ParseLogLine(t)] else []
  }

  /**
   * The reference for `parseLogs`: the `parseLogLine` entry of every trimmed
   * line that is kept, in line order.
   */
  function Parsed(lines: seq<string>, f: LogFilter): seq<LogEntry> {
    if lines == [] then []
    else
      Parsed(lines[..|lines| - 1], f) + LineParse(lines[|lines| - 1], f)
  }

  /** One more line extends the reference parse by that line's entry, if it is kept. */
  lemma ParsedStep(lines: seq<string>, i: nat, f: LogFilter)
    requires i < |lines|
    ensures var line := TrimSpace(lines[i]);
            Parsed(lines[..i + 1], f) == Parsed(lines[..i], f) + (if Kept(line, f) then [ParseLogLine(line)] else [])
  {
    assert lines[..i + 1][..i] == lines[..i];
  }

  /** A single line gives its entry if it is kept, and nothing otherwise. */
  lemma ParsedOne(line: string, f: LogFilter)
    ensures Parsed([line], f) == LineParse(line, f)
  {
    assert [line][..0] == [];
  }

  /**
   * One line, stated over the splits of its trimmed text: a blank line gives
   * nothing; a line without header gives its INFO entry whatever the filter;
   * a header line gives its entry exactly when it passes the level and
   * search tests.
   */
  lemma LineParseSpec(line: string, f: LogFilter)
    ensures IsBlank(line) ==> LineParse(line, f) == []
    ensures var t := TrimSpace(line);
            !IsBlank(line) && (forall h :: !Splits(t, h)) ==> LineParse(line, f) == [LogEntry(None, "INFO", t)]
    ensures var t := TrimSpace(line);
            forall h :: Splits(t, h) && (forall h' :: Splits(t, h') ==> |h.ctx| <= |h'.ctx|) ==>
              LineParse(line, f) == if PassesFilter(h, f) then [LogEntry(ParseStamp(h.stamp), h.level, h.message)] else []
  {
    var t := TrimSpace(line);
    MatchHeaderNone(t);
    forall h | Splits(t, h) && (forall h' :: Splits(t, h') ==> |h.ctx| <= |h'.ctx|)
      ensures LineParse(line, f) == if PassesFilter(h, f) then [LogEntry(ParseStamp(h.stamp), h.level, h.message)] else []
    {
      MatchHeaderIff(t, h);
    }
  }

  /** `parseLogs(output, filter)`. */
  method ParseLogs(output: string, filter: LogFilter) returns (entries: seq<LogEntry>)
    ensures entries == Parsed(Split(output, '\n'), filter)
  {
    var lines := Split(output, '\n');
    entries := [];
    for i := 0 to |lines|
      invariant entries == Parsed(lines[..i], filter)
    {
      ParsedStep(lines, i, filter);
      var line := TrimSpace(lines[i]);
      if line == "" {
        continue;
      }
      var matches := MatchHeader(line);
      if matches.None? {
        entries := entries + [LogEntry(None, "INFO", line)];
        continue;
      }
      var timestamp := ParseStamp(matches.value.stamp);
      var level := matches.value.level;
      var message := matches.value.message;
      if filter.level != "" && level != filter.level {
        continue;
      }
      if filter.search != "" && !Contains(ToLower(message), ToLower(filter.search))
         && !Contains(ToLower(level), ToLower(filter.search)) {
        continue;
      }
      entries := entries + [LogEntry(timestamp, level, message)];
    }
    assert lines[..|lines|] == lines;
  }

  /** Output order follows line order: the parse of joined inputs is the join of the parses. */
  lemma {:induction false} ParsedAppend(a: seq<string>, b: seq<string>, f: LogFilter)
    ensures Parsed(a + b, f) == Parsed(a, f) + Parsed(b, f)
  {
    if b != [] {
      assert (a + b)[..|a + b| - 1] == a + b[..|b| - 1];
      assert (a + b)[|a + b| - 1] == b[|b| - 1];
      ParsedAppend(a, b[..|b| - 1], f);
    } else {
      assert a + b == a;
    }
  }

  /** The number of lines that are not blank. */
  function NonBlank(lines: seq<string>): nat {
    if lines == [] then 0
    else NonBlank(lines[..|lines| - 1]) + (if IsBlank(lines[|lines| - 1]) then 0 else 1)
  }

  /** Blank lines give nothing and every other line at most one entry. */
  lemma {:induction false} ParsedBound(lines: seq<string>, f: LogFilter)
    ensures |Parsed(lines, f)| <= NonBlank(lines) <= |lines|
  {
    if lines != [] {
      ParsedBound(lines[..|lines| - 1], f);
    }
  }

  /** The level filter only ever lets through its own level, or the INFO entries of header-less lines. */
  lemma {:induction false} ParsedLevel(lines: seq<string>, f: LogFilter)
    requires f.level != ""
    ensures forall e :: e in Parsed(lines, f) ==> e.level == f.level || e == LogEntry(None, "INFO", e.message)
  {
    if lines != [] {
      ParsedLevel(lines[..|lines| - 1], f);
    }
  }

  /**
   * The search filter only ever lets through entries whose message or level
   * contains the search text ignoring case, or the INFO entries of header-less lines.
   */
  lemma {:induction false} ParsedSearch(lines: seq<string>, f: LogFilter)
    requires f.search != ""
    ensures forall e :: e in Parsed(lines, f) ==>
              ContainsFold(e.message, f.search) || ContainsFold(e.level, f.search) || e == LogEntry(None, "INFO", e.message)
  {
    if lines != [] {
      ParsedSearch(lines[..|lines| - 1], f);
    }
  }

  /** `a` is `b` with some elements left out (order kept). */
  ghost predicate Subsequence<T>(a: seq<T>, b: seq<T>)
    decreases |b|
  {
    a == [] ||
    (b != [] &&
     ((a[|a| - 1] == b[|b| - 1] && Subsequence(a[..|a| - 1], b[..|b| - 1])) || Subsequence(a, b[..|b| - 1])))
  }

  /** The empty filter: no level, no search. */
  const NoFilter := LogFilter(0, "", "", "")

  /** A filtered parse keeps a subsequence of the unfiltered parse. */
  lemma {:induction false} ParsedSubsequence(lines: seq<string>, f: LogFilter)
    ensures Subsequence(Parsed(lines, f), Parsed(lines, NoFilter))
  {
    if lines != [] {
      var init := lines[..|lines| - 1];
      var last := lines[|lines| - 1];
      ParsedSubsequence(init, f);
      var line := TrimSpace(last);
      var a := Parsed(init, f);
      var b := Parsed(init, NoFilter);
      if Kept(line, NoFilter) {
        var e := ParseLogLine(line);
        assert Parsed(lines, NoFilter) == b + [e];
        assert (b + [e])[..|b|] == b;
        if Kept(line, f) {
          assert Parsed(lines, f) == a + [e];
          assert (a + [e])[..|a|] == a;
        } else {
          assert Parsed(lines, f) == a;
        }
      } else {
        assert !Kept(line, f);
        assert Parsed(lines, f) == a && Parsed(lines, NoFilter) == b;
      }
    }
  }

  /** The non-blank lines of `lines`, trimmed. */
  function Trimmed(lines: seq<string>): seq<string> {
    if lines == [] then []
    else
      var line := TrimSpace(lines[|lines| - 1]);
      Trimmed(lines[..|lines| - 1]) + (if line == "" then [] else [line])
  }

  /** Without level and search, `parseLogs` is `parseLogLine` applied to every non-blank trimmed line. */
  lemma {:induction false} ParsedUnfiltered(lines: seq<string>, f: LogFilter)
    requires f.level == "" && f.search == ""
    ensures |Parsed(lines, f)| == |Trimmed(lines)|
    ensures forall i :: 0 <= i < |Trimmed(lines)| ==> Parsed(lines, f)[i] == ParseLogLine(Trimmed(lines)[i])
  {
    if lines != [] {
      ParsedUnfiltered(lines[..|lines| - 1], f);
    }
  }

  // ---------------------------------------------------------------------
  // GetLogs and GetLogUnits
  // ---------------------------------------------------------------------

  /** The argument list `GetLogs` hands to journalctl. */
  function JournalArgs(unit: string, filter: LogFilter): (args: seq<string>)
    ensures |args| == 5 + (if filter.since != "" then 2 else 0) + (if filter.lines > 0 then 2 else 0)
    ensures args[..5] == ["-u", unit, "-o", "cat", "--no-pager"]
    ensures filter.since != "" ==> args[5..7] == ["--since", filter.since]
    ensures filter.lines > 0 ==> args[|args| - 2] == "-n"
    ensures 0 < filter.lines <= Decimal.IntMax ==> Decimal.Atoi(args[|args| - 1]) == Some(filter.lines)
  {
    var base := ["-u", unit, "-o", "cat", "--no-pager"];
    var withSince := if filter.since != "" then base + ["--since", filter.since] else base;
    if filter.lines > 0 then
      var count := Decimal.FormatNat(filter.lines);
      assert filter.lines <= Decimal.IntMax ==> Decimal.Atoi(count) == Some(filter.lines) by {
        if filter.lines <= Decimal.IntMax { Decimal.AtoiFormat(filter.lines); }
      }
      withSince + ["-n", count]
    else withSince
  }

  /** The argument list `FollowLogs` hands to journalctl: the fixed part of `GetLogs`'s, then `-f`. */
  function FollowArgs(unit: string): (args: seq<string>)
    ensures args == JournalArgs(unit, LogFilter(0, "", "", "")) + ["-f"]
    ensures args[|args| - 1] == "-f"
  {
    ["-u", unit, "-o", "cat", "--no-pager", "-f"]
  }

  /**
   * `GetLogs`: runs journalctl (a parameter here, from its argument list to
   * its outcome) and parses its standard output.
   */
  method GetLogs(unit: string, filter: LogFilter, journalctl: seq<string> -> Exit)
    returns (r: Result<seq<LogEntry>, string>)
    ensures var x := journalctl(JournalArgs(unit, filter));
            && (x.err.Some? ==> r == Failure("journalctl error: " + x.err.value + ": " + x.stderr))
            && (x.err.None? ==> r == Success(Parsed(Split(x.stdout, '\n'), filter)))
  {
    var x := journalctl(JournalArgs(unit, filter));
    if x.err.Some? {
      return Failure("journalctl error: " + x.err.value + ": " + x.stderr);
    }
    var entries := ParseLogs(x.stdout, filter);
    return Success(entries);
  }

  const ServiceSuffix := ".service"

  /** The unit a line of `systemctl list-units` names, if its first field ends in ".service". */
  function UnitName(line: string): Option<string> {
    match FirstField(line)
    case Some(w) => if HasSuffix(w, ServiceSuffix) then Some(TrimSuffix(w, ServiceSuffix)) else None
    case None => None
  }

  /** A line names unit `u` exactly when its first field is `u` followed by ".service". */
  lemma UnitNameIff(line: string, u: string)
    ensures UnitName(line) == Some(u) <==> FirstField(line) == Some(u + ServiceSuffix)
  {
    if FirstField(line) == Some(u + ServiceSuffix) {
      var w := u + ServiceSuffix;
      assert w[|w| - |ServiceSuffix|..] == ServiceSuffix;
      assert w[..|w| - |ServiceSuffix|] == u;
    }
  }

  /** The reference for `GetLogUnits`: the names of the lines that name a unit, in line order. */
  function Units(lines: seq<string>): seq<string> {
    if lines == [] then []
    else
      var init := Units(lines[..|lines| - 1]);
      match UnitName(lines[|lines| - 1])
      case Some(u) => init + [u]
      case None => init
  }

  /** The extraction loop of `GetLogUnits` over the text systemctl printed. */
  method ListUnits(output: string) returns (units: seq<string>)
    ensures units == Units(Split(output, '\n'))
  {
    var lines := Split(output, '\n');
    units := [];
    for i := 0 to |lines|
      invariant units == Units(lines[..i])
    {
      assert lines[..i + 1][..i] == lines[..i];
      var fields := FirstField(lines[i]);
      if fields.Some? && HasSuffix(fields.value, ServiceSuffix) {
        units := units + [TrimSuffix(fields.value, ServiceSuffix)];
      }
    }
    assert lines[..|lines|] == lines;
  }

  /** Every listed unit comes from a line that names it, in line order. */
  lemma {:induction false} UnitsFromLines(lines: seq<string>)
    ensures |Units(lines)| <= |lines|
    ensures forall u :: u in Units(lines) ==> exists i :: 0 <= i < |lines| && UnitName(lines[i]) == Some(u)
  {
    if lines != [] {
      var init := lines[..|lines| - 1];
      UnitsFromLines(init);
      forall u | u in Units(lines) ensures exists i :: 0 <= i < |lines| && UnitName(lines[i]) == Some(u) {
        if u in Units(init) {
          var i :| 0 <= i < |init| && UnitName(init[i]) == Some(u);
          assert lines[i] == init[i];
        } else {
          assert UnitName(lines[|lines| - 1]) == Some(u);
        }
      }
    }
  }

  /** The arguments of `systemctl list-units` in `GetLogUnits`. */
  const ListUnitsArgs := ["list-units", "--type=service", "--no-pager", "--all"]

  /** `GetLogUnits`, with systemctl a parameter from its arguments to its outcome. */
  method GetLogUnits(systemctl: seq<string> -> Exit) returns (r: Result<seq<string>, string>)
    ensures var x := systemctl(ListUnitsArgs);
            && (x.err.Some? ==> r == Failure("systemctl error: " + x.err.value))
            && (x.err.None? ==> r == Success(Units(Split(x.stdout, '\n'))))
  {
    var x := systemctl(ListUnitsArgs);
    if x.err.Some? {
      return Failure("systemctl error: " + x.err.value);
    }
    var units := ListUnits(x.stdout);
    return Success(units);
  }
}
