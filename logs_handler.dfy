/**
 * The HTTP side of the log viewer: the hand-written substring search, the
 * `lines` default of `GET /api/logs`, the response it builds, and the
 * per-entry filter of the live stream `GET /api/logs/stream`.
 */
module LogHandler {
  import opened Wrappers
  import Text
  import Decimal
  import opened LogParse

  // ---------------------------------------------------------------------
  // indexOf and contains
  // ---------------------------------------------------------------------

  /**
   * `indexOf`: tries every start position from the left and returns the
   * first at which `t` occurs in `s`, or -1 when there is none.
   */
  method IndexOf<T(==)>(s: seq<T>, t: seq<T>) returns (i: int)
    ensures i == -1 || Text.OccursAt(s, t, i)
    ensures forall j :: 0 <= j < i ==> !Text.OccursAt(s, t, j)
    ensures i == -1 <==> !Text.Contains(s, t)
  {
    var k := 0;
    while k <= |s| - |t|
      invariant 0 <= k
      invariant k == 0 || k <= |s| - |t| + 1
      invariant forall j :: 0 <= j < k ==> !Text.OccursAt(s, t, j)
      decreases |s| - |t| + 1 - k
    {
      if s[k..k + |t|] == t {
        return k;
      }
      k := k + 1;
    }
    return -1;
  }

  /**
   * `contains`: a length test, then equality, then `indexOf` only when `s` is
   * strictly longer than `t`.  Together these decide substring containment.
   */
  method Contains<T(==)>(s: seq<T>, t: seq<T>) returns (b: bool)
    ensures b <==> Text.Contains(s, t)
  {
    if |s| < |t| {
      return false;
    }
    if s == t {
      assert Text.OccursAt(s, t, 0);
      return true;
    }
    if |s| == |t| {
      assert !Text.OccursAt(s, t, 0) by {
        assert s[0..|t|] == s;
      }
      return false;
    }
    var i := IndexOf(s, t);
    return i >= 0;
  }

  /** Every sequence contains the empty sequence, also the empty one. */
  lemma ContainsEmpty<T>(s: seq<T>)
    ensures Text.Contains(s, [])
  {
    assert Text.OccursAt(s, [], 0);
  }

  /** A case-sensitive occurrence is also a case-insensitive one. */
  lemma ContainsFold(s: string, t: string)
    requires Text.Contains(s, t)
    ensures Text.ContainsFold(s, t)
  {
    var i :| 0 <= i <= |s| - |t| && Text.OccursAt(s, t, i);
    var ls, lt := Text.ToLower(s), Text.ToLower(t);
    assert ls[i..i + |t|] == lt by {
      forall j | 0 <= j < |t| ensures ls[i..i + |t|][j] == lt[j] {
        assert s[i + j] == t[j];
      }
    }
    assert Text.OccursAt(ls, lt, i);
  }

  // ---------------------------------------------------------------------
  // GET /api/logs
  // ---------------------------------------------------------------------

  /** The query string, one (first) value per key. */
  type Query = map<string, string>

  /** `query.Get(key)`: the value, or "" for a missing key. */
  function QueryGet(q: Query, key: string): (v: string)
    ensures key !in q ==> v == ""
    ensures key in q ==> v == q[key]
  {
    if key in q then q[key] else ""
  }

  const DefaultLines := 100

  /**
   * The `lines` parameter: its value when it parses as an integer above
   * zero, and 100 otherwise (missing, empty, not a number, out of range,
   * zero or negative).
   */
  function ResolveLines(l: string): (n: int)
    ensures 0 < n <= Decimal.IntMax
    ensures (Decimal.Atoi(l).Some? && Decimal.Atoi(l).value > 0) ==> n == Decimal.Atoi(l).value
    ensures !(Decimal.Atoi(l).Some? && Decimal.Atoi(l).value > 0) ==> n == DefaultLines
  {
    if l != "" then
      match Decimal.Atoi(l)
      case Some(v) => if v > 0 then v else DefaultLines
      case None => DefaultLines
    else DefaultLines
  }

  /** A count written out in decimal is read back as itself. */
  lemma ResolveLinesFormat(n: nat)
    requires 0 < n <= Decimal.IntMax
    ensures ResolveLines(Decimal.FormatNat(n)) == n
  {
    Decimal.AtoiFormat(n);
  }

  /** The filter `getLogs` builds from the query string. */
  function RequestFilter(q: Query): (f: LogFilter)
    ensures f.lines > 0
    ensures f.lines == ResolveLines(QueryGet(q, "lines"))
    ensures f.level == QueryGet(q, "level") && f.since == QueryGet(q, "since") && f.search == QueryGet(q, "search")
  {
    LogFilter(ResolveLines(QueryGet(q, "lines")), QueryGet(q, "level"), QueryGet(q, "since"), QueryGet(q, "search"))
  }

  /** The JSON body of a successful `GET /api/logs`. */
  datatype LogResponse = LogResponse(entries: seq<LogEntry>, total: int, unit: string)

  const StatusNotAcceptable := 406
  const StatusInternalServerError := 500

  /**
   * `getLogs`: the filter from the query, `GetLogs` on the service's unit,
   * a 500 with the error text when that fails, and otherwise a response whose
   * `total` is the number of entries it carries.
   */
  method HandleGetLogs(unit: string, q: Query, journalctl: seq<string> -> Exit)
    returns (r: Result<LogResponse, HttpError>)
    ensures var x := journalctl(JournalArgs(unit, RequestFilter(q)));
            && (x.err.Some? ==> r == Failure(HttpError(StatusInternalServerError,
                                   "journalctl error: " + x.err.value + ": " + x.stderr)))
            && (x.err.None? ==> r.Success?
                                && r.value.entries == Parsed(Text.Split(x.stdout, '\n'), RequestFilter(q))
                                && r.value.unit == unit)
    ensures r.Success? ==> r.value.total == |r.value.entries|
  {
    var filter := RequestFilter(q);
    var got := GetLogs(unit, filter, journalctl);
    match got
    case Failure(e) =>
      return Failure(HttpError(StatusInternalServerError, e));
    case Success(entries) =>
      return Success(LogResponse(entries, |entries|, unit));
  }

  // ---------------------------------------------------------------------
  // GET /api/logs/stream
  // ---------------------------------------------------------------------

  /**
   * The stream's own filter: the level compared exactly, the search text
   * looked for case-sensitively and in the message only.  Unlike `parseLogs`
   * it applies to every entry, also those of lines without a header.
   */
  predicate StreamPass(e: LogEntry, f: LogFilter) {
    && (f.level == "" || e.level == f.level)
    && (f.search == "" || Text.Contains(e.message, f.search))
  }

  /** The callback's two early returns, with `contains` for the search. */
  method Admit(e: LogEntry, f: LogFilter) returns (b: bool)
    ensures b <==> StreamPass(e, f)
  {
    if f.level != "" && e.level != f.level {
      return false;
    }
    if f.search != "" {
      var found := Contains(e.message, f.search);
      if !found {
        return false;
      }
    }
    return true;
  }

  /** What one chunk read from `journalctl -f` contributes to the stream. */
  function ChunkEvents(chunk: string, f: LogFilter): seq<LogEntry> {
    var t := Text.TrimSpace(chunk);
    if t != "" && StreamPass(ParseLogLine(t), f) then [ParseLogLine(t)] else []
  }

  /** The events sent for a sequence of chunks, in arrival order. */
  function StreamEvents(chunks: seq<string>, f: LogFilter): seq<LogEntry> {
    if chunks == [] then []
    else StreamEvents(chunks[..|chunks| - 1], f) + ChunkEvents(chunks[|chunks| - 1], f)
  }

  /** The synthetic entry sent when following stops with an error. */
  function ErrorEvent(err: string): (e: LogEntry)
    ensures e.level == "ERROR" && e.timestamp.None?
    ensures Text.HasPrefix(e.message, "Log stream error: ")
    ensures e.message[|"Log stream error: "|..] == err
  {
    LogEntry(None, "ERROR", "Log stream error: " + err)
  }

  /** How a stream request ends. */
  datatype StreamOutcome = Rejected(error: HttpError) | Streamed(events: seq<LogEntry>)

  const EventStream := "text/event-stream"

  /**
   * `streamLogs`, run to the end of the follow: the `Accept` check, the
   * flusher check, then one event per admitted chunk and, when following
   * ended with an error, one final error event.  The chunks `FollowLogs`
   * reads and the error it ends with are inputs here.
   */
  method StreamLogs(accept: string, canFlush: bool, q: Query, chunks: seq<string>, err: Option<string>)
    returns (o: StreamOutcome)
    ensures accept != EventStream ==> o == Rejected(HttpError(StatusNotAcceptable, "Accept: text/event-stream required"))
    ensures accept == EventStream && !canFlush ==> o == Rejected(HttpError(StatusInternalServerError, "Streaming not supported"))
    ensures accept == EventStream && canFlush ==>
              o == Streamed(StreamEvents(chunks, LogFilter(0, QueryGet(q, "level"), "", QueryGet(q, "search")))
                            + (if err.Some? then [ErrorEvent(err.value)] else []))
  {
    if accept != EventStream {
      return Rejected(HttpError(StatusNotAcceptable, "Accept: text/event-stream required"));
    }
    var filter := LogFilter(0, QueryGet(q, "level"), "", QueryGet(q, "search"));
    if !canFlush {
      return Rejected(HttpError(StatusInternalServerError, "Streaming not supported"));
    }
    var events: seq<LogEntry> := [];
    for i := 0 to |chunks|
      invariant events == StreamEvents(chunks[..i], filter)
    {
      assert chunks[..i + 1][..i] == chunks[..i];
      var line := Text.TrimSpace(chunks[i]);
      if line != "" {
        var entry := ParseLogLine(line);
        var pass := Admit(entry, filter);
        if pass {
          events := events + [entry];
        }
      }
    }
    assert chunks[..|chunks|] == chunks;
    if err.Some? {
      events := events + [ErrorEvent(err.value)];
    }
    return Streamed(events);
  }

  /** Streaming preserves arrival order: the events of two runs of chunks concatenate. */
  lemma {:induction false} StreamEventsAppend(a: seq<string>, b: seq<string>, f: LogFilter)
    ensures StreamEvents(a + b, f) == StreamEvents(a, f) + StreamEvents(b, f)
    decreases |b|
  {
    if b == [] {
      assert a + b == a;
    } else {
      var b' := b[..|b| - 1];
      assert (a + b)[..|a + b| - 1] == a + b';
      assert (a + b)[|a + b| - 1] == b[|b| - 1];
      StreamEventsAppend(a, b', f);
    }
  }

  /** Every streamed event passes the stream filter, and there are at most as many as chunks. */
  lemma {:induction false} StreamEventsPass(chunks: seq<string>, f: LogFilter)
    ensures |StreamEvents(chunks, f)| <= |chunks|
    ensures forall e :: e in StreamEvents(chunks, f) ==> StreamPass(e, f)
  {
    if chunks != [] {
      StreamEventsPass(chunks[..|chunks| - 1], f);
    }
  }

  /**
   * The two filters differ on a line without a header: `parseLogs` keeps its
   * INFO entry whatever the filter, while the stream drops it under any level
   * filter other than "INFO".
   */
  lemma PlainLineFilters(line: string, f: LogFilter)
    requires Text.TrimSpace(line) != "" && MatchHeader(Text.TrimSpace(line)).None?
    requires f.level != "" && f.level != "INFO"
    ensures LineParse(line, f) == [LogEntry(None, "INFO", Text.TrimSpace(line))]
    ensures ChunkEvents(line, f) == []
  {
  }

  /**
   * On a header line the stream filter is the stricter of the two: whatever
   * it admits, `parseLogs` keeps under the same level and search.
   */
  lemma HeaderStreamKept(line: string, f: LogFilter)
    requires ChunkEvents(line, f) != []
    ensures LineParse(line, f) == ChunkEvents(line, f)
  {
    var t := Text.TrimSpace(line);
    match MatchHeader(t)
    case None =>
    case Some(h) =>
      if f.search != "" {
        ContainsFold(h.message, f.search);
      }
  }

  /** The search of the stream is case-sensitive where that of `parseLogs` is not. */
  lemma StreamSearchCase()
    ensures Text.ContainsFold("BOOM", "boom")
    ensures !Text.Contains("BOOM", "boom")
  {
    assert Text.ToLower("BOOM") == "boom";
    assert Text.ToLower("boom") == "boom";
    assert Text.OccursAt("boom", "boom", 0);
    assert !Text.OccursAt("BOOM", "boom", 0) by {
      assert "BOOM"[0..4][0] == 'B';
    }
  }
}
