/**
 * A worked example for the log parser: an ERROR header line followed by two
 * stack-trace lines and an INFO header line.  Every line yields an entry of
 * its own; nothing joins the stack-trace lines to the entry before them.
 */
module LogExample {
  import opened Wrappers
  import opened Text
  import opened LogParse

  const ErrorLine := "2024/01/01 10:00:00 [x] [ERROR] boom"
  const InfoLine := "2024/01/01 10:00:01 [x] [INFO] ok"
  const Trace1 := "stack trace line 1"
  const Trace2 := "stack trace line 2"

  /** The four lines as `journalctl` prints them, in this order. */
  const Output: seq<string> := [ErrorLine, Trace1, Trace2, InfoLine]

  /** A line assembled from the pieces of a header splits into exactly those pieces. */
  lemma SplitsConcat(h: Header)
    requires IsStampText(h.stamp) && '\n' !in h.ctx && h.level != [] && AllUpper(h.level) && '\n' !in h.message
    ensures Splits(h.stamp + " [" + h.ctx + "] [" + h.level + "] " + h.message, h)
  {
    var a := h.stamp + " [";
    var b := a + h.ctx + "] [";
    var c := b + h.level + "] ";
    var l := c + h.message;
    var p := 21 + |h.ctx|;
    var q := p + 3 + |h.level|;
    assert |a| == 21 && |b| == p + 3 && |c| == q + 2;
    assert l[..19] == h.stamp && l[19..21] == " [" by { assert l[..21] == a; }
    assert l[21..p] == h.ctx && l[p..p + 3] == "] [" by { assert l[..p + 3] == b; }
    assert l[p + 3..q] == h.level && l[q..q + 2] == "] " by { assert l[..q + 2] == c; }
    assert l[q + 2..] == h.message;
  }

  /** A line whose character after `stamp [` is not `]` has no reading with an empty context. */
  lemma CtxNonEmpty(l: string, h: Header)
    requires Splits(l, h) && l[21] != ']'
    ensures |h.ctx| >= 1
  {
    var p := 21 + |h.ctx|;
    assert l[p..p + 3][0] == ']';
  }

  lemma ErrorLineParts()
    ensures IsStampText("2024/01/01 10:00:00") && AllUpper("ERROR")
    ensures ErrorLine == "2024/01/01 10:00:00" + " [" + "x" + "] [" + "ERROR" + "] " + "boom"
    ensures ErrorLine[21] == 'x'
  {
  }

  lemma ErrorLineHeader()
    ensures MatchHeader(ErrorLine) == Some(Header("2024/01/01 10:00:00", "x", "ERROR", "boom"))
  {
    var h := Header("2024/01/01 10:00:00", "x", "ERROR", "boom");
    ErrorLineParts();
    SplitsConcat(h);
    forall h' | Splits(ErrorLine, h') ensures |h.ctx| <= |h'.ctx| {
      CtxNonEmpty(ErrorLine, h');
    }
    MatchHeaderIff(ErrorLine, h);
  }

  lemma InfoLineParts()
    ensures IsStampText("2024/01/01 10:00:01") && AllUpper("INFO")
    ensures InfoLine == "2024/01/01 10:00:01" + " [" + "x" + "] [" + "INFO" + "] " + "ok"
    ensures InfoLine[21] == 'x'
  {
  }

  lemma InfoLineHeader()
    ensures MatchHeader(InfoLine) == Some(Header("2024/01/01 10:00:01", "x", "INFO", "ok"))
  {
    var h := Header("2024/01/01 10:00:01", "x", "INFO", "ok");
    InfoLineParts();
    SplitsConcat(h);
    forall h' | Splits(InfoLine, h') ensures |h.ctx| <= |h'.ctx| {
      CtxNonEmpty(InfoLine, h');
    }
    MatchHeaderIff(InfoLine, h);
  }

  lemma TrimError()
    ensures TrimSpace(ErrorLine) == ErrorLine
  {
    assert ErrorLine[0] == '2' && ErrorLine[|ErrorLine| - 1] == 'm';
    TrimSpaceKeeps(ErrorLine);
  }

  lemma TrimInfo()
    ensures TrimSpace(InfoLine) == InfoLine
  {
    assert InfoLine[0] == '2' && InfoLine[|InfoLine| - 1] == 'k';
    TrimSpaceKeeps(InfoLine);
  }

  lemma TrimTrace()
    ensures TrimSpace(Trace1) == Trace1 && TrimSpace(Trace2) == Trace2
  {
    assert Trace1[0] == 's' && Trace1[|Trace1| - 1] == '1';
    TrimSpaceKeeps(Trace1);
    assert Trace2[0] == 's' && Trace2[|Trace2| - 1] == '2';
    TrimSpaceKeeps(Trace2);
  }

  lemma TraceLines(f: LogFilter)
    ensures ParseLogLine(Trace1) == LogEntry(None, "INFO", Trace1) && Kept(Trace1, f)
    ensures ParseLogLine(Trace2) == LogEntry(None, "INFO", Trace2) && Kept(Trace2, f)
  {
  }

  lemma ErrorStamp()
    ensures ParseStamp("2024/01/01 10:00:00") == Some(DateTime(2024, 1, 1, 10, 0, 0))
  {
    var s := "2024/01/01 10:00:00";
    assert IsStampText(s);
    assert Num2(s, 0) == 20 && Num2(s, 2) == 24 && Num2(s, 5) == 1 && Num2(s, 8) == 1;
    assert Num2(s, 11) == 10 && Num2(s, 14) == 0 && Num2(s, 17) == 0;
  }

  lemma InfoStamp()
    ensures ParseStamp("2024/01/01 10:00:01") == Some(DateTime(2024, 1, 1, 10, 0, 1))
  {
    var t := "2024/01/01 10:00:01";
    assert IsStampText(t);
    assert Num2(t, 0) == 20 && Num2(t, 2) == 24 && Num2(t, 5) == 1 && Num2(t, 8) == 1;
    assert Num2(t, 11) == 10 && Num2(t, 14) == 0 && Num2(t, 17) == 1;
  }

  lemma HeaderLines(f: LogFilter)
    ensures ParseLogLine(ErrorLine) == LogEntry(Some(DateTime(2024, 1, 1, 10, 0, 0)), "ERROR", "boom")
    ensures ParseLogLine(InfoLine) == LogEntry(Some(DateTime(2024, 1, 1, 10, 0, 1)), "INFO", "ok")
    ensures Kept(ErrorLine, f) <==> PassesFilter(Header("2024/01/01 10:00:00", "x", "ERROR", "boom"), f)
    ensures Kept(InfoLine, f) <==> PassesFilter(Header("2024/01/01 10:00:01", "x", "INFO", "ok"), f)
  {
    ErrorLineHeader();
    InfoLineHeader();
    ErrorStamp();
    InfoStamp();
  }

  /** With no level or search filter each of the four lines gives exactly one entry. */
  lemma StackTrace(f: LogFilter)
    requires f.level == "" && f.search == ""
    ensures LineParse(ErrorLine, f) == [LogEntry(Some(DateTime(2024, 1, 1, 10, 0, 0)), "ERROR", "boom")]
    ensures LineParse(Trace1, f) == [LogEntry(None, "INFO", "stack trace line 1")]
    ensures LineParse(Trace2, f) == [LogEntry(None, "INFO", "stack trace line 2")]
    ensures LineParse(InfoLine, f) == [LogEntry(Some(DateTime(2024, 1, 1, 10, 0, 1)), "INFO", "ok")]
  {
    TrimError();
    TrimInfo();
    TrimTrace();
    TraceLines(f);
    HeaderLines(f);
  }


  /** The four lines read as one journal output give the four entries, in order. */
  lemma StackTraceParsed(f: LogFilter)
    requires f.level == "" && f.search == ""
    ensures Parsed(Output, f) ==
              [ LogEntry(Some(DateTime(2024, 1, 1, 10, 0, 0)), "ERROR", "boom"),
                LogEntry(None, "INFO", "stack trace line 1"),
                LogEntry(None, "INFO", "stack trace line 2"),
                LogEntry(Some(DateTime(2024, 1, 1, 10, 0, 1)), "INFO", "ok") ]
  {
    StackTrace(f);
    ParsedFour(ErrorLine, Trace1, Trace2, InfoLine, f,
               LogEntry(Some(DateTime(2024, 1, 1, 10, 0, 0)), "ERROR", "boom"),
               LogEntry(None, "INFO", "stack trace line 1"),
               LogEntry(None, "INFO", "stack trace line 2"),
               LogEntry(Some(DateTime(2024, 1, 1, 10, 0, 1)), "INFO", "ok"));
  }

  /** Four lines, each giving one entry on its own, give those four entries in order. */
  lemma ParsedFour(a: string, b: string, c: string, d: string, f: LogFilter,
                   ea: LogEntry, eb: LogEntry, ec: LogEntry, ed: LogEntry)
    requires LineParse(a, f) == [ea] && LineParse(b, f) == [eb]
    requires LineParse(c, f) == [ec] && LineParse(d, f) == [ed]
    ensures Parsed([a, b, c, d], f) == [ea, eb, ec, ed]
  {
    ParsedSplit(a, b, c, d, f);
    assert [ea] + [eb] + [ec] + [ed] == [ea, eb, ec, ed];
  }

  /** Four lines give, in order, what each gives on its own. */
  lemma ParsedSplit(a: string, b: string, c: string, d: string, f: LogFilter)
    ensures Parsed([a, b, c, d], f) == LineParse(a, f) + LineParse(b, f) + LineParse(c, f) + LineParse(d, f)
  {
    ParsedOne(a, f);
    ParsedOne(b, f);
    ParsedOne(c, f);
    ParsedOne(d, f);
    ParsedAppend([a], [b], f);
    ParsedAppend([a, b], [c], f);
    ParsedAppend([a, b, c], [d], f);
    assert [a] + [b] == [a, b];
    assert [a, b] + [c] == [a, b, c];
    assert [a, b, c] + [d] == [a, b, c, d];
  }
}
