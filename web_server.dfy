/**
 * The data side of the web dashboard: the statistics, the roster and the parsed tail of
 * the log file that the HTTP handlers serve as JSON. The HTTP server, its request
 * handler and the HTML page are outside the model.
 */
module WebServer {
  import opened Optional
  import opened Strings
  import Logger
  import RateLimiter
  import ChatServer

  /** One row of the log view. */
  datatype LogEntry = LogEntry(timestamp: string, logType: string, message: string)

  /** The body of `/api/stats`. */
  datatype Stats = Stats(connectedClients: nat, totalMessages: nat, totalConnections: nat,
                         warnings: nat, mutes: nat, kicks: nat)

  /** How many lines of the log the dashboard reads. */
  const RecentCount := 50

  /**
   * One log line as the dashboard reads it. The stripped line is skipped when it is empty,
   * holds an `=` anywhere, or lacks `[` or `]`. The text between the first character and
   * the first `]` must have at least two words; the second (the time of day) is the
   * timestamp. After the `]` the stripped rest must hold a `|`: the type is what precedes
   * the first `|` and the message what follows it, both stripped.
   */
  function ParseLogLine(raw: string): (r: Option<LogEntry>)
    ensures '=' in Strip(raw) || ']' !in Strip(raw) ==> r.None?
    ensures r.Some? ==> Shown(r.value)
  {
    ParseStripped(Strip(raw))
  }

  /** What every row of the view has: a non-empty timestamp without whitespace, and a type without `|`. */
  predicate Shown(e: LogEntry) {
    e.timestamp != [] && NoSpace(e.timestamp) && '|' !in e.logType
  }

  /** `ParseLogLine` once the line is stripped: only a line with `[` and `]` and no `=` gives a row. */
  function ParseStripped(line: string): (r: Option<LogEntry>)
    ensures r.Some? ==> '=' !in line && '[' in line && ']' in line && Shown(r.value)
  {
    if line == [] || '=' in line then None
    else if !('[' in line && ']' in line) then None
    else
      var end := FindChar(line, ']').value;
      ParseFields(if 1 <= end then line[1..end] else "", line[end + 1..])
  }

  /** The part of the line between `[` and `]`, and the part after `]`. */
  function ParseFields(head: string, after: string): (r: Option<LogEntry>)
    ensures r.Some? ==> r.value.timestamp != [] && NoSpace(r.value.timestamp)
    ensures r.Some? ==> '|' !in r.value.logType
  {
    var words := Words(head);
    if |words| < 2 then None
    else
      var parts := SplitFirst(Strip(after), '|');
      if |parts| < 2 then None
      else
        StripKeepsOut(parts[0], '|');
        Some(LogEntry(words[1], Strip(parts[0]), Strip(parts[1])))
  }

  /** The results of `parse` over `lines` that are present, in order. */
  function Parsed(lines: seq<string>, parse: string -> Option<LogEntry>): (r: seq<LogEntry>)
    ensures |r| <= |lines|
    ensures forall e :: e in r ==> exists x :: x in lines && parse(x) == Some(e)
  {
    if lines == [] then []
    else
      var init := Parsed(lines[..|lines| - 1], parse);
      match parse(lines[|lines| - 1])
      case None => init
      case Some(e) => init + [e]
  }

  /** Parsing a list of lines parses each part separately. */
  lemma {:induction false} ParsedAppend(a: seq<string>, b: seq<string>, parse: string -> Option<LogEntry>)
    ensures Parsed(a + b, parse) == Parsed(a, parse) + Parsed(b, parse)
    decreases |b|
  {
    if b == [] {
      assert a + b == a;
    } else {
      var ab := a + b;
      var init := b[..|b| - 1];
      var x := b[|b| - 1];
      assert ab[..|ab| - 1] == a + init;
      assert ab[|ab| - 1] == x;
      ParsedUnfold(ab, parse);
      ParsedUnfold(b, parse);
      ParsedAppend(a, init, parse);
      Assoc(Parsed(a, parse), Parsed(init, parse), Row(x, parse));
    }
  }

  /** The rows of a non-empty list: those of all but its last line, then the last line's row. */
  lemma ParsedUnfold(lines: seq<string>, parse: string -> Option<LogEntry>)
    requires lines != []
    ensures Parsed(lines, parse) == Parsed(lines[..|lines| - 1], parse) + Row(lines[|lines| - 1], parse)
  {
  }

  /** The rows of one line. */
  function Row(x: string, parse: string -> Option<LogEntry>): seq<LogEntry> {
    match parse(x)
    case None => []
    case Some(e) => [e]
  }

  /** One more line adds its row at the end. */
  lemma ParsedStep(lines: seq<string>, i: nat, parse: string -> Option<LogEntry>)
    requires i < |lines|
    ensures Parsed(lines[..i + 1], parse) == Parsed(lines[..i], parse) + Row(lines[i], parse)
  {
    assert lines[..i + 1][..i] == lines[..i];
  }

  /** A single line gives its own row. */
  lemma ParsedOne(x: string, parse: string -> Option<LogEntry>)
    ensures Parsed([x], parse) == Row(x, parse)
  {
    assert [x][..0] == [];
  }

  /** The loop body of `get_logs` over a list of lines: every line that parses, in order. */
  function ParseLogs(lines: seq<string>): (r: seq<LogEntry>)
    ensures |r| <= |lines|
    ensures forall e :: e in r ==> Shown(e) && exists x :: x in lines && ParseLogLine(x) == Some(e)
  {
    Parsed(lines, ParseLogLine)
  }

  /** An entry line with its pieces grouped from the right. */
  lemma EntryShape(ts: string, logType: string, content: string)
    ensures Logger.Entry(ts, logType, content)
              == "[" + (ts + ("]" + (" " + (logType + (" |" + (" " + content)))))) + "\n"
  {
    var body := logType + (" |" + (" " + content));
    assert "] " == "]" + " " && " | " == " |" + " ";
    Assoc("[" + ts + "] " + logType + " |", " ", content);
    Assoc("[" + ts + "] " + logType, " |", " " + content);
    Assoc("[" + ts + "]", " ", body);
    Assoc("[" + ts, "]", " " + body);
    Assoc("[", ts, "]" + (" " + body));
  }

  /** A stripped line `[<head>]<after>` is cut at its first `]`. */
  lemma BracketedFields(head: string, after: string)
    requires ']' !in head && '=' !in head && '=' !in after
    ensures ParseStripped("[" + (head + ("]" + after))) == ParseFields(head, after)
  {
    BracketAt(head, after);
    BracketSlices(head, after);
    BracketNoEquals(head, after);
  }

  /** The first `]` of `[<head>]<after>` is the one after `head`. */
  lemma BracketAt(head: string, after: string)
    requires ']' !in head
    ensures FindChar("[" + (head + ("]" + after)), ']') == Some(|head| + 1)
  {
    var line := "[" + (head + ("]" + after));
    assert line[|head| + 1] == ']';
    forall j | 0 <= j < |head| + 1 ensures line[j] != ']' {
      if j > 0 { assert line[j] == head[j - 1]; }
    }
    FindCharFirst(line, ']', |head| + 1);
  }

  /** The pieces of `[<head>]<after>` on either side of the `]` after `head`. */
  lemma BracketSlices(head: string, after: string)
    ensures ("[" + (head + ("]" + after)))[1..|head| + 1] == head
    ensures ("[" + (head + ("]" + after)))[|head| + 2..] == after
  {
    var rest := head + ("]" + after);
    var line := "[" + rest;
    assert line[1..] == rest;
    assert line[1..|head| + 1] == rest[..|head|];
    assert line[|head| + 2..] == rest[|head| + 1..];
  }

  /** `[<head>]<after>` has both brackets and, when its parts have none, no `=`. */
  lemma BracketNoEquals(head: string, after: string)
    requires '=' !in head && '=' !in after
    ensures '=' !in "[" + (head + ("]" + after))
    ensures '[' in "[" + (head + ("]" + after)) && ']' in "[" + (head + ("]" + after))
  {
    var line := "[" + (head + ("]" + after));
    assert line[0] == '[';
    assert line[|head| + 1] == ']';
  }

  /** The type is cut off at the first `|`, with the space before it. */
  lemma SplitAtBar(logType: string, tail: string)
    requires '|' !in logType
    ensures SplitFirst(logType + (" |" + tail), '|') == [logType + " ", tail]
  {
    assert " |" + tail == [' '] + (['|'] + tail);
    Assoc(logType, [' '], ['|'] + tail);
    Assoc(logType + [' '], ['|'], tail);
    SplitFirstAt(logType + " ", '|', tail);
  }

  /** A logger entry line without its newline, with its pieces grouped from the right. */
  function Bracketed(ts: string, logType: string, tail: string): string {
    "[" + (ts + ("]" + (" " + (logType + (" |" + tail)))))
  }

  /** Text appended after the content is appended to the line. */
  lemma BracketedAppend(ts: string, logType: string, tail: string, trail: string)
    ensures Bracketed(ts, logType, tail + trail) == Bracketed(ts, logType, tail) + trail
  {
    Assoc(" |", tail, trail);
    Assoc(logType, " |" + tail, trail);
    Assoc(" ", logType + (" |" + tail), trail);
    Assoc("]", " " + (logType + (" |" + tail)), trail);
    Assoc(ts, "]" + (" " + (logType + (" |" + tail))), trail);
    Assoc("[", ts + ("]" + (" " + (logType + (" |" + tail)))), trail);
  }

  /**
   * The part after `]` of a logger entry gives back its type and its content, stripped,
   * when the content does not end in whitespace.
   */
  lemma TypedFields(head: string, logType: string, tail: string)
    requires |Words(head)| >= 2
    requires logType != [] && NoSpace(logType) && '|' !in logType
    requires tail == [] || !IsSpace(tail[|tail| - 1])
    ensures ParseFields(head, " " + (logType + (" |" + tail)))
              == Some(LogEntry(Words(head)[1], logType, Strip(tail)))
  {
    var body := logType + (" |" + tail);
    assert body[0] == logType[0];
    assert body[|body| - 1] == (" |" + tail)[|" |" + tail| - 1];
    StripPadded(" ", body, "");
    assert " " + body + "" == " " + body;
    SplitAtBar(logType, tail);
    TrailingSpaceStripped(logType);
  }

  /** One trailing space is stripped off text that is not padded. */
  lemma TrailingSpaceStripped(s: string)
    requires s != [] && !IsSpace(s[0]) && !IsSpace(s[|s| - 1])
    ensures Strip(s + " ") == s
  {
    StripPadded("", s, " ");
    assert "" + s + " " == s + " ";
  }

  /**
   * A line whose content is `tail` followed by whitespace parses to the stripped `tail`,
   * when `tail` does not itself end in whitespace.
   */
  lemma PaddedEntry(ts: string, logType: string, tail: string, trail: string)
    requires ']' !in ts && '=' !in ts && |Words(ts)| >= 2
    requires logType != [] && NoSpace(logType) && '|' !in logType && '=' !in logType
    requires '=' !in tail && (tail == [] || !IsSpace(tail[|tail| - 1]))
    requires AllSpace(trail)
    ensures ParseLogLine(Bracketed(ts, logType, tail + trail) + "\n")
              == Some(LogEntry(Words(ts)[1], logType, Strip(tail)))
  {
    var after := " " + (logType + (" |" + tail));
    var line := Bracketed(ts, logType, tail);
    calc {
      ParseLogLine(Bracketed(ts, logType, tail + trail) + "\n");
      { BracketedAppend(ts, logType, tail, trail); Assoc(line, trail, "\n"); }
      ParseLogLine(line + (trail + "\n"));
      { BracketedEnds(ts, logType, tail); StripLine(line, trail + "\n"); }
      ParseStripped(line);
      { BracketedFields(ts, after); }
      ParseFields(ts, after);
      { TypedFields(ts, logType, tail); }
      Some(LogEntry(Words(ts)[1], logType, Strip(tail)));
    }
  }

  /** An entry line starts with `[` and ends with its content's last character, or `|`. */
  lemma BracketedEnds(ts: string, logType: string, tail: string)
    requires tail == [] || !IsSpace(tail[|tail| - 1])
    ensures Bracketed(ts, logType, tail) != [] && Bracketed(ts, logType, tail)[0] == '['
    ensures !IsSpace(Bracketed(ts, logType, tail)[|Bracketed(ts, logType, tail)| - 1])
  {
    var line := Bracketed(ts, logType, tail);
    assert line[|line| - 1] == (" |" + tail)[|" |" + tail| - 1];
  }

  /** Whitespace after a line that is not padded is stripped, and nothing else. */
  lemma StripLine(line: string, trail: string)
    requires line != [] && !IsSpace(line[0]) && !IsSpace(line[|line| - 1])
    requires AllSpace(trail)
    ensures Strip(line + trail) == line
  {
    StripPadded("", line, trail);
    assert "" + line + trail == line + trail;
  }

  /**
   * The content of an entry, after the space that precedes it, as the part `strip()`
   * keeps with the whitespace before it, and the whitespace after it.
   */
  lemma ContentParts(content: string) returns (tail: string, trail: string)
    ensures " " + content == tail + trail
    ensures tail == [] || !IsSpace(tail[|tail| - 1])
    ensures AllSpace(trail)
    ensures Strip(tail) == Strip(content)
    ensures '=' !in content ==> '=' !in tail
  {
    var lead, rest := StripSplits(content);
    var core := Strip(content);
    if core == [] {
      tail, trail := [], " " + content;
      BlankContent(content, lead, rest);
    } else {
      tail, trail := " " + lead + core, rest;
      CoreContent(content, lead, core, rest);
    }
  }

  /** Content that `strip()` empties is whitespace throughout, and so is the space before it. */
  lemma BlankContent(content: string, lead: string, rest: string)
    requires AllSpace(lead) && AllSpace(rest) && content == lead + [] + rest
    ensures AllSpace(" " + content)
  {
    forall i | 0 <= i < |" " + content| ensures IsSpace((" " + content)[i]) {
      if i > 0 {
        assert (" " + content)[i] == content[i - 1];
        if i - 1 < |lead| {
          assert content[i - 1] == lead[i - 1];
        } else {
          assert content[i - 1] == rest[i - 1 - |lead|];
        }
      }
    }
  }

  /** Content with something left by `strip()`: the space, the leading whitespace and the core. */
  lemma CoreContent(content: string, lead: string, core: string, rest: string)
    requires AllSpace(lead) && content == lead + core + rest
    requires core != [] && !IsSpace(core[0]) && !IsSpace(core[|core| - 1])
    ensures " " + content == (" " + lead + core) + rest
    ensures !IsSpace((" " + lead + core)[|" " + lead + core| - 1])
    ensures Strip(" " + lead + core) == core
    ensures '=' !in content ==> '=' !in " " + lead + core
  {
    var tail := " " + lead + core;
    Assoc(" " + lead, core, rest);
    Assoc(" ", lead, core + rest);
    Assoc(lead, core, rest);
    assert tail[|tail| - 1] == core[|core| - 1];
    StripPadded(" " + lead, core, "");
    assert " " + lead + core + "" == tail;
    assert '=' !in content ==> '=' !in lead && '=' !in core;
  }

  /**
   * An entry written by the logger is read back by the dashboard: the time of day from its
   * timestamp, its type and its content stripped, when the timestamp has a date and a
   * time and no `]`, the type is one word without `|`, and none of the three holds an `=`.
   */
  lemma EntryRoundTrip(ts: string, logType: string, content: string)
    requires ']' !in ts && '=' !in ts && |Words(ts)| >= 2
    requires logType != [] && NoSpace(logType) && '|' !in logType && '=' !in logType
    requires '=' !in content
    ensures ParseLogLine(Logger.Entry(ts, logType, content))
              == Some(LogEntry(Words(ts)[1], logType, Strip(content)))
  {
    var tail, trail := ContentParts(content);
    calc {
      ParseLogLine(Logger.Entry(ts, logType, content));
      { EntryShape(ts, logType, content); }
      ParseLogLine(Bracketed(ts, logType, tail + trail) + "\n");
      { PaddedEntry(ts, logType, tail, trail); }
      Some(LogEntry(Words(ts)[1], logType, Strip(tail)));
    }
  }

  /** The lines of the banner: an empty line, a rule, the start line and a rule. */
  lemma HeaderLines(ts: string)
    requires Logger.NoBreak(ts)
    ensures Logger.ReadLines(Logger.Header(ts))
              == ["\n", Logger.Rule + "\n", "Server Started: " + ts + "\n", Logger.Rule + "\n"]
  {
    assert '\r' !in Logger.Rule;
    assert '\r' !in Logger.Header(ts);
    HeaderShape(ts);
    BlankLine();
    RuleLine();
    StartLine(ts);
    FourLines("\n", Logger.Rule + "\n", "Server Started: " + ts + "\n", Logger.Rule + "\n");
  }

  lemma BlankLine()
    ensures Logger.Lines("\n") == ["\n"]
  {
    Logger.LinesOfLine("");
    assert "" + "\n" == "\n";
  }

  lemma RuleLine()
    ensures Logger.Lines(Logger.Rule + "\n") == [Logger.Rule + "\n"]
  {
    assert '\n' !in Logger.Rule;
    Logger.LinesOfLine(Logger.Rule);
  }

  lemma StartLine(ts: string)
    requires '\n' !in ts
    ensures Logger.Lines("Server Started: " + ts + "\n") == ["Server Started: " + ts + "\n"]
  {
    assert '\n' !in "Server Started: " + ts;
    Logger.LinesOfLine("Server Started: " + ts);
  }

  /** The banner as four newline-terminated pieces. */
  lemma HeaderShape(ts: string)
    ensures Logger.Header(ts)
              == "\n" + ((Logger.Rule + "\n") + (("Server Started: " + ts + "\n") + (Logger.Rule + "\n")))
  {
    var r := Logger.Rule + "\n";
    var start := "Server Started: " + ts;
    var s := start + "\n";
    var x := "\n" + Logger.Rule + "\n";
    Assoc("\n", Logger.Rule, "\n");
    Assoc(x, "Server Started: ", ts);
    Assoc(x, start, "\n");
    Assoc(x + s, Logger.Rule, "\n");
    Assoc("\n" + r, s, r);
    Assoc("\n", r, s + r);
  }

  /** Four pieces that are one line each make four lines. */
  lemma FourLines(a: string, b: string, c: string, d: string)
    requires a != [] && a[|a| - 1] == '\n' && Logger.Lines(a) == [a]
    requires b != [] && b[|b| - 1] == '\n' && Logger.Lines(b) == [b]
    requires c != [] && c[|c| - 1] == '\n' && Logger.Lines(c) == [c]
    requires Logger.Lines(d) == [d]
    ensures Logger.Lines(a + (b + (c + d))) == [a, b, c, d]
  {
    Logger.LinesAppend(c, d);
    Logger.LinesAppend(b, c + d);
    Logger.LinesAppend(a, b + (c + d));
    Four(a, b, c, d);
  }

  lemma Four<T>(a: T, b: T, c: T, d: T)
    ensures [a] + ([b] + ([c] + [d])) == [a, b, c, d]
  {
  }

  /** A list of lines none of which parses gives no rows. */
  lemma {:induction false} ParsedNone(lines: seq<string>, parse: string -> Option<LogEntry>)
    requires forall i :: 0 <= i < |lines| ==> parse(lines[i]).None?
    ensures Parsed(lines, parse) == []
  {
    if lines != [] {
      ParsedNone(lines[..|lines| - 1], parse);
    }
  }

  /** The empty line of the banner strips to nothing. */
  lemma BlankInvisible()
    ensures ParseLogLine("\n") == None
  {
    StripPadded("\n", "", "");
    assert "\n" + "" + "" == "\n";
  }

  /** A rule of the banner holds `=`. */
  lemma RuleInvisible()
    ensures ParseLogLine(Logger.Rule + "\n") == None
  {
    StripPadded("", Logger.Rule, "\n");
    assert "" + Logger.Rule + "\n" == Logger.Rule + "\n";
    assert Logger.Rule[0] == '=';
  }

  /** The start line of the banner has no `]` when the timestamp has none. */
  lemma StartInvisible(ts: string)
    requires ']' !in ts
    ensures ParseLogLine("Server Started: " + ts + "\n") == None
  {
    var start := "Server Started: " + ts + "\n";
    assert ']' !in start;
    StripKeepsOut(start, ']');
  }

  /**
   * The banner written at every server start never shows up on the dashboard: its empty
   * line strips to nothing, its rules hold `=`, and its start line has no `]` (when the
   * timestamp has none).
   */
  lemma HeaderInvisible(ts: string)
    requires Logger.NoBreak(ts) && ']' !in ts
    ensures ParseLogs(Logger.ReadLines(Logger.Header(ts))) == []
  {
    HeaderLines(ts);
    BlankInvisible();
    RuleInvisible();
    StartInvisible(ts);
    ParsedFourNone("\n", Logger.Rule + "\n", "Server Started: " + ts + "\n", Logger.Rule + "\n", ParseLogLine);
  }

  /** Four lines none of which parses give no rows. */
  lemma ParsedFourNone(a: string, b: string, c: string, d: string, parse: string -> Option<LogEntry>)
    requires parse(a).None? && parse(b).None? && parse(c).None? && parse(d).None?
    ensures Parsed([a, b, c, d], parse) == []
  {
    ParsedNone([a, b, c, d], parse);
  }

  /**
   * Appending an entry whose content holds no line break adds exactly that entry at the
   * end of what the dashboard parses from the whole file.
   */
  lemma AppendedEntryParsed(text: string, ts: string, logType: string, content: string)
    requires text == [] || text[|text| - 1] == '\n'
    requires Logger.NoBreak(ts) && ']' !in ts && '=' !in ts && |Words(ts)| >= 2
    requires logType != [] && NoSpace(logType) && '|' !in logType && '=' !in logType
    requires '=' !in content && Logger.NoBreak(content)
    ensures ParseLogs(Logger.ReadLines(text + Logger.Entry(ts, logType, content)))
              == ParseLogs(Logger.ReadLines(text)) + [LogEntry(Words(ts)[1], logType, Strip(content))]
  {
    var e := Logger.Entry(ts, logType, content);
    NoSpaceNoBreak(logType);
    Logger.EntryIsOneLine(ts, logType, content);
    Logger.ReadLinesAppend(text, e);
    ParsedAppend(Logger.ReadLines(text), [e], ParseLogLine);
    ParsedOne(e, ParseLogLine);
    EntryRoundTrip(ts, logType, content);
  }

  /**
   * Appending an entry whose content holds a line break (`head`, then the first break
   * `brk`, then `rest`): the dashboard shows the row of the entry cut at the break,
   * followed by the rows, if any, of the lines that the rest of the content forms.
   */
  lemma AppendedBrokenEntryParsed(text: string, ts: string, logType: string, head: string, brk: char, rest: string)
    requires text == [] || text[|text| - 1] == '\n'
    requires Logger.NoBreak(ts) && ']' !in ts && '=' !in ts && |Words(ts)| >= 2
    requires logType != [] && NoSpace(logType) && '|' !in logType && '=' !in logType
    requires '=' !in head && Logger.NoBreak(head)
    requires brk == '\n' || brk == '\r'
    ensures ParseLogs(Logger.ReadLines(text + Logger.Entry(ts, logType, head + [brk] + rest)))
              == ParseLogs(Logger.ReadLines(text)) + [LogEntry(Words(ts)[1], logType, Strip(head))]
                 + ParseLogs(Logger.ReadLines(Logger.AfterBreak(brk, rest)))
  {
    var e := Logger.Entry(ts, logType, head + [brk] + rest);
    var first := Logger.Entry(ts, logType, head);
    var after := Logger.ReadLines(Logger.AfterBreak(brk, rest));
    NoSpaceNoBreak(logType);
    Logger.EntryAtBreak(ts, logType, head, brk, rest);
    Logger.ReadLinesAppend(text, e);
    ParsedAppend(Logger.ReadLines(text), [first] + after, ParseLogLine);
    ParsedAppend([first], after, ParseLogLine);
    ParsedOne(first, ParseLogLine);
    EntryRoundTrip(ts, logType, head);
    Assoc(ParseLogs(Logger.ReadLines(text)), [LogEntry(Words(ts)[1], logType, Strip(head))], ParseLogs(after));
  }

  /** A one-word type holds no line break. */
  lemma NoSpaceNoBreak(s: string)
    requires NoSpace(s)
    ensures Logger.NoBreak(s)
  {
    assert IsSpace('\n') && IsSpace('\r');
  }

  /** The newest entry of the file is the last row of the dashboard's log view. */
  lemma NewestEntryLast(text: string, ts: string, logType: string, content: string)
    requires text == [] || text[|text| - 1] == '\n'
    requires Logger.NoBreak(ts) && ']' !in ts && '=' !in ts && |Words(ts)| >= 2
    requires logType != [] && NoSpace(logType) && '|' !in logType && '=' !in logType
    requires '=' !in content && Logger.NoBreak(content)
    ensures Newest(ParseLogs(Logger.RecentLogs(Some(text + Logger.Entry(ts, logType, content)), RecentCount)))
              == Some(LogEntry(Words(ts)[1], logType, Strip(content)))
  {
    NoSpaceNoBreak(logType);
    Logger.EntryIsOneLine(ts, logType, content);
    EntryRoundTrip(ts, logType, content);
    LastLineLastRow(text, Logger.Entry(ts, logType, content), LogEntry(Words(ts)[1], logType, Strip(content)));
  }

  /** The last row of a view, if there is one. */
  function Newest(rows: seq<LogEntry>): Option<LogEntry> {
    if rows == [] then None else Some(rows[|rows| - 1])
  }

  /** A complete line appended to the file gives the last row of the view, when it parses. */
  lemma LastLineLastRow(text: string, line: string, row: LogEntry)
    requires text == [] || text[|text| - 1] == '\n'
    requires Logger.ReadLines(line) == [line] && ParseLogLine(line) == Some(row)
    ensures Newest(ParseLogs(Logger.RecentLogs(Some(text + line), RecentCount))) == Some(row)
  {
    var recent := Logger.RecentLogs(Some(text + line), RecentCount);
    assert recent != [] && recent[|recent| - 1] == line by {
      var lines := Logger.ReadLines(text + line);
      Logger.ReadLinesAppend(text, line);
      assert lines[|lines| - 1] == line;
    }
    LastRow(recent, ParseLogLine, row);
    var logs := ParseLogs(recent);
    assert logs == Parsed(recent[..|recent| - 1], ParseLogLine) + [row];
  }

  /** The row of the last line, when it has one, is the last row. */
  lemma LastRow(lines: seq<string>, parse: string -> Option<LogEntry>, row: LogEntry)
    requires lines != [] && parse(lines[|lines| - 1]) == Some(row)
    ensures Parsed(lines, parse) == Parsed(lines[..|lines| - 1], parse) + [row]
  {
  }

  /** A roster without repeats that lists exactly the registered names is as long as the table. */
  lemma {:induction false} RosterCount(names: seq<string>, keys: set<string>)
    requires ChatServer.Distinct(names)
    requires forall n :: n in keys <==> n in names
    ensures |keys| == |names|
  {
    if names != [] {
      var init, last := names[..|names| - 1], names[|names| - 1];
      assert names == init + [last];
      assert ChatServer.Distinct(init);
      assert last !in init by {
        forall i | 0 <= i < |init| ensures init[i] != last {
          assert init[i] == names[i];
        }
      }
      assert forall n :: n in keys - {last} <==> n in init;
      RosterCount(init, keys - {last});
    }
  }

  /**
   * The loop of `get_logs`: each line is handed to the parser, and the entries of those
   * that parse are kept in order.
   */
  method ParseLines(recent: seq<string>, parse: string -> Option<LogEntry>) returns (logs: seq<LogEntry>)
    ensures logs == Parsed(recent, parse)
  {
    logs := [];
    var i := 0;
    while i < |recent|
      invariant 0 <= i <= |recent|
      invariant logs == Parsed(recent[..i], parse)
    {
      ParsedStep(recent, i, parse);
      var entry := parse(recent[i]);
      if entry.Some? {
        logs := logs + [entry.value];
      }
      i := i + 1;
    }
    assert recent[..i] == recent;
  }

  class WebServer {
    /** The chat server the dashboard reads, if any. */
    const chatServer: ChatServer.ChatServer?

    constructor (chatServer: ChatServer.ChatServer?)
      ensures this.chatServer == chatServer
    {
      this.chatServer := chatServer;
    }

    /**
     * `get_stats`: zeros without a chat server; otherwise the number of registered names,
     * the server's message and connection counts, and the rate limiter's totals.
     */
    method GetStats() returns (s: Stats)
      requires chatServer != null ==> chatServer.Valid()
      ensures chatServer == null ==> s == Stats(0, 0, 0, 0, 0, 0)
      ensures chatServer != null ==>
                && s.connectedClients == |chatServer.names|
                && s.totalMessages == chatServer.messageCount
                && s.totalConnections == chatServer.totalConnections
                && s.warnings == chatServer.limiter.totalWarnings
                && s.mutes == chatServer.limiter.totalMutes
                && s.kicks == chatServer.limiter.totalKicks
    {
      if chatServer == null {
        return Stats(0, 0, 0, 0, 0, 0);
      }
      var connected := |chatServer.clients|;
      RosterCount(chatServer.names, chatServer.clients.Keys);
      var rate := chatServer.limiter.GetStatistics();
      s := Stats(connected, chatServer.messageCount, chatServer.totalConnections,
                 rate.totalWarnings, rate.totalMutes, rate.totalKicks);
    }

    /** `get_users`: the registered names in table order; none without a chat server. */
    method GetUsers() returns (users: seq<string>)
      requires chatServer != null ==> chatServer.Valid()
      ensures chatServer == null ==> users == []
      ensures chatServer != null ==>
                && users == chatServer.names
                && (forall n :: n in users <==> n in chatServer.clients)
                && ChatServer.Distinct(users)
    {
      if chatServer == null {
        return [];
      }
      users := chatServer.names;
    }

    /**
     * `get_logs`: the last 50 lines of the log file (all of them when there are at most
     * 50), parsed one at a time; nothing without a chat server.
     */
    method GetLogs() returns (logs: seq<LogEntry>)
      ensures chatServer == null ==> logs == []
      ensures chatServer != null ==> logs == ParseLogs(Logger.RecentLogs(Some(chatServer.logger.file), RecentCount))
    {
      if chatServer == null {
        return [];
      }
      var lines := Logger.ReadLines(chatServer.logger.file);
      var recent := if |lines| > RecentCount then lines[|lines| - RecentCount..] else lines;
      assert recent == Logger.RecentLogs(Some(chatServer.logger.file), RecentCount);
      logs := ParseLines(recent, ParseLogLine);
    }
  }
}
