/**
 * The server's append-only log file. Every entry is written as
 * `[<timestamp>] <TYPE> | <content>` and a newline; the file starts each server run
 * with a banner. The file is modelled as its text. Writing in text mode on a POSIX
 * system stores the text as it is; reading it back in text mode follows Python's
 * universal newlines (`\r\n` and a lone `\r` are read as `\n`), and `readlines` then
 * cuts the text after every newline, keeping it.
 */
module Logger {
  import opened Optional
  import opened Strings

  // The entry types written by the logger.
  const PublicType := "PUBLIC"
  const PrivateType := "PRIVATE"
  const SystemType := "SYSTEM"
  const ErrorType := "ERROR"

  /** `'=' * 60`. */
  const Rule := Repeat('=', 60)

  /** One log entry line. */
  function Entry(ts: string, logType: string, content: string): (line: string)
    ensures |line| > 0 && line[0] == '[' && line[|line| - 1] == '\n'
    ensures StartsWith(line, "[" + ts + "] " + logType + " | ")
  {
    var head := "[" + ts + "] " + logType + " | ";
    assert (head + content + "\n")[..|head|] == head;
    head + content + "\n"
  }

  /**
   * What is read after a line break `brk` inside an entry's content, when `rest` is the
   * content after the break: the rest of the entry, without the `\n` of a `\r\n` pair.
   */
  function AfterBreak(brk: char, rest: string): string {
    if brk == '\r' then SkipNewline(rest + "\n") else rest + "\n"
  }

  /** An entry whose parts hold no line break is read back as exactly one line. */
  lemma EntryIsOneLine(ts: string, logType: string, content: string)
    requires NoBreak(ts) && NoBreak(logType) && NoBreak(content)
    ensures ReadLines(Entry(ts, logType, content)) == [Entry(ts, logType, content)]
  {
    var line := "[" + ts + "] " + logType + " | " + content;
    assert NoBreak(line);
    ReadOneLine(line);
  }

  /**
   * An entry whose content holds a line break is read back as several lines: the entry
   * cut at the first break, then the lines of whatever follows it.
   */
  lemma EntryAtBreak(ts: string, logType: string, head: string, brk: char, rest: string)
    requires NoBreak(ts) && NoBreak(logType) && NoBreak(head)
    requires brk == '\n' || brk == '\r'
    ensures ReadLines(Entry(ts, logType, head + [brk] + rest))
              == [Entry(ts, logType, head)] + ReadLines(AfterBreak(brk, rest))
  {
    var pre := "[" + ts + "] " + logType + " | " + head;
    assert NoBreak(pre);
    assert Entry(ts, logType, head + [brk] + rest) == pre + [brk] + (rest + "\n");
    ReadLinesAtBreak(pre, rest + "\n");
  }

  /*
   * The content of each kind of entry. Parts without a line break give content without
   * one, so the entry stays one line of the file; parts without `=` give content without
   * `=`, which the dashboard needs to show the line.
   */

  function PublicContent(sender: string, content: string): (r: string)
    ensures NoBreak(sender) && NoBreak(content) ==> NoBreak(r)
    ensures '=' !in sender && '=' !in content ==> '=' !in r
  {
    sender + ": " + content
  }

  function PrivateContent(sender: string, recipient: string, content: string): (r: string)
    ensures NoBreak(sender) && NoBreak(recipient) && NoBreak(content) ==> NoBreak(r)
    ensures '=' !in sender && '=' !in recipient && '=' !in content ==> '=' !in r
  {
    sender + " -> " + recipient + ": " + content
  }

  function JoinContent(nickname: string, address: string): (r: string)
    ensures NoBreak(nickname) && NoBreak(address) ==> NoBreak(r)
    ensures '=' !in nickname && '=' !in address ==> '=' !in r
  {
    nickname + "@" + address + " connected"
  }

  function LeaveContent(nickname: string, address: string): (r: string)
    ensures NoBreak(nickname) && NoBreak(address) ==> NoBreak(r)
    ensures '=' !in nickname && '=' !in address ==> '=' !in r
  {
    nickname + "@" + address + " disconnected"
  }

  function WarningContent(nickname: string, warningCount: int): (r: string)
    ensures NoBreak(nickname) ==> NoBreak(r)
    ensures '=' !in nickname ==> '=' !in r
  {
    var number := IntToString(warningCount);
    PlainNumber(warningCount);
    Glue(nickname, " received rate limit warning #");
    Glue(nickname + " received rate limit warning #", number);
    nickname + " received rate limit warning #" + number
  }

  function MuteContent(nickname: string, duration: int): (r: string)
    ensures NoBreak(nickname) ==> NoBreak(r)
    ensures '=' !in nickname ==> '=' !in r
  {
    var number := IntToString(duration);
    PlainNumber(duration);
    Glue(nickname, " muted for ");
    Glue(nickname + " muted for ", number);
    Glue(nickname + " muted for " + number, "s (sent 16 msgs)");
    nickname + " muted for " + number + "s (sent 16 msgs)"
  }

  /** Text glued from two parts holds a line break, or `=`, exactly when one of the parts does. */
  lemma Glue(a: string, b: string)
    ensures NoBreak(a + b) <==> NoBreak(a) && NoBreak(b)
    ensures '=' in a + b <==> '=' in a || '=' in b
  {
  }

  /** A printed integer holds neither a line break nor `=`. */
  lemma PlainNumber(i: int)
    ensures NoBreak(IntToString(i)) && '=' !in IntToString(i)
  {
    var d := NatToString(if i < 0 then -i else i);
    forall k | 0 <= k < |d| ensures d[k] != '\n' && d[k] != '\r' && d[k] != '=' {
      assert IsDigit(d[k]);
    }
    assert IntToString(i) == (if i < 0 then "-" else "") + d;
  }

  function KickContent(nickname: string): (r: string)
    ensures NoBreak(nickname) ==> NoBreak(r)
    ensures '=' !in nickname ==> '=' !in r
  {
    nickname + " kicked for spamming"
  }

  /**
   * The banner `_init_log_file` appends when the server starts: it begins and ends with
   * a newline, and adds no `\r` of its own.
   */
  function Header(ts: string): (r: string)
    ensures r != "" && r[0] == '\n' && r[|r| - 1] == '\n'
    ensures '\r' !in ts ==> '\r' !in r
  {
    "\n" + Rule + "\n" + "Server Started: " + ts + "\n" + Rule + "\n"
  }

  /** Text that holds no line break, as text-mode reading sees one: neither `\n` nor `\r`. */
  predicate NoBreak(s: string) {
    '\n' !in s && '\r' !in s
  }

  /** Drops one leading `\n`: the second half of a `\r\n` pair. */
  function SkipNewline(s: string): (r: string)
    ensures |r| <= |s|
    ensures s != "" && s[0] == '\n' ==> s == "\n" + r
    ensures (s == "" || s[0] != '\n') ==> r == s
  {
    if s != "" && s[0] == '\n' then s[1..] else s
  }

  /**
   * Reading text in text mode with universal newlines: each `\r\n` and each lone `\r`
   * is read as one `\n`; every other character is read as it is.
   */
  function Translate(text: string): (r: string)
    ensures '\r' !in r
    ensures '\r' !in text ==> r == text
    decreases |text|
  {
    if text == "" then ""
    else if text[0] == '\r' then "\n" + Translate(SkipNewline(text[1..]))
    else [text[0]] + Translate(text[1..])
  }

  /**
   * Dropping the `\n` after a leading `\r` of `a` only looks inside `a`, and what is left
   * of `a` still ends as `a` does.
   */
  lemma SkipNewlineAppend(a: string, b: string)
    requires a != "" && a[0] == '\r' && a[|a| - 1] != '\r'
    ensures SkipNewline(a[1..] + b) == SkipNewline(a[1..]) + b
    ensures var u := SkipNewline(a[1..]); u == "" || u[|u| - 1] == a[|a| - 1]
  {
    var t := a[1..];
    if t != "" && t[0] == '\n' {
      assert (t + b)[1..] == t[1..] + b;
    }
  }

  /** Translating text that does not end inside a `\r\n` pair translates each part on its own. */
  lemma {:induction false} TranslateAppend(a: string, b: string)
    requires a == "" || a[|a| - 1] != '\r'
    ensures Translate(a + b) == Translate(a) + Translate(b)
    decreases |a|
  {
    if a == "" {
      assert a + b == b;
    } else if a[0] == '\r' {
      var t := a[1..];
      var u := SkipNewline(t);
      assert (a + b)[0] == '\r' && (a + b)[1..] == t + b;
      SkipNewlineAppend(a, b);
      calc {
        Translate(a + b);
        "\n" + Translate(u + b);
        { TranslateAppend(u, b); }
        "\n" + (Translate(u) + Translate(b));
        { Assoc("\n", Translate(u), Translate(b)); }
        Translate(a) + Translate(b);
      }
    } else {
      var t := a[1..];
      assert (a + b)[0] == a[0] && (a + b)[1..] == t + b;
      calc {
        Translate(a + b);
        [a[0]] + Translate(t + b);
        { TranslateAppend(t, b); }
        [a[0]] + (Translate(t) + Translate(b));
        { Assoc([a[0]], Translate(t), Translate(b)); }
        Translate(a) + Translate(b);
      }
    }
  }

  /** Text that ends with a newline still ends with one once translated. */
  lemma {:induction false} TranslateEndsLine(a: string)
    requires a != "" && a[|a| - 1] == '\n'
    ensures Translate(a) != "" && Translate(a)[|Translate(a)| - 1] == '\n'
    decreases |a|
  {
    if a[0] == '\r' {
      var u := SkipNewline(a[1..]);
      assert Translate(a) == "\n" + Translate(u);
      if u != "" {
        assert u == a[|a| - |u|..];
        TranslateEndsLine(u);
      }
    } else if |a| > 1 {
      assert Translate(a) == [a[0]] + Translate(a[1..]);
      TranslateEndsLine(a[1..]);
    }
  }

  /**
   * `readlines()` on a file opened in text mode: the text as universal newlines read
   * it, cut after every newline. Text without `\r` is simply cut at its newlines.
   */
  function ReadLines(text: string): (r: seq<string>)
    ensures '\r' !in text ==> r == Lines(text)
    ensures Flatten(r) == Translate(text)
  {
    Lines(Translate(text))
  }

  /** A file that ends with a newline reads as its own lines followed by those of what is appended. */
  lemma ReadLinesAppend(a: string, b: string)
    requires a == "" || a[|a| - 1] == '\n'
    ensures ReadLines(a + b) == ReadLines(a) + ReadLines(b)
  {
    TranslateAppend(a, b);
    if a != "" {
      TranslateEndsLine(a);
    }
    LinesAppend(Translate(a), Translate(b));
  }

  /** A line without a line break, followed by a newline, is read back as exactly that one line. */
  lemma ReadOneLine(line: string)
    requires NoBreak(line)
    ensures ReadLines(line + "\n") == [line + "\n"]
  {
    LinesOfLine(line);
  }

  /**
   * Text is read up to its first line break as one line ending in a newline; after a
   * `\r`, a `\n` that follows belongs to the same break.
   */
  lemma ReadLinesAtBreak(head: string, rest: string)
    requires NoBreak(head)
    ensures ReadLines(head + "\r" + rest) == [head + "\n"] + ReadLines(SkipNewline(rest))
    ensures ReadLines(head + "\n" + rest) == [head + "\n"] + ReadLines(rest)
  {
    BreakTranslated(head, '\r', rest, SkipNewline(rest));
    BreakTranslated(head, '\n', rest, rest);
  }

  /** One half of `ReadLinesAtBreak`: the break `brk` is read as a newline, then `after`. */
  lemma BreakTranslated(head: string, brk: char, rest: string, after: string)
    requires NoBreak(head)
    requires Translate([brk] + rest) == "\n" + Translate(after)
    ensures ReadLines(head + [brk] + rest) == [head + "\n"] + ReadLines(after)
  {
    var t := Translate(after);
    calc {
      Translate(head + [brk] + rest);
      { Assoc(head, [brk], rest); }
      Translate(head + ([brk] + rest));
      { TranslateAppend(head, [brk] + rest); }
      head + ("\n" + t);
      { Assoc(head, "\n", t); }
      (head + "\n") + t;
    }
    LinesOfLine(head);
    LinesAppend(head + "\n", t);
  }

  /** All lines concatenated. */
  function Flatten(lines: seq<string>): string {
    if lines == [] then "" else lines[0] + Flatten(lines[1..])
  }

  /**
   * The cutting step of `readlines()`: the text cut after every `\n`; each line keeps
   * its newline, and a last line without one is kept as it is.
   */
  function Lines(text: string): (r: seq<string>)
    ensures Flatten(r) == text
    decreases |text|
  {
    if text == "" then []
    else match FindChar(text, '\n')
      case None => [text]
      case Some(i) =>
        var line := text[..i + 1];
        var rest := Lines(text[i + 1..]);
        assert text == line + text[i + 1..];
        assert ([line] + rest)[1..] == rest;
        [line] + rest
  }

  /**
   * Every line read is non-empty and holds a newline only as its last character; all
   * but the last line end with one.
   */
  lemma {:induction false} LinesShape(text: string)
    ensures forall k :: 0 <= k < |Lines(text)| ==> Lines(text)[k] != "" && '\n' !in Lines(text)[k][..|Lines(text)[k]| - 1]
    ensures forall k :: 0 <= k < |Lines(text)| - 1 ==> Lines(text)[k][|Lines(text)[k]| - 1] == '\n'
    decreases |text|
  {
    if text != "" {
      match FindChar(text, '\n')
      case None =>
      case Some(i) =>
        var line := text[..i + 1];
        assert line[..|line| - 1] == text[..i];
        LinesShape(text[i + 1..]);
        assert Lines(text) == [line] + Lines(text[i + 1..]);
    }
  }

  /** Text that ends with a newline is read as its own lines followed by whatever is appended. */
  lemma {:induction false} LinesAppend(a: string, b: string)
    requires a == "" || a[|a| - 1] == '\n'
    ensures Lines(a + b) == Lines(a) + Lines(b)
    decreases |a|
  {
    if a == "" {
      assert a + b == b;
    } else {
      var i := FindChar(a, '\n').value;
      var tail := a[i + 1..];
      assert tail == "" || tail[|tail| - 1] == '\n';
      LinesAppend(tail, b);
      LinesStep(a, b, i);
    }
  }

  /** One step of `LinesAppend`: both sides start with the same first line. */
  lemma LinesStep(a: string, b: string, i: nat)
    requires FindChar(a, '\n') == Some(i)
    ensures Lines(a + b) == [a[..i + 1]] + Lines(a[i + 1..] + b)
    ensures Lines(a) == [a[..i + 1]] + Lines(a[i + 1..])
  {
    var ab := a + b;
    assert ab[..i] == a[..i];
    FindCharAt(ab, '\n', i);
    assert ab[..i + 1] == a[..i + 1];
    assert ab[i + 1..] == a[i + 1..] + b;
  }

  /** A newline-free line followed by a newline is read back as exactly one line. */
  lemma LinesOfLine(line: string)
    requires '\n' !in line
    ensures Lines(line + "\n") == [line + "\n"]
  {
    var t := line + "\n";
    assert t[..|line|] == line && t[|line|] == '\n';
    FindCharAt(t, '\n', |line|);
    assert t[..|line| + 1] == t;
    assert t[|line| + 1..] == "";
    assert Lines("") == [];
  }

  /**
   * `get_recent_logs(count)`: `lines[-count:]` when the file has more than `count` lines,
   * otherwise all of them; a missing file gives no lines. Python's `-0 == 0` makes a
   * count of 0 return every line.
   */
  function RecentLogs(file: Option<string>, count: int): (r: seq<string>)
    ensures file.None? ==> r == []
    ensures file.Some? ==> |r| <= |ReadLines(file.value)| && r == ReadLines(file.value)[|ReadLines(file.value)| - |r|..]
    ensures file.Some? && |ReadLines(file.value)| <= count ==> r == ReadLines(file.value)
    ensures file.Some? && 0 < count < |ReadLines(file.value)| ==> |r| == count
    ensures file.Some? && count == 0 ==> r == ReadLines(file.value)
  {
    match file
    case None => []
    case Some(text) =>
      var lines := ReadLines(text);
      if |lines| > count then SliceFrom(lines, -count) else lines
  }

  class ChatLogger {
    /** The text of the log file. */
    var file: string

    /** The file ends with a complete line, as it does after every write of this class. */
    ghost predicate Valid()
      reads this
    {
      file != "" && file[|file| - 1] == '\n'
    }

    /** Open for append (creating the file when `existing` is empty) and write the banner. */
    constructor (existing: string, ts: string)
      ensures Valid()
      ensures file == existing + Header(ts)
    {
      file := existing + Header(ts);
    }

    /** `_write_log`: one entry line is appended and nothing else changes. */
    method WriteLog(logType: string, content: string, ts: string)
      requires Valid()
      modifies this
      ensures Valid()
      ensures file == old(file) + Entry(ts, logType, content)
      ensures ReadLines(file) == ReadLines(old(file)) + ReadLines(Entry(ts, logType, content))
      ensures NoBreak(ts) && NoBreak(logType) && NoBreak(content) ==>
                ReadLines(file) == ReadLines(old(file)) + [Entry(ts, logType, content)]
    {
      ReadLinesAppend(file, Entry(ts, logType, content));
      if NoBreak(ts) && NoBreak(logType) && NoBreak(content) {
        EntryIsOneLine(ts, logType, content);
      }
      file := file + Entry(ts, logType, content);
    }

    method LogPublicMessage(sender: string, content: string, ts: string)
      requires Valid()
      modifies this
      ensures Valid()
      ensures file == old(file) + Entry(ts, PublicType, PublicContent(sender, content))
    {
      WriteLog(PublicType, PublicContent(sender, content), ts);
    }

    method LogPrivateMessage(sender: string, recipient: string, content: string, ts: string)
      requires Valid()
      modifies this
      ensures Valid()
      ensures file == old(file) + Entry(ts, PrivateType, PrivateContent(sender, recipient, content))
    {
      WriteLog(PrivateType, PrivateContent(sender, recipient, content), ts);
    }

    method LogSystemEvent(content: string, ts: string)
      requires Valid()
      modifies this
      ensures Valid()
      ensures file == old(file) + Entry(ts, SystemType, content)
    {
      WriteLog(SystemType, content, ts);
    }

    method LogUserJoin(nickname: string, address: string, ts: string)
      requires Valid()
      modifies this
      ensures Valid()
      ensures file == old(file) + Entry(ts, SystemType, JoinContent(nickname, address))
    {
      WriteLog(SystemType, JoinContent(nickname, address), ts);
    }

    method LogUserLeave(nickname: string, address: string, ts: string)
      requires Valid()
      modifies this
      ensures Valid()
      ensures file == old(file) + Entry(ts, SystemType, LeaveContent(nickname, address))
    {
      WriteLog(SystemType, LeaveContent(nickname, address), ts);
    }

    method LogRateLimitWarning(nickname: string, warningCount: int, ts: string)
      requires Valid()
      modifies this
      ensures Valid()
      ensures file == old(file) + Entry(ts, SystemType, WarningContent(nickname, warningCount))
    {
      WriteLog(SystemType, WarningContent(nickname, warningCount), ts);
    }

    method LogRateLimitMute(nickname: string, duration: int, ts: string)
      requires Valid()
      modifies this
      ensures Valid()
      ensures file == old(file) + Entry(ts, SystemType, MuteContent(nickname, duration))
    {
      WriteLog(SystemType, MuteContent(nickname, duration), ts);
    }

    method LogRateLimitKick(nickname: string, ts: string)
      requires Valid()
      modifies this
      ensures Valid()
      ensures file == old(file) + Entry(ts, SystemType, KickContent(nickname))
    {
      WriteLog(SystemType, KickContent(nickname), ts);
    }

    method LogError(errorMsg: string, ts: string)
      requires Valid()
      modifies this
      ensures Valid()
      ensures file == old(file) + Entry(ts, ErrorType, errorMsg)
    {
      WriteLog(ErrorType, errorMsg, ts);
    }
  }
}
