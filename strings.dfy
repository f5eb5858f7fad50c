/**
 * The pieces of Python's `str` that the chat relay relies on: `isspace`, `strip`,
 * `startswith`, `split` (with and without a separator, with `maxsplit=1`), `join`,
 * `in`, slicing with negative bounds, `int(...)` and `str(int)`.
 * Each is stated once here and used by every other module.
 */
module Strings {
  import opened Optional

  // ---------------------------------------------------------------------------
  // Characters

  /** Concatenation regrouped. */
  lemma Assoc<T>(a: seq<T>, b: seq<T>, c: seq<T>)
    ensures a + b + c == a + (b + c)
  {
  }

  /** Python's `str.isspace()` for a single character. */
  predicate IsSpace(c: char) {
    var n := c as int;
    n == 0x20 || 0x09 <= n <= 0x0D || 0x1C <= n <= 0x1F || n == 0x85 || n == 0xA0
    || n == 0x1680 || 0x2000 <= n <= 0x200A || n == 0x2028 || n == 0x2029
    || n == 0x202F || n == 0x205F || n == 0x3000
  }

  predicate NoSpace(s: string) {
    forall i :: 0 <= i < |s| ==> !IsSpace(s[i])
  }

  predicate IsDigit(c: char) {
    '0' <= c <= '9'
  }

  predicate AllDigits(s: string) {
    forall i :: 0 <= i < |s| ==> IsDigit(s[i])
  }

  /** `s.startswith(prefix)`. */
  predicate StartsWith(s: string, prefix: string) {
    |prefix| <= |s| && s[..|prefix|] == prefix
  }

  /** `f"{x}"` for a value that is a string or `None`: `None` prints as the text "None". */
  function Show(x: Option<string>): (r: string)
    ensures x.Some? ==> r == x.value
    ensures x.None? ==> r == "None"
  {
    x.GetOr("None")
  }

  // ---------------------------------------------------------------------------
  // Python slicing with possibly negative bounds

  function Min(a: int, b: int): int { if a <= b then a else b }
  function Max(a: int, b: int): int { if a <= b then b else a }

  /** `s[:k]`: a negative `k` counts from the end; the bound is clamped to the sequence. */
  function SliceTo<T>(s: seq<T>, k: int): (r: seq<T>)
    ensures |r| <= |s| && r == s[..|r|]
    ensures 0 <= k <= |s| ==> |r| == k
    ensures -|s| <= k < 0 ==> |r| == |s| + k
  {
    if k >= 0 then s[..Min(k, |s|)] else s[..Max(0, |s| + k)]
  }

  /** `s[k:]`: a negative `k` counts from the end; the bound is clamped to the sequence. */
  function SliceFrom<T>(s: seq<T>, k: int): (r: seq<T>)
    ensures |r| <= |s| && r == s[|s| - |r|..]
    ensures 0 <= k <= |s| ==> |r| == |s| - k
    ensures -|s| <= k < 0 ==> |r| == -k
  {
    if k >= 0 then s[Min(k, |s|)..] else s[Max(0, |s| + k)..]
  }

  /** `c * n`: the character repeated `n` times. */
  function Repeat(c: char, n: nat): (r: string)
    ensures |r| == n
    ensures forall i :: 0 <= i < n ==> r[i] == c
  {
    if n == 0 then "" else [c] + Repeat(c, n - 1)
  }

  // ---------------------------------------------------------------------------
  // strip()

  function LStrip(s: string): (r: string)
    ensures |r| <= |s| && r == s[|s| - |r|..]
    ensures forall i :: 0 <= i < |s| - |r| ==> IsSpace(s[i])
    ensures r == [] || !IsSpace(r[0])
    decreases |s|
  {
    if s != [] && IsSpace(s[0]) then LStrip(s[1..]) else s
  }

  function RStrip(s: string): (r: string)
    ensures |r| <= |s| && r == s[..|r|]
    ensures forall i :: |r| <= i < |s| ==> IsSpace(s[i])
    ensures r == [] || !IsSpace(r[|r| - 1])
    decreases |s|
  {
    if s != [] && IsSpace(s[|s| - 1]) then RStrip(s[..|s| - 1]) else s
  }

  /** `s.strip()`: the text without its leading and trailing whitespace. */
  function Strip(s: string): (r: string)
    ensures |r| <= |s|
    ensures r == [] || (!IsSpace(r[0]) && !IsSpace(r[|r| - 1]))
  {
    RStrip(LStrip(s))
  }

  predicate AllSpace(s: string) {
    forall i :: 0 <= i < |s| ==> IsSpace(s[i])
  }

  /** `strip()` keeps the middle of the text: what it removes is whitespace before and after. */
  lemma StripSplits(s: string) returns (lead: string, trail: string)
    ensures AllSpace(lead) && AllSpace(trail)
    ensures s == lead + Strip(s) + trail
  {
    var l := LStrip(s);
    lead := LStripped(s);
    trail := RStripped(l);
    Assoc(lead, RStrip(l), trail);
  }

  /** What `lstrip()` removes: whitespace in front of what it keeps. */
  lemma LStripped(s: string) returns (lead: string)
    ensures AllSpace(lead) && s == lead + LStrip(s)
  {
    var l := LStrip(s);
    var k := |s| - |l|;
    lead := s[..k];
    assert AllSpace(lead) by {
      forall i | 0 <= i < k ensures IsSpace(lead[i]) {
        assert lead[i] == s[i];
      }
    }
    assert s == s[..k] + s[k..];
  }

  /** What `rstrip()` removes: whitespace after what it keeps. */
  lemma RStripped(s: string) returns (trail: string)
    ensures AllSpace(trail) && s == RStrip(s) + trail
  {
    var r := RStrip(s);
    trail := s[|r|..];
    forall i | 0 <= i < |trail| ensures IsSpace(trail[i]) {
      assert trail[i] == s[|r| + i];
    }
    assert r == s[..|r|];
  }

  /** Text that neither begins nor ends with whitespace is its own `strip()`. */
  lemma StripUntrimmed(s: string)
    requires s == [] || (!IsSpace(s[0]) && !IsSpace(s[|s| - 1]))
    ensures Strip(s) == s
  {
  }

  /** Leading whitespace does not change the result of `strip()`. */
  lemma StripAfterSpaces(w: string, s: string)
    requires forall i :: 0 <= i < |w| ==> IsSpace(w[i])
    ensures Strip(w + s) == Strip(s)
  {
    LStripAfterSpaces(w, s);
  }

  lemma {:induction false} LStripAfterSpaces(w: string, s: string)
    requires forall i :: 0 <= i < |w| ==> IsSpace(w[i])
    ensures LStrip(w + s) == LStrip(s)
  {
    if w != [] {
      assert IsSpace((w + s)[0]);
      assert (w + s)[1..] == w[1..] + s;
      assert LStrip(w + s) == LStrip(w[1..] + s);
      LStripAfterSpaces(w[1..], s);
    } else {
      assert w + s == s;
    }
  }

  /** Trailing whitespace does not change the result of `strip()`. */
  lemma {:induction false} RStripBeforeSpaces(s: string, w: string)
    requires forall i :: 0 <= i < |w| ==> IsSpace(w[i])
    ensures RStrip(s + w) == RStrip(s)
    decreases |w|
  {
    if w != [] {
      assert IsSpace((s + w)[|s + w| - 1]);
      assert (s + w)[..|s + w| - 1] == s + w[..|w| - 1];
      assert RStrip(s + w) == RStrip(s + w[..|w| - 1]);
      RStripBeforeSpaces(s, w[..|w| - 1]);
    } else {
      assert s + w == s;
    }
  }

  /** Stripping text that starts with a non-space character only trims its end. */
  lemma StripFromNonSpace(s: string)
    requires s != [] && !IsSpace(s[0])
    ensures Strip(s) == RStrip(s)
  {
  }

  /** `strip()` only removes characters. */
  lemma StripKeepsOut(s: string, c: char)
    requires c !in s
    ensures c !in Strip(s)
  {
    var l := LStrip(s);
    assert c !in l by {
      forall j | 0 <= j < |l| ensures l[j] != c {
        assert l[j] == s[|s| - |l| + j];
      }
    }
    var r := RStrip(l);
    assert c !in r by {
      forall j | 0 <= j < |r| ensures r[j] != c {
        assert r[j] == l[j];
      }
    }
    assert Strip(s) == r;
  }

  /** Text that neither begins nor ends with whitespace survives `strip()` of any whitespace padding. */
  lemma StripPadded(w1: string, s: string, w2: string)
    requires forall i :: 0 <= i < |w1| ==> IsSpace(w1[i])
    requires forall i :: 0 <= i < |w2| ==> IsSpace(w2[i])
    requires s == [] || (!IsSpace(s[0]) && !IsSpace(s[|s| - 1]))
    ensures Strip(w1 + s + w2) == s
  {
    assert w1 + s + w2 == w1 + (s + w2);
    StripAfterSpaces(w1, s + w2);
    if s == [] {
      assert s + w2 == w2;
    } else {
      StripFromNonSpace(s + w2);
      RStripBeforeSpaces(s, w2);
      StripUntrimmed(s);
      StripFromNonSpace(s);
    }
  }

  // ---------------------------------------------------------------------------
  // split(sep) for a one-character separator, split(sep, 1), join

  /** The first index of `c` in `s` (`s.find(c)`, absent instead of -1). */
  function FindChar(s: string, c: char): (r: Option<nat>)
    ensures r.None? <==> c !in s
    ensures r.Some? ==> r.value < |s| && s[r.value] == c && c !in s[..r.value]
    decreases |s|
  {
    if s == [] then None
    else if s[0] == c then Some(0)
    else match FindChar(s[1..], c)
      case None => None
      case Some(i) =>
        assert s[..i + 1] == [s[0]] + s[1..][..i];
        Some(i + 1)
  }

  /** The first occurrence is unique: an index holding `c` with no `c` before it is what `FindChar` finds. */
  lemma FindCharAt(s: string, c: char, i: nat)
    requires i < |s| && s[i] == c && c !in s[..i]
    ensures FindChar(s, c) == Some(i)
  {
  }

  /** The first occurrence, stated index by index. */
  lemma FindCharFirst(s: string, c: char, i: nat)
    requires i < |s| && s[i] == c
    requires forall j :: 0 <= j < i ==> s[j] != c
    ensures FindChar(s, c) == Some(i)
  {
    assert forall j :: 0 <= j < i ==> s[..i][j] == s[j];
    FindCharAt(s, c, i);
  }

  /** `s.split(sep)`: the pieces between the occurrences of `sep`, empty pieces kept. */
  function Split(s: string, sep: char): (r: seq<string>)
    ensures |r| >= 1
    ensures forall k :: 0 <= k < |r| ==> sep !in r[k]
    decreases |s|
  {
    match FindChar(s, sep)
    case None => [s]
    case Some(i) => [s[..i]] + Split(s[i + 1..], sep)
  }

  /** `s.split(sep, 1)`: at most one cut, at the first occurrence. */
  function SplitFirst(s: string, sep: char): (r: seq<string>)
    ensures 1 <= |r| <= 2
    ensures |r| == 1 <==> sep !in s
    ensures |r| == 1 ==> r[0] == s
    ensures |r| == 2 ==> sep !in r[0] && s == r[0] + [sep] + r[1]
  {
    match FindChar(s, sep)
    case None => [s]
    case Some(i) =>
      assert s == s[..i] + [sep] + s[i + 1..];
      [s[..i], s[i + 1..]]
  }

  /** `split(sep, 1)` cuts at the first separator: the part before it and everything after. */
  lemma SplitFirstAt(a: string, sep: char, b: string)
    requires sep !in a
    ensures SplitFirst(a + [sep] + b, sep) == [a, b]
  {
    var s := a + [sep] + b;
    assert s[..|a|] == a && s[|a|] == sep && s[|a| + 1..] == b;
    FindCharAt(s, sep, |a|);
  }

  /** `sep.join(parts)`. */
  function Join(sep: string, parts: seq<string>): string
  {
    if |parts| == 0 then ""
    else if |parts| == 1 then parts[0]
    else parts[0] + sep + Join(sep, parts[1..])
  }

  /** Joining one more part adds the separator and that part at the end. */
  lemma {:induction false} JoinSnoc(sep: string, parts: seq<string>, last: string)
    requires |parts| >= 1
    ensures Join(sep, parts + [last]) == Join(sep, parts) + sep + last
    decreases |parts|
  {
    var all := parts + [last];
    assert all[0] == parts[0];
    if |parts| == 1 {
      assert all[1..] == [last];
    } else {
      assert all[1..] == parts[1..] + [last];
      JoinSnoc(sep, parts[1..], last);
      var head, rest := parts[0] + sep, Join(sep, parts[1..]);
      calc {
        Join(sep, all);
        head + (rest + sep + last);
        { Assoc(rest, sep, last); Assoc(head, rest + sep, last); Assoc(head, rest, sep); }
        head + rest + sep + last;
      }
    }
  }

  /** Splitting a join recovers the parts, when no part holds the separator. */
  lemma {:induction false} SplitJoin(parts: seq<string>, sep: char)
    requires |parts| >= 1
    requires forall k :: 0 <= k < |parts| ==> sep !in parts[k]
    ensures Split(Join([sep], parts), sep) == parts
  {
    if |parts| > 1 {
      var p, rest := parts[0], Join([sep], parts[1..]);
      var s := p + [sep] + rest;
      assert Join([sep], parts) == s;
      assert s[..|p|] == p;
      assert s[|p|] == sep;
      assert s[|p| + 1..] == rest;
      assert FindChar(s, sep) == Some(|p|);
      assert Split(s, sep) == [p] + Split(rest, sep);
      SplitJoin(parts[1..], sep);
      assert parts == [p] + parts[1..];
    }
  }

  /** Joining the pieces of a split gives the text back. */
  lemma {:induction false} JoinSplit(s: string, sep: char)
    ensures Join([sep], Split(s, sep)) == s
    decreases |s|
  {
    match FindChar(s, sep)
    case None =>
    case Some(i) =>
      var rest := Split(s[i + 1..], sep);
      assert Split(s, sep) == [s[..i]] + rest;
      assert ([s[..i]] + rest)[1..] == rest;
      JoinSplit(s[i + 1..], sep);
      assert Join([sep], Split(s, sep)) == s[..i] + [sep] + Join([sep], rest);
      assert s == s[..i] + [sep] + s[i + 1..];
  }

  // ---------------------------------------------------------------------------
  // Substrings and split(sep) for a longer separator

  predicate OccursAt(s: string, sub: string, i: int) {
    0 <= i && i + |sub| <= |s| && s[i..i + |sub|] == sub
  }

  /** The first index at which `sub` occurs in `s` (`s.find(sub)`, absent instead of -1). */
  function Find(s: string, sub: string): (r: Option<nat>)
    requires |sub| > 0
    ensures r.None? ==> forall i :: 0 <= i ==> !OccursAt(s, sub, i)
    ensures r.Some? ==> OccursAt(s, sub, r.value)
    ensures r.Some? ==> forall i :: 0 <= i < r.value ==> !OccursAt(s, sub, i)
    decreases |s|
  {
    if |s| < |sub| then None
    else if s[..|sub|] == sub then Some(0)
    else match Find(s[1..], sub)
      case None =>
        assert forall i :: 1 <= i ==> (OccursAt(s, sub, i) <==> OccursAt(s[1..], sub, i - 1));
        None
      case Some(j) =>
        assert forall i :: 1 <= i ==> (OccursAt(s, sub, i) <==> OccursAt(s[1..], sub, i - 1));
        Some(j + 1)
  }

  /** `sub in s`. */
  predicate Contains(s: string, sub: string)
    requires |sub| > 0
  {
    Find(s, sub).Some?
  }

  /** `s.split(sep)` for a non-empty separator of any length. */
  function SplitOn(s: string, sep: string): (r: seq<string>)
    requires |sep| > 0
    ensures |r| >= 1
    ensures EndsWith(s, r[|r| - 1])
    ensures !Contains(r[|r| - 1], sep)
    ensures !Contains(s, sep) ==> r == [s]
    decreases |s|
  {
    match Find(s, sep)
    case None => [s]
    case Some(i) =>
      var rest := SplitOn(s[i + |sep|..], sep);
      EndsWithTail(s, i + |sep|, rest[|rest| - 1]);
      [s[..i]] + rest
  }

  /** `s.endswith(suffix)`. */
  predicate EndsWith(s: string, suffix: string) {
    |suffix| <= |s| && s[|s| - |suffix|..] == suffix
  }

  /** What a tail of `s` ends with, `s` ends with too. */
  lemma EndsWithTail(s: string, k: nat, suffix: string)
    requires k <= |s| && EndsWith(s[k..], suffix)
    ensures EndsWith(s, suffix)
  {
    assert s[k..][|s| - k - |suffix|..] == s[|s| - |suffix|..];
  }

  /** Text that starts with the separator splits into an empty piece and the rest's pieces. */
  lemma SplitOnLeading(sep: string, s: string)
    requires |sep| > 0
    ensures SplitOn(sep + s, sep) == [""] + SplitOn(s, sep)
  {
    assert (sep + s)[..|sep|] == sep;
    assert (sep + s)[|sep|..] == s;
  }

  // ---------------------------------------------------------------------------
  // split() without a separator

  /** The length of the leading run of non-whitespace characters. */
  function TokenLen(s: string): (n: nat)
    ensures n <= |s|
    ensures forall i :: 0 <= i < n ==> !IsSpace(s[i])
    ensures n < |s| ==> IsSpace(s[n])
    decreases |s|
  {
    if s == [] || IsSpace(s[0]) then 0 else 1 + TokenLen(s[1..])
  }

  /** `s.split()`: the maximal runs of non-whitespace characters, in order. */
  function Words(s: string): (r: seq<string>)
    ensures forall k :: 0 <= k < |r| ==> r[k] != [] && NoSpace(r[k])
    decreases |s|
  {
    if s == [] then []
    else if IsSpace(s[0]) then Words(s[1..])
    else
      var n := TokenLen(s);
      [s[..n]] + Words(s[n..])
  }

  /** A word followed by whitespace (or by nothing) is the first element of `split()`. */
  lemma WordsCons(t: string, rest: string)
    requires t != [] && NoSpace(t)
    requires rest == [] || IsSpace(rest[0])
    ensures Words(t + rest) == [t] + Words(rest)
  {
    var s := t + rest;
    assert s[..|t|] == t && s[|t|..] == rest;
    TokenLenOfWord(t, rest);
  }

  lemma {:induction false} TokenLenOfWord(t: string, rest: string)
    requires NoSpace(t)
    requires rest == [] || IsSpace(rest[0])
    ensures TokenLen(t + rest) == |t|
    decreases |t|
  {
    if t != [] {
      assert (t + rest)[1..] == t[1..] + rest;
      TokenLenOfWord(t[1..], rest);
    }
  }

  /** `" ".join(tokens).split()` gives back the tokens when none is empty or holds whitespace. */
  lemma {:induction false} WordsOfJoin(tokens: seq<string>)
    requires forall k :: 0 <= k < |tokens| ==> tokens[k] != [] && NoSpace(tokens[k])
    ensures Words(Join(" ", tokens)) == tokens
  {
    if |tokens| == 1 {
      WordsCons(tokens[0], "");
      assert tokens[0] + "" == tokens[0];
    } else if |tokens| > 1 {
      var rest := Join(" ", tokens[1..]);
      assert Join(" ", tokens) == tokens[0] + (" " + rest);
      WordsCons(tokens[0], " " + rest);
      assert (" " + rest)[1..] == rest;
      WordsOfJoin(tokens[1..]);
    }
  }

  // ---------------------------------------------------------------------------
  // str(int) and int(str)

  function DigitChar(d: nat): (c: char)
    requires d < 10
    ensures IsDigit(c)
  {
    ('0' as int + d) as char
  }

  function DigitValue(c: char): (d: nat)
    requires IsDigit(c)
    ensures d < 10 && DigitChar(d) == c
  {
    c as int - '0' as int
  }

  /** `str(n)` for a non-negative integer: its decimal digits, most significant first. */
  function NatToString(n: nat): (s: string)
    ensures |s| >= 1 && AllDigits(s)
  {
    if n < 10 then [DigitChar(n)] else NatToString(n / 10) + [DigitChar(n % 10)]
  }

  /** The value of a string of decimal digits. */
  function DigitsValue(s: string): nat
    requires AllDigits(s)
  {
    if s == [] then 0 else DigitsValue(s[..|s| - 1]) * 10 + DigitValue(s[|s| - 1])
  }

  /** Reading back what `NatToString` printed gives the number. */
  lemma {:induction false} NatToStringRoundTrip(n: nat)
    ensures DigitsValue(NatToString(n)) == n
  {
    if n >= 10 {
      var s := NatToString(n);
      assert s[..|s| - 1] == NatToString(n / 10);
      NatToStringRoundTrip(n / 10);
    }
  }

  /** `str(i)` for any integer. */
  function IntToString(i: int): (s: string)
    ensures s != [] && NoSpace(s)
    ensures i >= 0 <==> s[0] != '-'
  {
    if i < 0 then "-" + NatToString(-i) else NatToString(i)
  }

  /**
   * `int(s)` on a string: optional surrounding whitespace, an optional sign, then one or
   * more decimal digits; anything else raises, which is `None` here.
   */
  function ParseInt(s: string): (r: Option<int>)
  {
    ParseTrimmed(Strip(s))
  }

  /** `int(...)` once the surrounding whitespace is gone. */
  function ParseTrimmed(t: string): Option<int> {
    if t == [] then None
    else if t[0] == '-' || t[0] == '+' then
      var digits := t[1..];
      if digits != [] && AllDigits(digits) then
        Some(if t[0] == '-' then -(DigitsValue(digits) as int) else DigitsValue(digits))
      else None
    else if AllDigits(t) then Some(DigitsValue(t))
    else None
  }

  /** `int(str(i)) == i`. */
  lemma ParseIntRoundTrip(i: int)
    ensures ParseInt(IntToString(i)) == Some(i)
  {
    if i < 0 {
      assert IntToString(i) == "-" + NatToString(-i);
      NegativeDigits(NatToString(-i));
      NatToStringRoundTrip(-i);
    } else {
      assert IntToString(i) == NatToString(i);
      PlainDigits(NatToString(i));
      NatToStringRoundTrip(i);
    }
  }

  /** `int(...)` of a string of digits is their value. */
  lemma PlainDigits(d: string)
    requires d != [] && AllDigits(d)
    ensures ParseInt(d) == Some(DigitsValue(d) as int)
  {
    assert ParseInt(d) == ParseTrimmed(d) by {
      UnpaddedParse(d);
    }
    assert d[0] != '-' && d[0] != '+';
  }

  /** `int(...)` of a minus sign and digits is the negated value of the digits. */
  lemma NegativeDigits(d: string)
    requires d != [] && AllDigits(d)
    ensures ParseInt("-" + d) == Some(-(DigitsValue(d) as int))
  {
    var s := "-" + d;
    assert s[|s| - 1] == d[|d| - 1];
    UnpaddedParse(s);
    NegativeTrimmed(d);
  }

  lemma NegativeTrimmed(d: string)
    requires d != [] && AllDigits(d)
    ensures ParseTrimmed("-" + d) == Some(-(DigitsValue(d) as int))
  {
    var s := "-" + d;
    assert s[0] == '-' && s[1..] == d;
  }

  /** Text without surrounding whitespace is parsed as it stands. */
  lemma UnpaddedParse(s: string)
    requires s != [] && !IsSpace(s[0]) && !IsSpace(s[|s| - 1])
    ensures ParseInt(s) == ParseTrimmed(s)
  {
    StripUntrimmed(s);
  }

  /** `int(s)` rejects text that holds no digit at all. */
  lemma ParseIntNeedsDigit(s: string)
    requires forall i :: 0 <= i < |s| ==> !IsDigit(s[i])
    ensures ParseInt(s) == None
  {
    var t := Strip(s);
    if t != [] && (t[0] == '-' || t[0] == '+') && |t| > 1 {
      assert t[1] in s;
    } else if t != [] {
      assert t[0] in s;
    }
  }
}
