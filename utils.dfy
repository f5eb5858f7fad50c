/**
 * The string helpers of the chat relay: nickname validation, `/pm` command parsing,
 * truncation, IPv4 and port validation, the random name suffix and the one-line
 * display format of a chat message.
 */
module Utils {
  import opened Optional
  import opened Strings

  // ---------------------------------------------------------------------------
  // validate_nickname

  const MaxNicknameLength := 20

  const NicknameEmptyText := "Nickname boş olamaz"
  const NicknameReservedText := "Nickname '*' ile başlayamaz (relay için ayrılmış)"
  const NicknameTooLongText := "Nickname 20 karakterden uzun olamaz"
  const NicknameBadCharText := "Nickname sadece harf, rakam, '_' ve '-' içerebilir"

  /** ASCII letters, ASCII digits, `_` and `-`. */
  predicate IsNicknameChar(c: char) {
    'a' <= c <= 'z' || 'A' <= c <= 'Z' || '0' <= c <= '9' || c == '_' || c == '-'
  }

  /** What a valid nickname is, stated independently of the order of the checks. */
  predicate WellFormedNickname(nickname: string) {
    && nickname != []
    && |nickname| <= MaxNicknameLength
    && forall i :: 0 <= i < |nickname| ==> IsNicknameChar(nickname[i])
  }

  /**
   * `(valid, reason)`: the empty name, a name starting with `*`, a name longer than 20
   * characters and a name with another character are refused, checked in that order.
   */
  function ValidateNickname(nickname: string): (r: (bool, string))
    ensures r.0 <==> WellFormedNickname(nickname)
    ensures r.0 ==> r.1 == ""
    ensures !r.0 ==> r.1 in {NicknameEmptyText, NicknameReservedText, NicknameTooLongText, NicknameBadCharText}
  {
    if nickname == [] then (false, NicknameEmptyText)
    else if nickname[0] == '*' then (false, NicknameReservedText)
    else if |nickname| > MaxNicknameLength then (false, NicknameTooLongText)
    else if exists i :: 0 <= i < |nickname| && !IsNicknameChar(nickname[i]) then (false, NicknameBadCharText)
    else (true, "")
  }

  /** A name starting with the reserved `*` is refused with the reserved-name reason, whatever its length. */
  lemma ReservedNicknameRefused(nickname: string)
    requires StartsWith(nickname, "*")
    ensures ValidateNickname(nickname) == (false, NicknameReservedText)
  {
    assert nickname[0] == "*"[0];
  }

  /** A too-long name is refused for its length only when it is neither empty nor reserved. */
  lemma LongNicknameRefused(nickname: string)
    requires |nickname| > MaxNicknameLength && nickname[0] != '*'
    ensures ValidateNickname(nickname) == (false, NicknameTooLongText)
  {
  }

  // ---------------------------------------------------------------------------
  // truncate_text

  const DefaultTruncateLength := 100

  /** `text` if it fits in `maxLength` characters, otherwise a prefix of it followed by "...". */
  function TruncateText(text: string, maxLength: int): (r: string)
    ensures |text| <= maxLength ==> r == text
    ensures |text| > maxLength ==> |r| >= 3 && r[|r| - 3..] == "..."
    ensures |text| > maxLength ==> |r| - 3 <= |text| && r[..|r| - 3] == text[..|r| - 3]
    ensures |text| > maxLength >= 3 ==> |r| == maxLength
  {
    if |text| <= maxLength then text else SliceTo(text, maxLength - 3) + "..."
  }

  /** For a budget below 3, the negative slice bound keeps all but the last `3 - maxLength` characters. */
  lemma TruncateTinyBudget(text: string, maxLength: int)
    requires 0 <= maxLength < 3 && |text| > maxLength && |text| >= 3 - maxLength
    ensures |TruncateText(text, maxLength)| == |text| - (3 - maxLength) + 3
  {
  }

  // ---------------------------------------------------------------------------
  // parse_private_message

  const PmPrefix := "/pm "

  /**
   * `/pm <target> <message>` gives `(true, target, message)`, the target ending at the first
   * space after the prefix; anything else gives `(false, None, None)`.
   */
  function ParsePrivateMessage(message: string): (r: (bool, Option<string>, Option<string>))
    ensures r.0 <==> StartsWith(message, PmPrefix) && ' ' in message[|PmPrefix|..]
    ensures !r.0 ==> r.1 == None && r.2 == None
    ensures r.0 ==> r.1.Some? && r.2.Some? && ' ' !in r.1.value
    ensures r.0 ==> message == PmPrefix + r.1.value + " " + r.2.value
  {
    if !StartsWith(message, PmPrefix) then (false, None, None)
    else
      var parts := SplitFirst(message[|PmPrefix|..], ' ');
      if |parts| < 2 then (false, None, None)
      else
        PmRejoin(message, parts[0], parts[1]);
        (true, Some(parts[0]), Some(parts[1]))
  }

  /** A command that starts with the prefix is the prefix, then the rest. */
  lemma PmRejoin(message: string, target: string, text: string)
    requires StartsWith(message, PmPrefix) && message[|PmPrefix|..] == target + [' '] + text
    ensures message == PmPrefix + target + " " + text
  {
    assert message == message[..|PmPrefix|] + message[|PmPrefix|..];
  }

  /** Parsing the command the `/pm` syntax builds gives back its target and message. */
  lemma ParsePrivateMessageRoundTrip(target: string, msg: string)
    requires ' ' !in target
    ensures ParsePrivateMessage(PmPrefix + target + " " + msg) == (true, Some(target), Some(msg))
  {
    var s := PmPrefix + target + " " + msg;
    assert s[..|PmPrefix|] == PmPrefix;
    var rest := s[|PmPrefix|..];
    assert rest == target + " " + msg;
    assert rest[|target|] == ' ';
    assert rest[..|target|] == target;
    assert FindChar(rest, ' ') == Some(|target|);
    assert rest[|target| + 1..] == msg;
  }

  // ---------------------------------------------------------------------------
  // is_valid_ip, is_valid_port

  /** `0 <= int(part) <= 255`, an unparsable part counting as invalid. */
  predicate IsOctet(part: string) {
    var n := ParseInt(part);
    n.Some? && 0 <= n.value <= 255
  }

  /** The early-return scan over the parts: false at the first part that is not an octet. */
  function AllOctets(parts: seq<string>): (b: bool)
    ensures b <==> forall k :: 0 <= k < |parts| ==> IsOctet(parts[k])
  {
    if parts == [] then true
    else if !IsOctet(parts[0]) then false
    else AllOctets(parts[1..])
  }

  /** Exactly four dot-separated parts, each an integer from 0 to 255. */
  function IsValidIp(ip: string): (b: bool)
    ensures b <==> |Split(ip, '.')| == 4 && forall k :: 0 <= k < 4 ==> IsOctet(Split(ip, '.')[k])
  {
    var parts := Split(ip, '.');
    if |parts| != 4 then false else AllOctets(parts)
  }

  /** The dotted-quad text of four octets. */
  function DottedQuad(a: nat, b: nat, c: nat, d: nat): string {
    Join(".", [NatToString(a), NatToString(b), NatToString(c), NatToString(d)])
  }

  /** Every address printed from four octets is accepted. */
  lemma DottedQuadIsValid(a: nat, b: nat, c: nat, d: nat)
    requires a <= 255 && b <= 255 && c <= 255 && d <= 255
    ensures IsValidIp(DottedQuad(a, b, c, d))
  {
    var parts := [NatToString(a), NatToString(b), NatToString(c), NatToString(d)];
    forall k | 0 <= k < 4 ensures '.' !in parts[k] && IsOctet(parts[k]) {
      var n: nat := [a, b, c, d][k];
      assert parts[k] == NatToString(n);
      NoDotInDigits(parts[k]);
      ParseIntRoundTrip(n);
    }
    SplitJoin(parts, '.');
  }

  lemma NoDotInDigits(s: string)
    requires AllDigits(s)
    ensures '.' !in s
  {
  }

  /** An octet above 255 makes the address invalid. */
  lemma LargeOctetInvalid(a: nat, b: nat, c: nat, d: nat)
    requires a > 255
    ensures !IsValidIp(DottedQuad(a, b, c, d))
  {
    var parts := [NatToString(a), NatToString(b), NatToString(c), NatToString(d)];
    forall k | 0 <= k < 4 ensures '.' !in parts[k] {
      NoDotInDigits(parts[k]);
    }
    SplitJoin(parts, '.');
    ParseIntRoundTrip(a);
  }

  /** The argument of `is_valid_port`: a Python `int` or a string to be parsed by `int(...)`. */
  datatype PortArg = IntPort(n: int) | TextPort(text: string)

  const MinPort := 1024
  const MaxPort := 65535

  /** `1024 <= int(port) <= 65535`, an unparsable port counting as invalid. */
  function IsValidPort(port: PortArg): (b: bool)
    ensures port.IntPort? ==> (b <==> MinPort <= port.n <= MaxPort)
    ensures port.TextPort? ==> (b <==> ParseInt(port.text).Some? && MinPort <= ParseInt(port.text).value <= MaxPort)
  {
    match port
    case IntPort(n) => MinPort <= n <= MaxPort
    case TextPort(t) =>
      match ParseInt(t)
      case None => false
      case Some(n) => MinPort <= n <= MaxPort
  }

  /** A port given as text is judged exactly like the same number given as an integer. */
  lemma PortTextAgreesWithInt(n: int)
    ensures IsValidPort(TextPort(IntToString(n))) == IsValidPort(IntPort(n))
  {
    ParseIntRoundTrip(n);
  }

  // ---------------------------------------------------------------------------
  // generate_random_suffix

  /** `str(random.randint(100, 999))`: `draw` is the value the random source produced. */
  function RandomSuffix(draw: int): (r: string)
    requires 100 <= draw <= 999
    ensures |r| == 3
  {
    assert NatToString(draw) == NatToString(draw / 10) + [DigitChar(draw % 10)];
    assert NatToString(draw / 10) == NatToString(draw / 100) + [DigitChar(draw / 10 % 10)];
    NatToString(draw)
  }

  /** The suffix is always three decimal digits without a leading zero, and reads back as the draw. */
  lemma RandomSuffixDigits(draw: int)
    requires 100 <= draw <= 999
    ensures var r := RandomSuffix(draw);
            AllDigits(r) && r[0] != '0' && ParseInt(r) == Some(draw)
  {
    var s := NatToString(draw);
    assert s == NatToString(draw / 100) + [DigitChar(draw / 10 % 10)] + [DigitChar(draw % 10)] by {
      assert NatToString(draw / 10) == NatToString(draw / 100) + [DigitChar(draw / 10 % 10)];
    }
    ParseIntRoundTrip(draw);
  }

  // ---------------------------------------------------------------------------
  // format_message_display

  const SystemMark := "•"
  const JoinMark := "👤"
  const LeaveMark := "🚪"
  const PrivateMark := "🔒"

  /**
   * The chat-window line for a message: `[time] ` then a per-type body; an unknown type
   * is shown like PUBLIC. `timestamp` absent or empty means `clock` (the current time).
   */
  function FormatMessageDisplay(messageType: string, sender: Option<string>, content: Option<string>,
                                timestamp: Option<string>, clock: string): (r: string)
    ensures var t := if timestamp.Some? && timestamp.value != "" then timestamp.value else clock;
            StartsWith(r, "[" + t + "] ")
    ensures messageType !in {"SYSTEM", "JOIN", "LEAVE", "PRIVATE"} ==>
            var t := if timestamp.Some? && timestamp.value != "" then timestamp.value else clock;
            r == "[" + t + "] " + Show(sender) + ": " + Show(content)
  {
    var timeStr := if timestamp.Some? && timestamp.value != "" then timestamp.value else clock;
    var head := "[" + timeStr + "] ";
    var body :=
      if messageType == "SYSTEM" then SystemMark + " " + Show(content)
      else if messageType == "JOIN" then JoinMark + " " + Show(content)
      else if messageType == "LEAVE" then LeaveMark + " " + Show(content)
      else if messageType == "PRIVATE" then PrivateMark + " " + Show(sender) + ": " + Show(content)
      else Show(sender) + ": " + Show(content);
    assert (head + body)[..|head|] == head;
    head + body
  }

  /**
   * A PRIVATE line is the PUBLIC line of the same message with the lock mark inserted
   * after the time.
   */
  lemma PrivateLineMarksPublic(sender: Option<string>, content: Option<string>, timestamp: Option<string>, clock: string)
    ensures var t := if timestamp.Some? && timestamp.value != "" then timestamp.value else clock;
            var head := "[" + t + "] ";
            var public := FormatMessageDisplay("PUBLIC", sender, content, timestamp, clock);
            && StartsWith(public, head)
            && FormatMessageDisplay("PRIVATE", sender, content, timestamp, clock)
                 == head + PrivateMark + " " + public[|head|..]
  {
    var t := if timestamp.Some? && timestamp.value != "" then timestamp.value else clock;
    var head := "[" + t + "] ";
    var rest := Show(sender) + ": " + Show(content);
    assert FormatMessageDisplay("PUBLIC", sender, content, timestamp, clock) == head + rest;
    assert (head + rest)[|head|..] == rest;
  }
}
