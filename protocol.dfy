/**
 * The wire protocol: the message record, its dictionary form, and newline framing.
 * A frame is the JSON text of the message's dictionary followed by one "\n"; the
 * receiver buffers chunks until a "\n" has arrived and parses the first line only.
 *
 * The JSON library is not modelled: it is a pair of total functions `Json` whose laws
 * (`Lawful`) are what the framing relies on. The stream is modelled as text; the UTF-8
 * layer in between is not part of this model.
 */
module Protocol {
  import opened Optional
  import opened Strings

  // Message type names (the values of the MESSAGE_TYPE_* configuration constants).
  const TypePublic := "PUBLIC"
  const TypePrivate := "PRIVATE"
  const TypeSystem := "SYSTEM"
  const TypeJoin := "JOIN"
  const TypeLeave := "LEAVE"
  const TypeUserList := "USER_LIST"
  const TypeWarning := "WARNING"
  const TypeMute := "MUTE"
  const TypeKick := "KICK"

  /**
   * A chat message. `msgType`, `sender`, `recipient` and `content` are whatever the
   * sender put there, possibly nothing; the timestamp is always set by construction.
   */
  datatype Message = Message(
    msgType: Option<string>,
    sender: Option<string>,
    recipient: Option<string>,
    content: Option<string>,
    timestamp: string)

  /** A non-empty string (Python truthiness of an optional string). */
  predicate Truthy(s: Option<string>) {
    s.Some? && s.value != ""
  }

  /**
   * `Message(msg_type, sender, recipient, content, timestamp)`: the timestamp is kept when
   * it is a non-empty string and is otherwise `clock`, the formatted current time.
   */
  function NewMessage(msgType: Option<string>, sender: Option<string>, recipient: Option<string>,
                      content: Option<string>, timestamp: Option<string>, clock: string): (m: Message)
    ensures m.msgType == msgType && m.sender == sender && m.recipient == recipient && m.content == content
    ensures Truthy(timestamp) ==> m.timestamp == timestamp.value
    ensures !Truthy(timestamp) ==> m.timestamp == clock
    ensures clock != "" ==> m.timestamp != ""
  {
    Message(msgType, sender, recipient, content, if Truthy(timestamp) then timestamp.value else clock)
  }

  /** `create_message(msg_type, sender, recipient, content)`: no timestamp is passed, so `clock` is used. */
  function CreateMessage(msgType: string, sender: Option<string>, recipient: Option<string>,
                         content: Option<string>, clock: string): (m: Message)
    ensures m.msgType == Some(msgType) && m.sender == sender && m.recipient == recipient
    ensures m.content == content && m.timestamp == clock
  {
    NewMessage(Some(msgType), sender, recipient, content, None, clock)
  }

  /** A JSON object with string-or-null values, as `to_dict` produces and `from_dict` reads. */
  type Dict = map<string, Option<string>>

  const FieldNames: set<string> := {"type", "sender", "recipient", "content", "timestamp"}

  /** `to_dict`. */
  function ToDict(m: Message): (d: Dict)
    ensures d.Keys == FieldNames
  {
    map["type" := m.msgType, "sender" := m.sender, "recipient" := m.recipient,
        "content" := m.content, "timestamp" := Some(m.timestamp)]
  }

  /** `d.get(key)`: a missing key and a JSON `null` both read as `None`. */
  function Get(d: Dict, key: string): Option<string> {
    if key in d then d[key] else None
  }

  /** `from_dict`: every field read with `.get`, so a missing key reads as `None`. */
  function FromDict(d: Dict, clock: string): (m: Message)
    ensures m.msgType == Get(d, "type") && m.content == Get(d, "content")
    ensures m.sender == Get(d, "sender") && m.recipient == Get(d, "recipient")
  {
    NewMessage(Get(d, "type"), Get(d, "sender"), Get(d, "recipient"),
               Get(d, "content"), Get(d, "timestamp"), clock)
  }

  /** `from_dict(to_dict(m))` is `m`, field for field, whenever `m`'s timestamp is non-empty. */
  lemma FromDictToDict(m: Message, clock: string)
    requires m.timestamp != ""
    ensures FromDict(ToDict(m), clock) == m
  {
  }

  /** With an empty timestamp the round trip replaces it by the receiver's clock. */
  lemma FromDictToDictEmptyTimestamp(m: Message, clock: string)
    requires m.timestamp == ""
    ensures FromDict(ToDict(m), clock) == m.(timestamp := clock)
  {
  }

  /** `json.dumps` and `json.loads` for the dictionaries exchanged here. */
  datatype Json = Json(dumps: Dict -> string, loads: string -> Option<Dict>)

  /**
   * What the framing needs from JSON: parsing what was printed gives the dictionary back
   * (so printing is injective), and the printed object contains no raw newline (RFC 8259,
   * section 7, escapes control characters in strings) and is delimited by braces.
   */
  ghost predicate Lawful(j: Json) {
    forall d: Dict {:trigger j.dumps(d)} ::
      var s := j.dumps(d);
      j.loads(s) == Some(d) && '\n' !in s && |s| >= 2 && s[0] == '{' && s[|s| - 1] == '}'
  }

  /** `send_message`: the printed dictionary followed by exactly one newline. */
  function EncodeFrame(j: Json, m: Message): (frame: string)
    requires Lawful(j)
    ensures |frame| >= 1 && frame[|frame| - 1] == '\n' && '\n' !in frame[..|frame| - 1]
  {
    var s := j.dumps(ToDict(m));
    assert (s + "\n")[..|s|] == s;
    s + "\n"
  }

  lemma EncodeFrameInjective(j: Json, m1: Message, m2: Message)
    requires Lawful(j)
    requires m1.timestamp != "" && m2.timestamp != ""
    requires EncodeFrame(j, m1) == EncodeFrame(j, m2)
    ensures m1 == m2
  {
    var s1, s2 := j.dumps(ToDict(m1)), j.dumps(ToDict(m2));
    assert s1 == EncodeFrame(j, m1)[..|s1|];
    assert s2 == EncodeFrame(j, m2)[..|s2|];
    assert j.loads(s1) == Some(ToDict(m1)) && j.loads(s2) == Some(ToDict(m2));
    FromDictToDict(m1, "");
    FromDictToDict(m2, "");
  }

  /** `data.split("\n")[0]`: the text before the first newline. */
  function FirstLine(data: string): (line: string)
    ensures '\n' !in line && StartsWith(data, line)
    ensures line == data || data[|line|] == '\n'
  {
    match FindChar(data, '\n')
    case None => data
    case Some(i) => data[..i]
  }

  /** Whatever follows the first newline does not take part in decoding. */
  lemma FirstLineIgnoresRest(line: string, rest: string)
    requires '\n' !in line
    ensures FirstLine(line + "\n" + rest) == line
  {
    var data := line + "\n" + rest;
    assert data[..|line|] == line && data[|line|] == '\n';
    assert FindChar(data, '\n') == Some(|line|);
  }

  /**
   * The parse step of `receive_message` on the buffered text: the stripped first line,
   * `None` when it is blank or is not a JSON object of this shape.
   */
  function DecodeLine(j: Json, data: string, clock: string): (r: Option<Message>)
    ensures Strip(FirstLine(data)) == "" ==> r == None
    ensures r.Some? ==> j.loads(Strip(FirstLine(data))).Some?
  {
    var text := Strip(FirstLine(data));
    if text == "" then None
    else match j.loads(text)
      case None => None
      case Some(d) => Some(FromDict(d, clock))
  }

  /** A frame decodes to the message it encodes, whatever bytes follow it in the buffer. */
  lemma FrameRoundTrip(j: Json, m: Message, rest: string, clock: string)
    requires Lawful(j)
    requires m.timestamp != ""
    ensures DecodeLine(j, EncodeFrame(j, m) + rest, clock) == Some(m)
  {
    var s := j.dumps(ToDict(m));
    assert EncodeFrame(j, m) + rest == s + "\n" + rest;
    FirstLineIgnoresRest(s, rest);
    StripUntrimmed(s);
    FromDictToDict(m, clock);
  }

  /** All chunks joined together. */
  function Concat(chunks: seq<string>): string {
    if chunks == [] then "" else chunks[0] + Concat(chunks[1..])
  }

  /**
   * The buffering loop of `receive_message`: `data` grows by one `recv` result at a time
   * until it holds a newline; an empty `recv` (the peer closed), or the end of the
   * scripted `recv` results, gives `None`.
   */
  function Gather(chunks: seq<string>, data: string): (r: Option<string>)
    ensures r.Some? ==> '\n' in r.value && StartsWith(r.value, data) && |r.value| > |data|
    ensures r.Some? && '\n' !in data ==> exists k :: 0 <= k < |chunks| && '\n' in chunks[k]
    decreases |chunks|
  {
    if chunks == [] || chunks[0] == "" then None
    else
      var d := data + chunks[0];
      if '\n' in d then Some(d)
      else
        var later := Gather(chunks[1..], d);
        assert later.Some? ==> later.value[..|data|] == d[..|data|];
        assert forall k :: 0 <= k < |chunks| - 1 ==> chunks[1..][k] == chunks[k + 1];
        later
  }

  /**
   * `receive_message` on a socket whose successive `recv` calls return `chunks`. A peer
   * that closes at once gives `None`, and a message needs some chunk to bring a newline.
   */
  function Receive(j: Json, chunks: seq<string>, clock: string): (r: Option<Message>)
    ensures chunks == [] || chunks[0] == "" ==> r.None?
    ensures r.Some? ==> exists k :: 0 <= k < |chunks| && '\n' in chunks[k]
  {
    match Gather(chunks, "")
    case None => None
    case Some(data) => DecodeLine(j, data, clock)
  }

  /** `receive_message`, with its loop: `used` is the number of `recv` calls made. */
  method ReceiveMessage(j: Json, chunks: seq<string>, clock: string) returns (r: Option<Message>, used: nat)
    ensures r == Receive(j, chunks, clock)
    ensures used <= |chunks|
  {
    var data := "";
    var i := 0;
    while true
      invariant 0 <= i <= |chunks|
      invariant '\n' !in data
      invariant Gather(chunks, "") == Gather(chunks[i..], data)
      decreases |chunks| - i
    {
      if i == |chunks| || chunks[i] == "" {
        return None, i;
      }
      data := data + chunks[i];
      i := i + 1;
      if '\n' in data {
        break;
      }
    }
    r := DecodeLine(j, data, clock);
    used := i;
  }

  /** A closed stream before any newline is reported as `None`, exactly like a malformed frame. */
  lemma ClosedBeforeNewline(j: Json, chunks: seq<string>, k: nat, clock: string)
    requires k < |chunks| && chunks[k] == ""
    requires forall i :: 0 <= i < k ==> '\n' !in chunks[i]
    ensures Receive(j, chunks, clock) == None
  {
    GatherClosed(chunks, "", k);
  }

  lemma {:induction false} GatherClosed(chunks: seq<string>, data: string, k: nat)
    requires k < |chunks| && chunks[k] == ""
    requires '\n' !in data
    requires forall i :: 0 <= i < k ==> '\n' !in chunks[i]
    ensures Gather(chunks, data) == None
  {
    if k > 0 && chunks[0] != "" {
      GatherClosed(chunks[1..], data + chunks[0], k - 1);
    }
  }

  /**
   * However the transport cuts a frame into non-empty chunks, receiving gives back the
   * encoded message; whatever arrives after its newline is dropped.
   */
  lemma ReceiveFrame(j: Json, m: Message, chunks: seq<string>, rest: string, clock: string)
    requires Lawful(j)
    requires m.timestamp != ""
    requires forall i :: 0 <= i < |chunks| ==> chunks[i] != ""
    requires Concat(chunks) == EncodeFrame(j, m) + rest
    ensures Receive(j, chunks, clock) == Some(m)
  {
    var s := j.dumps(ToDict(m));
    assert "" + Concat(chunks) == s + "\n" + rest;
    GatherFrame(chunks, "", s, rest);
    var data := Gather(chunks, "").value;
    var tail :| data == s + "\n" + tail;
    FrameRoundTrip(j, m, tail, clock);
  }

  lemma {:induction false} GatherFrame(chunks: seq<string>, data: string, line: string, rest: string)
    requires '\n' !in line && '\n' !in data
    requires forall i :: 0 <= i < |chunks| ==> chunks[i] != ""
    requires data + Concat(chunks) == line + "\n" + rest
    ensures Gather(chunks, data).Some?
    ensures exists tail :: Gather(chunks, data).value == line + "\n" + tail
    decreases |chunks|
  {
    var whole := line + "\n" + rest;
    assert whole[|line|] == '\n';
    assert chunks != [];
    var d := data + chunks[0];
    assert data + Concat(chunks) == d + Concat(chunks[1..]);
    if '\n' in d {
      var i :| 0 <= i < |d| && d[i] == '\n';
      assert d == whole[..|d|];
      assert |d| > |line|;
      assert d == line + "\n" + d[|line| + 1..];
    } else {
      GatherFrame(chunks[1..], d, line, rest);
    }
  }
}
