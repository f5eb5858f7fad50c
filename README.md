# A verified model of a TCP chat relay

The system is a small chat service. A server accepts TCP connections and asks each
connection for a nickname. It keeps a table from nickname to connection handler,
relays public messages to everyone and private messages to one recipient, and logs
every event to a text file. A sliding-window rate limiter answers each incoming
message with OK, WARNING, MUTE or KICK. A web dashboard reads the statistics, the
roster and the tail of the log file. A desktop client shows the roster, reads the
name and the mute duration the server sends back, blocks sending while muted, and
keeps one private-chat window per partner.

Messages travel as one JSON object per line. A frame is the JSON text of the
message's dictionary, then `\n`. The receiver buffers chunks until a newline arrives
and parses the first line only.

The model has one Dafny module per source file:

- `RateLimiter` for `server/rate_limiter.py`;
- `ChatServer` for `server/chat_server.py`;
- `ClientHandler` for `server/client_handler.py`;
- `Logger` for `server/logger.py`;
- `WebServer` for the data side of `server/web_server.py`;
- `Protocol` for `common/protocol.py`;
- `Utils` for `common/utils.py`;
- `PrivateChat` for `client/private_chat_window.py`;
- `ChatClient` for `client/chat_client.py`.

Three modules are shared by all the others:

- `Strings` holds the parts of Python's `str` the code relies on: `strip`, `split`, `join`, `in`, negative slicing, `int(...)` and `str(int)`.
- `Optional` holds `None`-or-value.
- `Clock` holds one reading of the wall clock.

How the model is built:

- **State.** Objects that the source updates in place are classes with the same fields, and their methods state the new value of every field they may change. The rate limiter, the server registry, the client handler, the logger, the private-chat manager and its windows, and the client's mute state are modelled this way.
- **Pure code.** Parsing, formatting and the per-message dispatch are functions, and lemmas state their properties.
- **The server's sockets.** Each send to a socket is recorded as one `Delivery` in the server's `wire` log. A connection handler is identified by a number.
- **The log file.** The file is modelled as its text. Reading it back follows Python's universal newlines: `\r\n` and a lone `\r` are read as `\n` before the text is cut into lines.
- **Time.** `time.time()` becomes an integer tick. Every formatted clock reading becomes a string parameter.
- **The nickname suffix.** The random suffixes tried when a nickname is taken come from a sequence of draws supplied by the caller.

## Model

| member | source | states |
|---|---|---|
| RateLimiter.Evict | server/rate_limiter.py:96-99 | what eviction keeps is a suffix of the window whose front is at most `window` ticks old, and every dropped entry was older than that |
| RateLimiter.EvictStale | server/rate_limiter.py:97-99 | the `popleft` loop leaves exactly the window that `Evict` describes |
| RateLimiter.EvictedWindow | server/rate_limiter.py:94-99 | after `now` is appended to a time-ordered window with no future entries, the evicted window is time-ordered, ends with `now`, and holds only entries at most `SEVERE_LIMIT_WINDOW` old |
| RateLimiter.EvictSorted | server/rate_limiter.py:96-99 | evicting a time-ordered window that ends at `now` keeps `now`, keeps the order, and keeps only recent entries |
| RateLimiter.CountWithin | server/rate_limiter.py:105 | the fast-window count never exceeds the number of entries |
| RateLimiter.CountWithinAll | server/rate_limiter.py:105-108 | when every entry is within the fast window, the fast count equals the window length |
| RateLimiter.CountWithinMonotone | server/rate_limiter.py:105-108 | a narrower window never counts more messages than a wider one |
| RateLimiter.ExpireMute | server/rate_limiter.py:53-63 | the table keeps its names; the name still holds a mute exactly when it was active at `now`, and then unchanged; no other name's entry changes |
| RateLimiter.MutedNames | server/rate_limiter.py:130 | only names of the table with a mute instant are counted, and every name whose mute instant is positive is counted |
| RateLimiter.RateLimiter.constructor | server/rate_limiter.py:20-31 | the three tables are empty, the three counters are 0, and the thresholds are those given |
| RateLimiter.RateLimiter.MutedAt | server/rate_limiter.py:48-63 | a name muted at `now` is left as it is by the expiry step of `is_muted`, and is among the names `get_statistics` counts as muted |
| RateLimiter.RateLimiter.AddClient | server/rate_limiter.py:33-37 | the name gets an empty window, no mute and 0 warnings, and the counters are unchanged |
| RateLimiter.RateLimiter.RemoveClient | server/rate_limiter.py:39-46 | all three entries of the name are deleted; an unknown name changes nothing |
| RateLimiter.RateLimiter.IsMuted | server/rate_limiter.py:48-63 | true exactly when the name has a mute instant later than `now`; false for unknown or unmuted names; an expired mute is reset to `None` |
| RateLimiter.RateLimiter.GetMuteRemaining | server/rate_limiter.py:65-72 | 0 whenever the name is not muted; otherwise the positive number of ticks left |
| RateLimiter.RateLimiter.RecordMessage | server/rate_limiter.py:90-99 | a missing name gets fresh state, `now` joins its window, and stale entries leave the front |
| RateLimiter.RateLimiter.Classify | server/rate_limiter.py:104-122 | MUTE exactly when the window holds at least `SEVERE_LIMIT_MAX` entries; else WARNING with one more than the previous count when the fast count reaches `RATE_LIMIT_MAX`; else OK; never KICK |
| RateLimiter.RateLimiter.CheckRateLimit | server/rate_limiter.py:74-122 | KICK exactly when the name was muted at `now`, and then only the kick total changes; otherwise the name's window becomes the old window plus `now`, evicted, the verdict is `Classify` of that window, MUTE sets the mute instant to `now + MUTE_DURATION`, WARNING raises the name's counter, and no other name's entries change; each total rises by 1 with its verdict and never decreases |
| RateLimiter.RateLimiter.Judge | server/rate_limiter.py:104-122 | the verdict is `Classify` of the recorded window; only the mute instant or the warning counter of its verdict changes, with the matching total |
| RateLimiter.RateLimiter.GetStatistics | server/rate_limiter.py:124-131 | the three totals, and the number of names with a truthy mute instant, which is at most the number of names |
| RateLimiter.RateLimiter.ResetWarnings | server/rate_limiter.py:133-136 | an existing counter goes back to 0; an unknown name changes nothing; nothing else changes |
| ChatServer.Without | server/chat_server.py:158 | the names left are exactly the other names, and a roster without repeats stays without repeats |
| ChatServer.Fanout | server/chat_server.py:167-174 | a broadcast writes at most one frame per registered name |
| ChatServer.FanoutFrames | server/chat_server.py:167-174 | the loop over the table writes exactly the frames of `Fanout`, in table order |
| ChatServer.FanoutRecipients | server/chat_server.py:166-174 | a frame is written to a handler if and only if some registered name maps to it and neither the `exclude_sender` rule nor the `exclude_client` rule applies to that name |
| ChatServer.FanoutToAll | server/chat_server.py:166-174 | without exclusions every registered handler receives the message exactly once, in table order |
| ChatServer.FanoutSenderless | server/chat_server.py:169-170 | for a message without a sender, `exclude_sender` has no effect |
| ChatServer.UserListMessage | server/chat_server.py:213-214 | the USER_LIST message carries the comma-join of all registered names and has no sender or recipient |
| ChatServer.JoinNotice | server/chat_server.py:190-191 | a JOIN message without sender or recipient, at the current time, whose content starts with the new name |
| ChatServer.LeaveNotice | server/chat_server.py:200-201 | a LEAVE message without sender or recipient, at the current time, whose content starts with the leaving name |
| ChatServer.Suffixed | server/chat_server.py:138 | the name tried for one draw starts with the requested name, is three characters longer, and so is never the requested name itself |
| ChatServer.ChatServer.constructor | server/chat_server.py:28-51 | an empty table, zero counters, and a fresh rate limiter and logger whose file gains the start banner |
| ChatServer.ChatServer.AcceptConnection | server/chat_server.py:105-108 | each accepted connection raises the connection count by one |
| ChatServer.ChatServer.FreeName | server/chat_server.py:135-138 | the result is not a key; it is the requested name exactly when that name is free; otherwise it is the requested name plus the first suffix drawn that is free |
| ChatServer.ChatServer.RegisterClient | server/chat_server.py:122-148 | a `*` name returns None and changes nothing; otherwise a name that was not a key becomes one, mapped to the handler, with fresh rate-limiter state and a join entry in the log; no other entry changes and the rate-limit totals are unchanged |
| ChatServer.ChatServer.Admit | server/chat_server.py:141-146 | the chosen name is added to the table and the roster, gets fresh rate-limiter state, and is logged as a join; the rate-limit totals are unchanged |
| ChatServer.ChatServer.UnregisterClient | server/chat_server.py:150-162 | a registered name leaves the table and loses its rate-limiter state, and a leave entry is logged; no name, an empty name or an unknown name changes nothing; the rate-limit totals are unchanged either way |
| ChatServer.ChatServer.BroadcastMessage | server/chat_server.py:164-176 | the frames of `Fanout` are written and the message count rises by exactly 1 |
| ChatServer.ChatServer.SendPrivateMessage | server/chat_server.py:178-186 | true exactly when the recipient is registered; then one frame goes to its handler and the count rises by 1; otherwise nothing changes |
| ChatServer.ChatServer.SendUserList | server/chat_server.py:208-215 | one USER_LIST frame with all registered names goes to the given handler |
| ChatServer.ChatServer.BroadcastUserList | server/chat_server.py:217-224 | the USER_LIST message with all registered names goes through the broadcast to every registered handler, and the count rises by 1 |
| ChatServer.ChatServer.BroadcastJoin | server/chat_server.py:188-196 | the JOIN notice and then the roster go to everyone, in that order; one SYSTEM entry is logged and the count rises by 2 |
| ChatServer.ChatServer.BroadcastLeave | server/chat_server.py:198-206 | the LEAVE notice and then the roster go to everyone, in that order; one SYSTEM entry is logged and the count rises by 2 |
| ClientHandler.KickStops | server/client_handler.py:159-172 | under KICK the session stops and receives the KICK frame first; every other frame is the kick notice to another handler; the message itself is not dispatched |
| ClientHandler.MuteNoticeReachesSelf | server/client_handler.py:147-157 | under MUTE the session goes on and the message is dropped; the session receives the MUTE frame and also hears its own mute notice |
| ClientHandler.WarningStillDispatches | server/client_handler.py:99-101 | a WARNING adds its frame and log entry in front of exactly what OK does with the same message |
| ClientHandler.PublicReachesEveryone | server/client_handler.py:116-120 | a PUBLIC message reaches every registered handler in table order, with the session's own nickname as sender, and is counted once |
| ClientHandler.PrivateOutcome | server/client_handler.py:122-138 | a PRIVATE message to a registered name reaches that handler with the session as sender, and the session gets the confirmation; otherwise the session gets "not found" and nothing is logged or counted |
| ClientHandler.StopIffKickOrExit | server/client_handler.py:87-111 | the session stops if and only if the verdict is KICK, or the message is a SYSTEM `EXIT` that the verdict lets through |
| ClientHandler.OutcomeLogIsLines | server/client_handler.py:87-114 | whatever the verdict, the log text added is empty, or starts with `[` and ends with a newline, as whole entry lines do |
| ClientHandler.IsExit | server/client_handler.py:109-111 | an `EXIT` message is never of type PUBLIC or PRIVATE, so it reaches the SYSTEM branch of the dispatch |
| ClientHandler.Delivered | server/chat_server.py:181 | a message is delivered exactly when its recipient is some registered name; a `None` recipient never is |
| ClientHandler.RejectedMessage | server/client_handler.py:56-57 | a SYSTEM message made by the server: no sender, no recipient, the current time and some content |
| ClientHandler.ConnectedMessage | server/client_handler.py:63-64 | a SYSTEM message made by the server whose content is `Connected as ` followed by exactly the name |
| ClientHandler.WarningMessage | server/client_handler.py:142-143 | a WARNING message made by the server |
| ClientHandler.MuteText | server/client_handler.py:150 | the text is `You have been muted for `, the duration in decimal, then ` seconds` |
| ClientHandler.MuteMessage | server/client_handler.py:149-150 | a MUTE message made by the server whose content is that mute text |
| ClientHandler.MutedNotice | server/client_handler.py:155-156 | a SYSTEM message made by the server whose content starts with the muted nickname |
| ClientHandler.KickMessage | server/client_handler.py:161-162 | a KICK message made by the server |
| ClientHandler.KickedNotice | server/client_handler.py:167-168 | a SYSTEM message made by the server whose content starts with the kicked nickname |
| ClientHandler.SentConfirmation | server/client_handler.py:129-130 | a SYSTEM message made by the server |
| ClientHandler.NotFoundMessage | server/client_handler.py:136-137 | a SYSTEM message made by the server |
| ClientHandler.Dispatch | server/client_handler.py:103-111 | the session stops exactly on a SYSTEM `EXIT`, and then nothing is sent, logged or counted; a log entry is written exactly for PUBLIC, or for PRIVATE to a registered recipient, and the count rises by 1 exactly then |
| ClientHandler.Process | server/client_handler.py:87-111 | at most one message is counted; every verdict but OK first answers the session itself and writes a log entry; MUTE counts once and never stops the session |
| ClientHandler.ClientHandler.constructor | server/client_handler.py:21-27 | no nickname yet and not running |
| ClientHandler.ClientHandler.Stop | server/client_handler.py:35-41 | the session loop ends |
| ClientHandler.ClientHandler.SendMessage | server/client_handler.py:185-187 | exactly one frame on this session's socket; the table, the counters, the rate limiter and the log file are unchanged |
| ClientHandler.ClientHandler.Handshake | server/client_handler.py:45-71 | accepted exactly when a first message with truthy content arrives whose name does not start with `*`; no first message, or empty content, sends nothing; a refused name gets exactly one "Nickname rejected by server" frame; on either refusal the table, the rate limiter, the log and the count are unchanged; an accepted name was not a key before and now maps to this session, gets fresh rate-limiter state, a join entry and a "joined" entry in the log, the count rises by 2, and the wire gains "Connected as <name>", the join and roster broadcasts and then the roster, in that order |
| ClientHandler.ClientHandler.Welcome | server/client_handler.py:62-71 | "Connected as <name>" to this session, the join notice and the roster to everyone, then the roster to this session, in that order; one "joined" entry is logged and the count rises by 2; the table and the rate limiter are unchanged |
| ClientHandler.ClientHandler.HandleKick | server/client_handler.py:159-172 | the KICK frame, a kick entry, the notice to everyone but this session, and the session stops |
| ClientHandler.ClientHandler.HandleMute | server/client_handler.py:147-157 | the MUTE frame, a mute entry and the notice to everyone, this session included |
| ClientHandler.ClientHandler.HandleWarning | server/client_handler.py:140-145 | the WARNING frame and a warning entry, and the count is unchanged |
| ClientHandler.ClientHandler.HandlePublicMessage | server/client_handler.py:116-120 | the message, with its sender overwritten by the session's nickname, is broadcast to everyone and logged as PUBLIC |
| ClientHandler.ClientHandler.HandlePrivateMessage | server/client_handler.py:122-138 | delivered: the message, the confirmation and a PRIVATE entry; not delivered: one "not found" frame, no entry and no count |
| ClientHandler.ClientHandler.ProcessMessage | server/client_handler.py:87-114 | KICK exactly when the session's name was muted; the rate limiter's new state is exactly what `CheckRateLimit` promises for that verdict; the frames, log text, count and running flag are exactly those `Process` gives for the verdict; the table is unchanged |
| ClientHandler.ClientHandler.Respond | server/client_handler.py:91-111 | the effects of a known verdict are exactly those of `Process` |
| ClientHandler.ClientHandler.Pass | server/client_handler.py:99-111 | under WARNING or OK, the effects are exactly those of `Process` |
| ClientHandler.ClientHandler.DispatchMessage | server/client_handler.py:103-111 | the type dispatch has exactly the effects of `Dispatch` |
| ClientHandler.ClientHandler.Cleanup | server/client_handler.py:174-183 | without a nickname nothing changes; with one, the name is no longer a key, the leave notice and then the roster go to the remaining clients, a "left" entry is logged after the leave entry of a registered name, and the count rises by 2; a registered name leaves the table, the roster and all three rate-limiter tables, while an unregistered one leaves table and limiter as they were; the rate-limit totals never change |
| ClientHandler.ClientHandler.Run | server/client_handler.py:43-85 | at most one message is handled per received message, none when the handshake fails; the loop ends early only when the session stopped; afterwards the session's name is no longer registered |
| Logger.Entry | server/logger.py:72-74 | every entry starts with `[ts] TYPE \| ` and ends with a newline |
| Logger.EntryIsOneLine | server/logger.py:72-74 | an entry whose timestamp, type and content hold no `\n` or `\r` is read back as exactly one line, itself |
| Logger.EntryAtBreak | server/logger.py:72-74 | an entry whose content holds a line break is read back as the entry cut at the first break, then the lines of what follows the break, where a `\n` right after a `\r` belongs to the same break |
| Logger.PublicContent | server/logger.py:34-36 | parts without a line break give content without one, and parts without `=` give content without `=` |
| Logger.PrivateContent | server/logger.py:38-40 | parts without a line break give content without one, and parts without `=` give content without `=` |
| Logger.JoinContent | server/logger.py:46-48 | parts without a line break give content without one, and parts without `=` give content without `=` |
| Logger.LeaveContent | server/logger.py:50-52 | parts without a line break give content without one, and parts without `=` give content without `=` |
| Logger.WarningContent | server/logger.py:54-56 | a nickname without a line break, or without `=`, gives content without one, whatever the warning number |
| Logger.MuteContent | server/logger.py:58-60 | a nickname without a line break, or without `=`, gives content without one, whatever the duration |
| Logger.KickContent | server/logger.py:62-64 | a nickname without a line break, or without `=`, gives content without one |
| Logger.PlainNumber | server/logger.py:54-60 | an integer printed into an entry holds neither a line break nor `=` |
| Logger.Header | server/logger.py:27-32 | the banner starts and ends with a newline, and holds no `\r` when the timestamp holds none |
| Logger.Translate | server/logger.py:80 | text read with universal newlines holds no `\r`, and text without `\r` is read as it is |
| Logger.TranslateAppend | server/logger.py:73-80 | text that does not end with a `\r` reads the same whether it is read with what follows or on its own |
| Logger.TranslateEndsLine | server/logger.py:73-80 | text that ends with a newline still ends with one when read with universal newlines |
| Logger.ReadLines | server/logger.py:80 | the lines read concatenate to the text as universal newlines read it, and text without `\r` is simply cut at its newlines |
| Logger.ReadLinesAppend | server/logger.py:73-80 | a file that ends with a newline, with text appended, reads as its own lines followed by those of the appended text |
| Logger.ReadOneLine | server/logger.py:80 | a line without `\n` or `\r`, followed by a newline, reads back as exactly that line |
| Logger.ReadLinesAtBreak | server/logger.py:80 | text reads up to its first `\r` or `\n` as one line ending in `\n`; after a `\r`, a `\n` that follows belongs to the same break |
| Logger.Lines | server/logger.py:80 | cutting at `\n` loses nothing: the lines concatenate back to the text |
| Logger.LinesShape | server/logger.py:80 | each line cut at `\n` is non-empty, holds a newline only at its end, and all but the last end with one |
| Logger.LinesAppend | server/logger.py:73-80 | cutting text that ends with a newline, followed by more text, gives its own lines followed by the lines of the rest |
| Logger.RecentLogs | server/logger.py:76-83 | the last `count` of the lines the file reads as with universal newlines, or all of them when there are no more than `count`; `[]` for a missing file; all lines for a count of 0 |
| Logger.ChatLogger.constructor | server/logger.py:16-32 | the file is the existing text followed by the start banner |
| Logger.ChatLogger.WriteLog | server/logger.py:70-74 | exactly one entry is appended to the text; read back with universal newlines, the file's lines are the old lines followed by the entry's lines, which are exactly one line, the entry itself, when the timestamp, type and content hold no `\n` or `\r` |
| Logger.ChatLogger.LogPublicMessage | server/logger.py:34-36 | a PUBLIC entry `sender: content` |
| Logger.ChatLogger.LogPrivateMessage | server/logger.py:38-40 | a PRIVATE entry `sender -> recipient: content` |
| Logger.ChatLogger.LogSystemEvent | server/logger.py:42-44 | a SYSTEM entry with the given content |
| Logger.ChatLogger.LogUserJoin | server/logger.py:46-48 | a SYSTEM entry `nick@address connected` |
| Logger.ChatLogger.LogUserLeave | server/logger.py:50-52 | a SYSTEM entry `nick@address disconnected` |
| Logger.ChatLogger.LogRateLimitWarning | server/logger.py:54-56 | a SYSTEM entry with the warning number |
| Logger.ChatLogger.LogRateLimitMute | server/logger.py:58-60 | a SYSTEM entry with the mute duration |
| Logger.ChatLogger.LogRateLimitKick | server/logger.py:62-64 | a SYSTEM kick entry |
| Logger.ChatLogger.LogError | server/logger.py:66-68 | an ERROR entry |
| Protocol.NewMessage | common/protocol.py:16-21 | the four fields are kept as given; the timestamp is the given one when it is a non-empty string, and the current time otherwise |
| Protocol.CreateMessage | common/protocol.py:105-109 | type, sender, recipient and content pass through unchanged, and the timestamp is the current time |
| Protocol.ToDict | common/protocol.py:23-31 | the dictionary has exactly the five field keys |
| Protocol.FromDict | common/protocol.py:33-42 | each field is read with `.get`, so a missing key reads as `None` |
| Protocol.FromDictToDict | common/protocol.py:23-42 | `from_dict(to_dict(m))` is `m`, field for field, when the timestamp is non-empty |
| Protocol.FromDictToDictEmptyTimestamp | common/protocol.py:21 | with an empty timestamp, the round trip replaces it by the receiver's clock |
| Protocol.EncodeFrame | common/protocol.py:61-62 | a frame ends with exactly one newline and holds no other |
| Protocol.EncodeFrameInjective | common/protocol.py:61-62 | two messages with non-empty timestamps that give the same frame are equal |
| Protocol.FirstLine | common/protocol.py:88 | the first line is a newline-free prefix of the buffer, ended by the buffer's first newline or by its end |
| Protocol.FirstLineIgnoresRest | common/protocol.py:88 | whatever follows the first newline does not affect the first line |
| Protocol.DecodeLine | common/protocol.py:88-95 | a blank first line gives `None`, and a message comes only from a successful JSON parse |
| Protocol.FrameRoundTrip | common/protocol.py:88-95 | a frame, followed by any bytes, decodes to the message it encodes |
| Protocol.ReceiveMessage | common/protocol.py:69-102 | the buffering loop returns what `Receive` specifies and makes no more `recv` calls than there are chunks |
| Protocol.Gather | common/protocol.py:79-85 | a buffer is returned only once it holds a newline; it extends the data already held by at least one character, and when that data held no newline some chunk brought one |
| Protocol.Receive | common/protocol.py:69-95 | a peer that closes at once gives `None`, and a message is returned only when some chunk brought a newline |
| Protocol.ClosedBeforeNewline | common/protocol.py:79-82 | a closed stream before any newline gives `None`, the same answer as a malformed frame |
| Protocol.GatherClosed | common/protocol.py:79-85 | buffering reaches the empty chunk before any newline and gives up |
| Protocol.ReceiveFrame | common/protocol.py:77-95 | however the transport cuts a frame into non-empty chunks, receiving gives back the encoded message |
| Protocol.GatherFrame | common/protocol.py:79-85 | buffering a frame split into chunks stops with a buffer that starts with the whole frame |
| Utils.ValidateNickname | common/utils.py:28-48 | valid exactly for non-empty names of at most 20 ASCII letters, digits, `_` and `-`, with an empty reason; otherwise one of the four refusal reasons |
| Utils.ReservedNicknameRefused | common/utils.py:37-38 | a name starting with `*` is refused with the reserved-name reason, whatever its length |
| Utils.LongNicknameRefused | common/utils.py:40-41 | a name over 20 characters that does not start with `*` is refused for its length |
| Utils.TruncateText | common/utils.py:69-73 | text that fits is unchanged; otherwise the result ends in `...` after a prefix of the text, and has length `max_length` when that is at least 3 |
| Utils.TruncateTinyBudget | common/utils.py:73 | a budget below 3 gives a negative slice bound, so the result is longer than the budget |
| Utils.ParsePrivateMessage | common/utils.py:76-92 | success exactly when the text starts with `/pm ` and a space occurs after that prefix; then the target has no space and prefix, target, space and message rebuild the input; failure gives `(False, None, None)` |
| Utils.ParsePrivateMessageRoundTrip | common/utils.py:83-92 | `/pm <target> <msg>` parses back to the target and message for any target without a space |
| Utils.AllOctets | common/utils.py:101-105 | the early-return scan is true exactly when every part is an integer from 0 to 255 |
| Utils.IsValidIp | common/utils.py:95-107 | valid exactly when there are four dot-separated parts, each parsing to an integer from 0 to 255 |
| Utils.DottedQuadIsValid | common/utils.py:95-107 | every address printed from four octets is accepted |
| Utils.LargeOctetInvalid | common/utils.py:103-104 | an octet above 255 makes the address invalid |
| Utils.IsValidPort | common/utils.py:110-116 | valid exactly when the value is, or parses to, an integer from 1024 to 65535 |
| Utils.PortTextAgreesWithInt | common/utils.py:113-114 | a port given as decimal text is judged exactly like the same integer |
| Utils.RandomSuffix | common/utils.py:23-25 | the suffix is three characters long |
| Utils.RandomSuffixDigits | common/utils.py:25 | the suffix is three decimal digits without a leading zero and reads back as the draw |
| Utils.FormatMessageDisplay | common/utils.py:51-66 | the line always starts with `[time] `, falls back to the current time when the timestamp is empty or missing, and an unknown type is shown like PUBLIC |
| Utils.PrivateLineMarksPublic | common/utils.py:56-66 | a PRIVATE line is the PUBLIC line of the same message with the lock mark inserted after the time |
| WebServer.ParseLogLine | server/web_server.py:899-922 | a line with `=` after stripping, or without `]`, gives no row; every row has a non-empty timestamp without whitespace and a type without `\|` |
| WebServer.ParseStripped | server/web_server.py:899-905 | a row comes only from a stripped line that holds no `=` and holds both `[` and `]`, and every row has a non-empty timestamp without whitespace and a type without `\|` |
| WebServer.ParseFields | server/web_server.py:909-916 | a parsed row has a non-empty timestamp without whitespace and a type without `\|` |
| WebServer.Parsed | server/web_server.py:898-922 | there are never more rows than lines, and every row is the parse of one of the lines |
| WebServer.ParsedAppend | server/web_server.py:898-922 | parsing two runs of lines gives the rows of the first run followed by those of the second, so rows keep the order of their lines |
| WebServer.ParseLogs | server/web_server.py:898-922 | never more rows than lines; every row has a non-empty timestamp without whitespace and a type without `\|`, and is the parse of one of the lines |
| WebServer.EntryRoundTrip | server/web_server.py:899-922 | a logger entry is read back as the time of day of its timestamp, its type and its stripped content, when none of them holds `=`, the timestamp has two words and no `]`, and the type is one word without `\|` |
| WebServer.HeaderLines | server/logger.py:29-32 | the start banner is read back with universal newlines as four lines: an empty line, a rule, the start line and a rule |
| WebServer.HeaderInvisible | server/web_server.py:899-905 | no line of the start banner becomes a row |
| WebServer.AppendedEntryParsed | server/web_server.py:892-922 | appending an entry whose parts hold no line break to the log adds exactly its row after the rows of the existing file, as the file reads with universal newlines |
| WebServer.AppendedBrokenEntryParsed | server/web_server.py:892-922 | appending an entry whose content holds a line break shows the row of the entry cut at the break, followed by the rows of the lines that the rest of the content forms |
| WebServer.NewestEntryLast | server/web_server.py:885-930 | the entry written last, when its parts hold no line break, is the last row of the dashboard's log view |
| WebServer.LastLineLastRow | server/web_server.py:892-922 | a line appended to a file that ends with a newline, when it reads back as that one line and parses, gives the last row of the view |
| WebServer.RosterCount | server/web_server.py:861-862 | the roster without repeats has as many names as the table has keys |
| WebServer.ParseLines | server/web_server.py:898-922 | the loop keeps the row of every line that parses, in order |
| WebServer.WebServer.constructor | server/web_server.py:803-809 | the dashboard holds the chat server it reads |
| WebServer.WebServer.GetStats | server/web_server.py:849-873 | zeros without a chat server; otherwise the number of registered names, the message and connection counts, and the three rate-limit totals |
| WebServer.WebServer.GetUsers | server/web_server.py:875-883 | exactly the registered names, in table order and without repeats; `[]` without a chat server |
| WebServer.WebServer.GetLogs | server/web_server.py:885-930 | the rows of the last 50 lines the log file reads as with universal newlines, or of all lines when there are fewer; `[]` without a chat server |
| PrivateChat.PrivateChatWindow.constructor | client/private_chat_window.py:16-26 | a new window for its partner, open, with an empty chat area |
| PrivateChat.ReceivedLine | client/private_chat_window.py:98 | the line starts with the sender's name, ends with the message, and is two characters (`: `) longer than both |
| PrivateChat.OwnLine | client/private_chat_window.py:86 | the line is `You: ` followed by exactly the message |
| PrivateChat.SystemLine | client/private_chat_window.py:102 | the line is the bullet and a space followed by exactly the message |
| PrivateChat.PrivateChatWindow.AddMessage | client/private_chat_window.py:89-94 | one line is added at the end of the chat area |
| PrivateChat.PrivateChatWindow.AddReceivedMessage | client/private_chat_window.py:96-98 | the line `sender: message` is added |
| PrivateChat.PrivateChatWindow.AddSystemMessage | client/private_chat_window.py:100-102 | the line `• message` is added |
| PrivateChat.PrivateChatWindow.OnSend | client/private_chat_window.py:77-87 | blank input does nothing; otherwise the stripped text is handed on and echoed as `You: text` |
| PrivateChat.PrivateChatWindow.Close | client/private_chat_window.py:104-106 | the window is closed and its lines are kept |
| PrivateChat.PrivateChatManager.constructor | client/private_chat_window.py:117-119 | no windows are open |
| PrivateChat.PrivateChatManager.GetWindow | client/private_chat_window.py:171-173 | the user's window when one is open, `None` otherwise |
| PrivateChat.PrivateChatManager.OpenPrivateChat | client/private_chat_window.py:121-144 | oneself gives `None` and changes nothing; an open window is returned with the table unchanged; otherwise exactly one new empty window is filed under the user |
| PrivateChat.PrivateChatManager.HandleIncomingMessage | client/private_chat_window.py:146-163 | the sender gets a new open window if it had none, and `sender: message` is appended to that window only; an existing window keeps its open flag, and every other window keeps its lines and flag; a sender equal to one's own name is not filtered |
| PrivateChat.PrivateChatManager.OnClose | client/private_chat_window.py:137-140 | only the user's own entry is removed, and only if present; the window is closed |
| PrivateChat.PrivateChatManager.CloseAll | client/private_chat_window.py:165-169 | every open window is closed and the table is left empty |
| ChatClient.Filtered | client/chat_client.py:147 | a name is kept exactly when it is not the client's own |
| ChatClient.FilteredAnonymous | client/chat_client.py:147 | before the client has a name, nothing is filtered out |
| ChatClient.FilteredIsWithout | client/chat_client.py:147 | the client's filter removes its own name exactly as the server's table deletion removes it from the roster |
| ChatClient.FilteredDropsOne | client/chat_client.py:147 | a roster without repeats that holds the client's name loses exactly one entry |
| ChatClient.FilteredKeepsAll | client/chat_client.py:147 | a roster without the client's name is shown as it is |
| ChatClient.FilterRoster | client/chat_client.py:144-147 | a name is shown exactly when it is one of the comma-separated names and not the client's own, and never more names are shown than there are pieces |
| ChatClient.RosterRoundTrip | client/chat_client.py:144-148 | the comma-joined roster from the server is shown as the same names in order without the client's own, when no name holds a comma |
| ChatClient.CommaNameSplits | client/chat_client.py:145 | a registered name `a,b` with one comma, shown to a client without a name, appears as the two names `a` and `b`, for any comma-free `a` and `b` |
| Strings.SplitOn | client/chat_client.py:77 | `str.split(sep)`: the last piece ends the text and holds no separator; a text without the separator is one piece |
| ChatClient.ExtractNickname | client/chat_client.py:77 | the name read ends the welcome text and holds no `Connected as `; a text without that separator is read whole |
| ChatClient.NicknameRoundTrip | client/chat_client.py:77 | the name read from "Connected as N" is N, when N does not contain "Connected as " |
| ChatClient.ParseMuteDuration | client/chat_client.py:166 | a duration is read only from a content of more than five words |
| ChatClient.MuteDurationRoundTrip | client/chat_client.py:164-168 | the sixth word of the server's mute notice parses back to its duration |
| ChatClient.ChatClient.constructor | client/chat_client.py:36-39 | no nickname, not muted, no unmute timer, and no private windows |
| ChatClient.ChatClient.Connect | client/chat_client.py:54-86 | connected exactly when a non-empty name was entered and the server accepted it; the nickname is then the name read from the welcome text |
| ChatClient.ChatClient.HandleUserList | client/chat_client.py:142-148 | a non-empty roster replaces the shown list with its names minus the client's own; an empty roster changes nothing |
| ChatClient.ChatClient.HandleMute | client/chat_client.py:155-170 | the client is muted; a readable duration replaces any pending unmute with one that many seconds ahead; an unreadable one starts no timer |
| ChatClient.ChatClient.StartUnmuteTimer | client/chat_client.py:187-195 | the pending unmute is cancelled and exactly one new one is scheduled `duration * 1000` ms ahead |
| ChatClient.ChatClient.Unmute | client/chat_client.py:197-203 | sending is allowed again and no unmute is pending |
| ChatClient.ChatClient.HandleSend | client/chat_client.py:205-216 | a public message reaches the network exactly when the client is not muted |
| ChatClient.ChatClient.SendPrivateMessage | client/chat_client.py:222-232 | a private message reaches the network exactly when the client is not muted |

## Left out

- **Concurrency.** Threads, `threading.Lock`, the stats printer and the Tk `after` scheduling of incoming messages are not modelled. Each registry operation is one atomic step.
- **Server start and stop.**
  - `ChatServer.start`, `stop` and `_accept_clients`' socket calls are not modelled. `AcceptConnection` keeps only the connection count.
  - Closing sockets in `ClientHandler.stop`, `_handle_client` and `_cleanup` is not modelled.
  - `ClientHandler.start` only spawns the thread; `Run` sets the running flag itself.
- **I/O and failures.**
  - Sends are assumed to succeed, so the `sendall` failure path of `send_message` is not modelled.
  - Exceptions that reach the `except` handlers in `_handle_client` and `_process_message` are not modelled, and neither are the `print` diagnostics.
  - `get_logs` assumes the log file exists; `FileNotFoundError` is modelled only in `RecentLogs`.
- **The JSON library.** `json.dumps`/`json.loads` are the two functions of a `Json` value. The only laws assumed are `Lawful`: parsing what was printed gives the dictionary back, and a printed object is brace-delimited with no raw newline (as RFC 8259, section 7, escapes control characters). JSON values other than strings and null are not modelled.
- **Encoding.** UTF-8 encoding and decoding is not modelled; frames are text.
- **Python's `int(...)`.** The model accepts optional surrounding whitespace, an optional `+` or `-` and ASCII decimal digits. Underscores between digits and non-ASCII digits, which Python also accepts, are not modelled.
- **Clocks and randomness.**
  - `get_timestamp`, `get_time_only`, `datetime.now()` and `time.time()` become `Instant` or string parameters.
  - `random.randint` becomes the caller's sequence of draws.
- **Configuration.** The five rate-limit thresholds are constructor parameters, because `common/config.py` is not part of this model. Port and host constants are not modelled.
- **Floating point.** Mute instants and remaining times are integer ticks. `int()` truncation of a float difference is not modelled. `format_file_size` is not modelled, because it is floating-point formatting.
- **GUI.** Tkinter widgets, dialogs, colours, line tags and `focus` are not modelled. The client's display handlers for public, join, leave, warning, kick and system messages only write to the screen and are not modelled. Double-clicking a user only calls `OpenPrivateChat`.
- **Other files.** `clear_logs` is not modelled; it rewrites the log file and is called from nowhere in the core. The web server's HTTP handler, HTML page and `CustomTCPServer` are not modelled. `client/network_handler.py` is not part of this model.
- RateLimiter.RateLimiter.CheckRateLimit: the clock is read once, at `now`. The source reads it twice, in `is_muted` and at the top of `check_rate_limit`; the model treats the two readings as equal.
- RateLimiter.RateLimiter.GetMuteRemaining: the result is the tick difference. The source returns `int()` of a float difference taken with a second clock reading, which can be 0 just before expiry.
- ChatServer.ChatServer.RegisterClient: the caller must supply a sequence of draws in which some draw gives a free name. The source retries without bound.
- ChatServer.ChatServer.FreeName: the same precondition on the draws as `RegisterClient`.
- ClientHandler.ClientHandler.Run: the contract does not restate the frames of the whole session. It states what the session ends with, and `Handshake`, `ProcessMessage` and `Cleanup` state each step.
- ClientHandler.ClientHandler.HandlePrivateMessage: the recipient is modelled as an optional string. A `None` recipient is never delivered, matching `None in self.clients` being false.
- PrivateChat.PrivateChatManager.CloseAll: the windows are closed in an unspecified order. The source closes them in dictionary order.
- Utils.IsValidPort: the argument is an integer or text. A float, which `int()` truncates before the range test, is not modelled.
- ChatClient.RosterRoundTrip: requires names without commas. The server does not validate names, and `CommaNameSplits` shows what happens otherwise.
