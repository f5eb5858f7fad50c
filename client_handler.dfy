/**
 * One connection's session on the server: the opening handshake (nickname in,
 * "Connected as" out), then one rate-limit verdict and one dispatch per received message,
 * and the clean-up when the session ends.
 *
 * What a message causes is first stated as data: `Process` turns a verdict, a message
 * and the session's nickname into a list of `Action`s and a stop flag, and `Effects`,
 * `LogText` and `Counted` say what those actions write to the sockets, to the log file
 * and to the message counter. The `ClientHandler` class performs the same steps against
 * a `ChatServer` the way the source does, and its contracts equate the two.
 */
module ClientHandler {
  import opened Optional
  import opened Strings
  import opened Clock
  import opened Protocol
  import RateLimiter
  import Logger
  import ChatServer

  /**
   * What handling one message does to the server: the frames written to the sockets, in
   * order, the text appended to the log file, how much `message_count` goes up, and
   * whether the session loop stops.
   */
  datatype Outcome = Outcome(frames: seq<ChatServer.Delivery>, log: string, count: nat, stop: bool)

  // The texts the session sends.

  /**
   * A message the server makes up itself: the given type, no sender and no recipient,
   * the server's clock reading, and some content. With no sender, `exclude_sender`
   * never skips it.
   */
  predicate ServerMessage(m: Message, msgType: string, clock: string) {
    m.msgType == Some(msgType) && m.sender.None? && m.recipient.None? && m.timestamp == clock && m.content.Some?
  }

  function RejectedMessage(clock: string): (m: Message)
    ensures ServerMessage(m, TypeSystem, clock)
  {
    CreateMessage(TypeSystem, None, None, Some("Nickname rejected by server"), clock)
  }

  function ConnectedMessage(nickname: string, clock: string): (m: Message)
    ensures ServerMessage(m, TypeSystem, clock)
    ensures StartsWith(m.content.value, "Connected as ") && m.content.value[13..] == nickname
  {
    CreateMessage(TypeSystem, None, None, Some("Connected as " + nickname), clock)
  }

  function WarningMessage(warningCount: int, clock: string): (m: Message)
    ensures ServerMessage(m, TypeWarning, clock)
  {
    CreateMessage(TypeWarning, None, None, Some("WARNING: Slow down! This is warning #" + IntToString(warningCount)), clock)
  }

  /** The mute notice: its sixth word is the duration, which the client reads back. */
  function MuteText(duration: int): (r: string)
    ensures StartsWith(r, "You have been muted for ") && |r| > 32
    ensures r[24..|r| - 8] == IntToString(duration) && r[|r| - 8..] == " seconds"
  {
    "You have been muted for " + IntToString(duration) + " seconds"
  }

  function MuteMessage(duration: int, clock: string): (m: Message)
    ensures ServerMessage(m, TypeMute, clock) && m.content.value == MuteText(duration)
  {
    CreateMessage(TypeMute, None, None, Some(MuteText(duration)), clock)
  }

  function MutedNotice(nickname: string, clock: string): (m: Message)
    ensures ServerMessage(m, TypeSystem, clock)
    ensures StartsWith(m.content.value, nickname)
  {
    CreateMessage(TypeSystem, None, None, Some(nickname + " has been muted for spamming"), clock)
  }

  function KickMessage(clock: string): (m: Message)
    ensures ServerMessage(m, TypeKick, clock)
  {
    CreateMessage(TypeKick, None, None, Some("You have been kicked for sending messages while muted"), clock)
  }

  function KickedNotice(nickname: string, clock: string): (m: Message)
    ensures ServerMessage(m, TypeSystem, clock)
    ensures StartsWith(m.content.value, nickname)
  {
    CreateMessage(TypeSystem, None, None, Some(nickname + " has been kicked for spamming"), clock)
  }

  function SentConfirmation(recipient: Option<string>, clock: string): (m: Message)
    ensures ServerMessage(m, TypeSystem, clock)
  {
    CreateMessage(TypeSystem, None, None, Some("Private message sent to " + Show(recipient)), clock)
  }

  function NotFoundMessage(recipient: Option<string>, clock: string): (m: Message)
    ensures ServerMessage(m, TypeSystem, clock)
  {
    CreateMessage(TypeSystem, None, None, Some("User '" + Show(recipient) + "' not found"), clock)
  }

  /** A SYSTEM message whose content is `EXIT`. */
  predicate IsExit(msg: Message)
    ensures IsExit(msg) ==> msg.msgType != Some(TypePublic) && msg.msgType != Some(TypePrivate)
  {
    msg.msgType == Some(TypeSystem) && msg.content == Some("EXIT")
  }

  /** Whether `send_private_message` finds the recipient. */
  predicate Delivered(m: Message, clients: map<string, ChatServer.HandlerId>)
    ensures Delivered(m, clients) <==> exists n :: n in clients && m.recipient == Some(n)
  {
    m.recipient.Some? && m.recipient.value in clients
  }

  /**
   * The dispatch on the message type once the verdict lets the message through. The
   * session's own nickname replaces whatever sender the client put in the message.
   * PUBLIC goes to every registered handler and is logged; PRIVATE goes to its recipient
   * and is confirmed and logged, or is answered with "not found"; a SYSTEM `EXIT` ends
   * the session; anything else is ignored.
   */
  function Dispatch(msg: Message, nickname: string, self: ChatServer.HandlerId,
                    names: seq<string>, clients: map<string, ChatServer.HandlerId>, at: Instant): (o: Outcome)
    ensures o.stop <==> IsExit(msg)
    ensures o.stop ==> o.frames == [] && o.log == "" && o.count == 0
    ensures o.count == (if o.log == "" then 0 else 1)
    ensures o.log != "" <==> msg.msgType == Some(TypePublic) || (msg.msgType == Some(TypePrivate) && Delivered(msg, clients))
  {
    var m := msg.(sender := Some(nickname));
    if msg.msgType == Some(TypePublic) then
      Outcome(ChatServer.Fanout(names, clients, m, false, None),
              Logger.Entry(at.logStamp, Logger.PublicType, Logger.PublicContent(nickname, Show(msg.content))), 1, false)
    else if msg.msgType == Some(TypePrivate) then
      if Delivered(m, clients) then
        Outcome([ChatServer.Delivery(clients[m.recipient.value], m), ChatServer.Delivery(self, SentConfirmation(m.recipient, at.stamp))],
                Logger.Entry(at.logStamp, Logger.PrivateType, Logger.PrivateContent(nickname, m.recipient.value, Show(msg.content))), 1, false)
      else
        Outcome([ChatServer.Delivery(self, NotFoundMessage(m.recipient, at.stamp))], "", 0, false)
    else Outcome([], "", 0, IsExit(msg))
  }

  /**
   * `_process_message` for a given verdict. KICK: the KICK frame to the session, a log
   * entry, a notice to everyone except the session, and the session stops. MUTE: the
   * MUTE frame, a log entry and a notice to everyone; the message is dropped. WARNING:
   * the WARNING frame and a log entry, then the dispatch. OK: the dispatch alone.
   */
  function Process(v: RateLimiter.Verdict, msg: Message, nickname: string, self: ChatServer.HandlerId,
                   names: seq<string>, clients: map<string, ChatServer.HandlerId>, at: Instant): (o: Outcome)
    ensures o.count <= 1
    ensures !v.Ok? ==> o.frames != [] && o.frames[0].to == self && o.log != ""
    ensures v.Mute? ==> o.count == 1 && !o.stop
  {
    match v
    case Kick =>
      Outcome([ChatServer.Delivery(self, KickMessage(at.stamp))]
              + ChatServer.Fanout(names, clients, KickedNotice(nickname, at.stamp), true, Some(self)),
              Logger.Entry(at.logStamp, Logger.SystemType, Logger.KickContent(nickname)), 1, true)
    case Mute(d) =>
      Outcome([ChatServer.Delivery(self, MuteMessage(d, at.stamp))]
              + ChatServer.Fanout(names, clients, MutedNotice(nickname, at.stamp), false, None),
              Logger.Entry(at.logStamp, Logger.SystemType, Logger.MuteContent(nickname, d)), 1, false)
    case Warning(k) =>
      var o := Dispatch(msg, nickname, self, names, clients, at);
      Outcome([ChatServer.Delivery(self, WarningMessage(k, at.stamp))] + o.frames,
              Logger.Entry(at.logStamp, Logger.SystemType, Logger.WarningContent(nickname, k)) + o.log, o.count, o.stop)
    case Ok =>
      Dispatch(msg, nickname, self, names, clients, at)
  }

  // Properties of the dispatch.

  /**
   * Under KICK the session stops, it receives the KICK frame first and nothing else, and
   * every other frame is the kick notice: the message itself goes nowhere.
   */
  lemma KickStops(msg: Message, nickname: string, self: ChatServer.HandlerId,
                  names: seq<string>, clients: map<string, ChatServer.HandlerId>, at: Instant)
    ensures var o := Process(RateLimiter.Kick, msg, nickname, self, names, clients, at);
            && o.stop
            && o.frames[0] == ChatServer.Delivery(self, KickMessage(at.stamp))
            && forall k :: 1 <= k < |o.frames| ==>
                 o.frames[k].to != self && o.frames[k].message == KickedNotice(nickname, at.stamp)
  {
    var o := Process(RateLimiter.Kick, msg, nickname, self, names, clients, at);
    var notice := KickedNotice(nickname, at.stamp);
    var fan := ChatServer.Fanout(names, clients, notice, true, Some(self));
    forall k | 1 <= k < |o.frames|
      ensures o.frames[k].to != self && o.frames[k].message == notice
    {
      assert o.frames[k] == fan[k - 1];
      ChatServer.FanoutRecipients(names, clients, notice, true, Some(self), fan[k - 1]);
    }
  }

  /** Under MUTE the session goes on, the message is dropped, and a registered session hears its own mute notice too. */
  lemma MuteNoticeReachesSelf(msg: Message, nickname: string, d: int, self: ChatServer.HandlerId,
                              names: seq<string>, clients: map<string, ChatServer.HandlerId>, at: Instant)
    requires nickname in names && nickname in clients && clients[nickname] == self
    ensures var o := Process(RateLimiter.Mute(d), msg, nickname, self, names, clients, at);
            && !o.stop
            && o.frames[0] == ChatServer.Delivery(self, MuteMessage(d, at.stamp))
            && ChatServer.Delivery(self, MutedNotice(nickname, at.stamp)) in o.frames[1..]
            && forall k :: 1 <= k < |o.frames| ==> o.frames[k].message == MutedNotice(nickname, at.stamp)
  {
    var o := Process(RateLimiter.Mute(d), msg, nickname, self, names, clients, at);
    var notice := MutedNotice(nickname, at.stamp);
    var fan := ChatServer.Fanout(names, clients, notice, false, None);
    assert o.frames[1..] == fan;
    ChatServer.FanoutRecipients(names, clients, notice, false, None, ChatServer.Delivery(self, notice));
    forall k | 1 <= k < |o.frames|
      ensures o.frames[k].message == notice
    {
      assert o.frames[k] == fan[k - 1];
      ChatServer.FanoutRecipients(names, clients, notice, false, None, fan[k - 1]);
    }
  }

  /** A WARNING verdict adds the warning frame and log entry and otherwise handles the message exactly as OK does. */
  lemma WarningStillDispatches(msg: Message, nickname: string, k: nat, self: ChatServer.HandlerId,
                               names: seq<string>, clients: map<string, ChatServer.HandlerId>, at: Instant)
    ensures var w := Process(RateLimiter.Warning(k), msg, nickname, self, names, clients, at);
            var ok := Process(RateLimiter.Ok, msg, nickname, self, names, clients, at);
            && w.frames == [ChatServer.Delivery(self, WarningMessage(k, at.stamp))] + ok.frames
            && w.log == Logger.Entry(at.logStamp, Logger.SystemType, Logger.WarningContent(nickname, k)) + ok.log
            && w.count == ok.count && w.stop == ok.stop
  {
  }

  /**
   * A PUBLIC message goes, as sent by the session whatever sender the client claimed, to
   * every registered name in table order, the session included.
   */
  lemma PublicReachesEveryone(msg: Message, nickname: string, self: ChatServer.HandlerId,
                              names: seq<string>, clients: map<string, ChatServer.HandlerId>, at: Instant)
    requires msg.msgType == Some(TypePublic)
    requires forall n :: n in names ==> n in clients
    ensures var o := Process(RateLimiter.Ok, msg, nickname, self, names, clients, at);
            && |o.frames| == |names|
            && (forall i :: 0 <= i < |names| ==>
                  o.frames[i] == ChatServer.Delivery(clients[names[i]], msg.(sender := Some(nickname))))
            && o.count == 1 && !o.stop
  {
    ChatServer.FanoutToAll(names, clients, msg.(sender := Some(nickname)));
  }

  /**
   * A PRIVATE message to a registered name reaches that name's handler, as sent by the
   * session, and the session gets the confirmation; to anyone else, the session gets
   * "not found" and nothing is logged or counted.
   */
  lemma PrivateOutcome(msg: Message, nickname: string, self: ChatServer.HandlerId,
                       names: seq<string>, clients: map<string, ChatServer.HandlerId>, at: Instant)
    requires msg.msgType == Some(TypePrivate)
    ensures var o := Process(RateLimiter.Ok, msg, nickname, self, names, clients, at);
            var m := msg.(sender := Some(nickname));
            && !o.stop
            && (msg.recipient.Some? && msg.recipient.value in clients ==>
                  && o.frames == [ChatServer.Delivery(clients[msg.recipient.value], m),
                                  ChatServer.Delivery(self, SentConfirmation(msg.recipient, at.stamp))]
                  && o.count == 1
                  && o.log == Logger.Entry(at.logStamp, Logger.PrivateType, Logger.PrivateContent(nickname, msg.recipient.value, Show(msg.content))))
            && (!(msg.recipient.Some? && msg.recipient.value in clients) ==>
                  o.frames == [ChatServer.Delivery(self, NotFoundMessage(msg.recipient, at.stamp))] && o.count == 0 && o.log == "")
  {
  }

  /** The session stops on KICK, and on an EXIT that the verdict lets through; on nothing else. */
  lemma StopIffKickOrExit(v: RateLimiter.Verdict, msg: Message, nickname: string, self: ChatServer.HandlerId,
                          names: seq<string>, clients: map<string, ChatServer.HandlerId>, at: Instant)
    ensures Process(v, msg, nickname, self, names, clients, at).stop <==> v.Kick? || (!v.Mute? && IsExit(msg))
  {
  }

  /** Whatever the verdict, every log text added is whole entry lines. */
  lemma OutcomeLogIsLines(v: RateLimiter.Verdict, msg: Message, nickname: string, self: ChatServer.HandlerId,
                          names: seq<string>, clients: map<string, ChatServer.HandlerId>, at: Instant)
    ensures var o := Process(v, msg, nickname, self, names, clients, at);
            o.log == "" || (o.log[0] == '[' && o.log[|o.log| - 1] == '\n')
  {
  }

  class ClientHandler {
    const id: ChatServer.HandlerId
    const address: string
    const server: ChatServer.ChatServer
    var nickname: Option<string>
    var running: bool

    constructor (id: ChatServer.HandlerId, address: string, server: ChatServer.ChatServer)
      ensures this.id == id && this.address == address && this.server == server
      ensures nickname == None && !running
    {
      this.id := id;
      this.address := address;
      this.server := server;
      nickname := None;
      running := false;
    }

    /** `stop`: the session loop ends after the current message. */
    method Stop()
      modifies this
      ensures !running && nickname == old(nickname)
    {
      running := false;
    }

    /** `send_message`: one frame on this session's socket. */
    method SendMessage(m: Message)
      requires server.Valid()
      modifies server
      ensures server.Valid()
      ensures server.wire == old(server.wire) + [ChatServer.Delivery(id, m)]
      ensures server.names == old(server.names) && server.clients == old(server.clients)
      ensures server.messageCount == old(server.messageCount) && server.totalConnections == old(server.totalConnections)
      ensures server.limiter.Kept() && server.logger.file == old(server.logger.file)
    {
      server.wire := server.wire + [ChatServer.Delivery(id, m)];
    }

    /**
     * The handshake part of `_handle_client`. No first message, or one without content,
     * ends the session silently; a refused name gets one "Nickname rejected by server"
     * frame; an accepted name gets "Connected as <name>", then the join broadcast and
     * roster broadcast, then the roster on its own socket, in that order.
     */
    method Handshake(first: Option<Message>, draws: seq<int>, at: Instant) returns (accepted: bool)
      requires server.Valid() && nickname.None?
      requires forall k :: 0 <= k < |draws| ==> 100 <= draws[k] <= 999
      requires first.Some? && Truthy(first.value.content) && first.value.content.value in server.clients ==>
                 exists k :: 0 <= k < |draws| && ChatServer.Suffixed(first.value.content.value, draws[k]) !in server.clients
      modifies this, server, server.limiter, server.logger
      ensures server.Valid()
      ensures running == old(running)
      ensures accepted <==> nickname.Some?
      ensures accepted <==> first.Some? && Truthy(first.value.content) && !StartsWith(first.value.content.value, "*")
      ensures server.totalConnections == old(server.totalConnections) && server.limiter.SameTotals()
      ensures !accepted ==>
                && server.clients == old(server.clients) && server.names == old(server.names)
                && server.limiter.Kept() && server.logger.file == old(server.logger.file)
                && server.messageCount == old(server.messageCount)
      ensures !(first.Some? && Truthy(first.value.content)) ==> server.wire == old(server.wire)
      ensures first.Some? && Truthy(first.value.content) && StartsWith(first.value.content.value, "*") ==>
                server.wire == old(server.wire) + [ChatServer.Delivery(id, RejectedMessage(at.stamp))]
      ensures accepted ==>
                var n := nickname.value;
                var names := old(server.names) + [n];
                && n !in old(server.clients)
                && server.clients == old(server.clients)[n := id] && server.names == names
                && server.wire == old(server.wire)
                                  + [ChatServer.Delivery(id, ConnectedMessage(n, at.stamp))]
                                  + ChatServer.Fanout(names, server.clients, ChatServer.JoinNotice(n, at.stamp), false, None)
                                  + ChatServer.Fanout(names, server.clients, ChatServer.UserListMessage(names, at.stamp), false, None)
                                  + [ChatServer.Delivery(id, ChatServer.UserListMessage(names, at.stamp))]
                && server.limiter.messageTimes == old(server.limiter.messageTimes)[n := []]
                && server.limiter.mutedUntil == old(server.limiter.mutedUntil)[n := None]
                && server.limiter.warningCounts == old(server.limiter.warningCounts)[n := 0]
                && server.logger.file == old(server.logger.file)
                                         + Logger.Entry(at.logStamp, Logger.SystemType, Logger.JoinContent(n, address))
                                         + Logger.Entry(at.logStamp, Logger.SystemType, n + " joined")
                && server.messageCount == old(server.messageCount) + 2
    {
      if first.None? || !Truthy(first.value.content) {
        return false;
      }
      nickname := server.RegisterClient(id, address, first.value.content.value, draws, at);
      if nickname.None? {
        SendMessage(RejectedMessage(at.stamp));
        return false;
      }
      Welcome(at);
      return true;
    }

    /** The accepted end of the handshake: "Connected as", the join and roster broadcasts, then the roster to this session. */
    method Welcome(at: Instant)
      requires server.Valid() && nickname.Some?
      modifies server, server.logger
      ensures server.Valid()
      ensures server.wire == old(server.wire)
                             + [ChatServer.Delivery(id, ConnectedMessage(nickname.value, at.stamp))]
                             + ChatServer.Fanout(server.names, server.clients, ChatServer.JoinNotice(nickname.value, at.stamp), false, None)
                             + ChatServer.Fanout(server.names, server.clients, ChatServer.UserListMessage(server.names, at.stamp), false, None)
                             + [ChatServer.Delivery(id, ChatServer.UserListMessage(server.names, at.stamp))]
      ensures server.logger.file == old(server.logger.file) + Logger.Entry(at.logStamp, Logger.SystemType, nickname.value + " joined")
      ensures server.messageCount == old(server.messageCount) + 2
      ensures server.names == old(server.names) && server.clients == old(server.clients)
      ensures server.totalConnections == old(server.totalConnections) && server.limiter.Kept()
    {
      var n := nickname.value;
      SendMessage(ConnectedMessage(n, at.stamp));
      server.BroadcastJoin(n, at);
      server.SendUserList(id, at);
    }

    /** `_handle_kick`: the KICK frame, a log entry, a notice to everyone else, and the session stops. */
    method HandleKick(at: Instant)
      requires server.Valid() && nickname.Some?
      modifies this, server, server.logger
      ensures server.Valid() && nickname == old(nickname) && !running
      ensures server.wire == old(server.wire)
                             + [ChatServer.Delivery(id, KickMessage(at.stamp))]
                             + ChatServer.Fanout(old(server.names), old(server.clients), KickedNotice(nickname.value, at.stamp), true, Some(id))
      ensures server.logger.file == old(server.logger.file) + Logger.Entry(at.logStamp, Logger.SystemType, Logger.KickContent(nickname.value))
      ensures server.messageCount == old(server.messageCount) + 1
      ensures server.names == old(server.names) && server.clients == old(server.clients)
      ensures server.totalConnections == old(server.totalConnections)
    {
      var n := nickname.value;
      SendMessage(KickMessage(at.stamp));
      server.logger.LogRateLimitKick(n, at.logStamp);
      server.BroadcastMessage(KickedNotice(n, at.stamp), true, Some(id));
      running := false;
    }

    /** `_handle_mute`: the MUTE frame, a log entry and a notice to everyone, this session included. */
    method HandleMute(duration: int, at: Instant)
      requires server.Valid() && nickname.Some?
      modifies server, server.logger
      ensures server.Valid()
      ensures server.wire == old(server.wire)
                             + [ChatServer.Delivery(id, MuteMessage(duration, at.stamp))]
                             + ChatServer.Fanout(old(server.names), old(server.clients), MutedNotice(nickname.value, at.stamp), false, None)
      ensures server.logger.file == old(server.logger.file) + Logger.Entry(at.logStamp, Logger.SystemType, Logger.MuteContent(nickname.value, duration))
      ensures server.messageCount == old(server.messageCount) + 1
      ensures server.names == old(server.names) && server.clients == old(server.clients)
      ensures server.totalConnections == old(server.totalConnections)
    {
      var n := nickname.value;
      SendMessage(MuteMessage(duration, at.stamp));
      server.logger.LogRateLimitMute(n, duration, at.logStamp);
      server.BroadcastMessage(MutedNotice(n, at.stamp), false, None);
    }

    /** `_handle_warning`: the WARNING frame and a log entry. */
    method HandleWarning(warningCount: int, at: Instant)
      requires server.Valid() && nickname.Some?
      modifies server, server.logger
      ensures server.Valid()
      ensures server.wire == old(server.wire) + [ChatServer.Delivery(id, WarningMessage(warningCount, at.stamp))]
      ensures server.logger.file == old(server.logger.file) + Logger.Entry(at.logStamp, Logger.SystemType, Logger.WarningContent(nickname.value, warningCount))
      ensures server.messageCount == old(server.messageCount)
      ensures server.names == old(server.names) && server.clients == old(server.clients)
      ensures server.totalConnections == old(server.totalConnections)
    {
      SendMessage(WarningMessage(warningCount, at.stamp));
      server.logger.LogRateLimitWarning(nickname.value, warningCount, at.logStamp);
    }

    /** `_handle_public_message`: the message, with this session as sender, to everyone; then a log entry. */
    method HandlePublicMessage(msg: Message, at: Instant)
      requires server.Valid() && nickname.Some?
      modifies server, server.logger
      ensures server.Valid()
      ensures server.wire == old(server.wire)
                             + ChatServer.Fanout(old(server.names), old(server.clients), msg.(sender := nickname), false, None)
      ensures server.logger.file == old(server.logger.file)
                                    + Logger.Entry(at.logStamp, Logger.PublicType, Logger.PublicContent(nickname.value, Show(msg.content)))
      ensures server.messageCount == old(server.messageCount) + 1
      ensures server.names == old(server.names) && server.clients == old(server.clients)
      ensures server.totalConnections == old(server.totalConnections)
    {
      var m := msg.(sender := nickname);
      server.BroadcastMessage(m, false, None);
      server.logger.LogPublicMessage(nickname.value, Show(m.content), at.logStamp);
    }

    /**
     * `_handle_private_message`: the message, with this session as sender, to its
     * recipient; a confirmation and a log entry when that worked, "not found" otherwise.
     */
    method HandlePrivateMessage(msg: Message, at: Instant)
      requires server.Valid() && nickname.Some?
      modifies server, server.logger
      ensures server.Valid()
      ensures var m := msg.(sender := nickname);
              Delivered(m, old(server.clients)) ==>
                && server.wire == old(server.wire) + [ChatServer.Delivery(old(server.clients)[m.recipient.value], m),
                                                      ChatServer.Delivery(id, SentConfirmation(m.recipient, at.stamp))]
                && server.logger.file == old(server.logger.file)
                                         + Logger.Entry(at.logStamp, Logger.PrivateType, Logger.PrivateContent(nickname.value, m.recipient.value, Show(m.content)))
                && server.messageCount == old(server.messageCount) + 1
      ensures var m := msg.(sender := nickname);
              !Delivered(m, old(server.clients)) ==>
                && server.wire == old(server.wire) + [ChatServer.Delivery(id, NotFoundMessage(m.recipient, at.stamp))]
                && server.logger.file == old(server.logger.file)
                && server.messageCount == old(server.messageCount)
      ensures server.names == old(server.names) && server.clients == old(server.clients)
      ensures server.totalConnections == old(server.totalConnections)
    {
      var m := msg.(sender := nickname);
      var success := server.SendPrivateMessage(m);
      if success {
        SendMessage(SentConfirmation(m.recipient, at.stamp));
        server.logger.LogPrivateMessage(nickname.value, m.recipient.value, Show(m.content), at.logStamp);
      } else {
        SendMessage(NotFoundMessage(m.recipient, at.stamp));
      }
    }

    /**
     * `_process_message`: the verdict of the rate limiter for this session's nickname,
     * then exactly the outcome `Process` gives for that verdict and message.
     */
    method ProcessMessage(msg: Message, at: Instant) returns (v: RateLimiter.Verdict)
      requires server.Valid() && nickname.Some?
      modifies this, server, server.limiter, server.logger
      ensures server.Valid() && nickname == old(nickname)
      ensures v.Kick? <==> old(server.limiter.MutedAt(nickname.value, at.ticks))
      ensures server.limiter.Checked(nickname.value, at.ticks, v)
      ensures var o := Process(v, msg, nickname.value, id, old(server.names), old(server.clients), at);
              && server.wire == old(server.wire) + o.frames
              && server.logger.file == old(server.logger.file) + o.log
              && server.messageCount == old(server.messageCount) + o.count
              && running == (old(running) && !o.stop)
      ensures server.names == old(server.names) && server.clients == old(server.clients)
      ensures server.totalConnections == old(server.totalConnections)
    {
      v := server.limiter.CheckRateLimit(nickname.value, at.ticks);
      label checked:
      Respond(v, msg, at);
      assert unchanged@checked(server.limiter);
    }

    /** The rest of `_process_message`, once the verdict is known. */
    method Respond(v: RateLimiter.Verdict, msg: Message, at: Instant)
      requires server.Valid() && nickname.Some?
      modifies this, server, server.logger
      ensures server.Valid() && nickname == old(nickname)
      ensures var o := Process(v, msg, nickname.value, id, old(server.names), old(server.clients), at);
              && server.wire == old(server.wire) + o.frames
              && server.logger.file == old(server.logger.file) + o.log
              && server.messageCount == old(server.messageCount) + o.count
              && running == (old(running) && !o.stop)
      ensures server.names == old(server.names) && server.clients == old(server.clients)
      ensures server.totalConnections == old(server.totalConnections)
    {
      ghost var wire, n, names, clients := server.wire, nickname.value, server.names, server.clients;
      match v {
        case Kick =>
          HandleKick(at);
          Assoc(wire, [ChatServer.Delivery(id, KickMessage(at.stamp))],
                ChatServer.Fanout(names, clients, KickedNotice(n, at.stamp), true, Some(id)));
        case Mute(d) =>
          HandleMute(d, at);
          Assoc(wire, [ChatServer.Delivery(id, MuteMessage(d, at.stamp))],
                ChatServer.Fanout(names, clients, MutedNotice(n, at.stamp), false, None));
        case _ =>
          Pass(v, msg, at);
      }
    }

    /** A WARNING or OK verdict: the warning, if any, then the type dispatch. */
    method Pass(v: RateLimiter.Verdict, msg: Message, at: Instant)
      requires server.Valid() && nickname.Some?
      requires v.Warning? || v.Ok?
      modifies this, server, server.logger
      ensures server.Valid() && nickname == old(nickname)
      ensures var o := Process(v, msg, nickname.value, id, old(server.names), old(server.clients), at);
              && server.wire == old(server.wire) + o.frames
              && server.logger.file == old(server.logger.file) + o.log
              && server.messageCount == old(server.messageCount) + o.count
              && running == (old(running) && !o.stop)
      ensures server.names == old(server.names) && server.clients == old(server.clients)
      ensures server.totalConnections == old(server.totalConnections)
    {
      if v.Warning? {
        ghost var o := Dispatch(msg, nickname.value, id, server.names, server.clients, at);
        ghost var wire, file := server.wire, server.logger.file;
        var w := [ChatServer.Delivery(id, WarningMessage(v.count, at.stamp))];
        var e := Logger.Entry(at.logStamp, Logger.SystemType, Logger.WarningContent(nickname.value, v.count));
        HandleWarning(v.count, at);
        DispatchMessage(msg, at);
        Assoc(wire, w, o.frames);
        Assoc(file, e, o.log);
      } else {
        DispatchMessage(msg, at);
      }
    }

    /** The type dispatch at the end of `_process_message`. */
    method DispatchMessage(msg: Message, at: Instant)
      requires server.Valid() && nickname.Some?
      modifies this, server, server.logger
      ensures server.Valid() && nickname == old(nickname)
      ensures var o := Dispatch(msg, nickname.value, id, old(server.names), old(server.clients), at);
              && server.wire == old(server.wire) + o.frames
              && server.logger.file == old(server.logger.file) + o.log
              && server.messageCount == old(server.messageCount) + o.count
              && running == (old(running) && !o.stop)
      ensures server.names == old(server.names) && server.clients == old(server.clients)
      ensures server.totalConnections == old(server.totalConnections)
    {
      if msg.msgType == Some(TypePublic) {
        HandlePublicMessage(msg, at);
      } else if msg.msgType == Some(TypePrivate) {
        HandlePrivateMessage(msg, at);
      } else if msg.msgType == Some(TypeSystem) {
        if msg.content == Some("EXIT") {
          running := false;
        }
      }
    }

    /** `_cleanup`: a session that got a nickname unregisters it and announces the leave. */
    method Cleanup(at: Instant)
      requires server.Valid()
      modifies server, server.limiter, server.logger
      ensures server.Valid()
      ensures server.totalConnections == old(server.totalConnections) && server.limiter.SameTotals()
      ensures !Truthy(nickname) ==>
                && server.wire == old(server.wire) && server.clients == old(server.clients) && server.names == old(server.names)
                && server.logger.file == old(server.logger.file) && server.messageCount == old(server.messageCount)
                && server.limiter.Kept()
      ensures Truthy(nickname) ==>
                var n := nickname.value;
                var registered := n in old(server.clients);
                && n !in server.clients
                && server.wire == old(server.wire)
                                  + ChatServer.Fanout(server.names, server.clients, ChatServer.LeaveNotice(n, at.stamp), false, None)
                                  + ChatServer.Fanout(server.names, server.clients, ChatServer.UserListMessage(server.names, at.stamp), false, None)
                && server.logger.file == old(server.logger.file)
                                         + (if registered then Logger.Entry(at.logStamp, Logger.SystemType, Logger.LeaveContent(n, address)) else "")
                                         + Logger.Entry(at.logStamp, Logger.SystemType, n + " left")
                && server.messageCount == old(server.messageCount) + 2
      ensures Truthy(nickname) && nickname.value in old(server.clients) ==>
                && server.clients == old(server.clients) - {nickname.value}
                && server.names == ChatServer.Without(old(server.names), nickname.value)
                && server.limiter.messageTimes == old(server.limiter.messageTimes) - {nickname.value}
                && server.limiter.mutedUntil == old(server.limiter.mutedUntil) - {nickname.value}
                && server.limiter.warningCounts == old(server.limiter.warningCounts) - {nickname.value}
      ensures Truthy(nickname) && nickname.value !in old(server.clients) ==>
                server.clients == old(server.clients) && server.names == old(server.names) && server.limiter.Kept()
    {
      if Truthy(nickname) {
        server.UnregisterClient(nickname, address, at);
        server.BroadcastLeave(nickname.value, at);
      }
    }

    /**
     * `_handle_client`: the handshake, then the messages of `inbox` one at a time while the
     * session runs (the end of `inbox` is the stream closing), then the clean-up.
     * `times[i]` is the clock reading for `inbox[i]`.
     */
    method Run(first: Option<Message>, draws: seq<int>, inbox: seq<Message>, times: seq<Instant>, at: Instant, atEnd: Instant)
      returns (processed: nat)
      requires server.Valid() && nickname.None?
      requires |times| == |inbox|
      requires forall k :: 0 <= k < |draws| ==> 100 <= draws[k] <= 999
      requires first.Some? && Truthy(first.value.content) && first.value.content.value in server.clients ==>
                 exists k :: 0 <= k < |draws| && ChatServer.Suffixed(first.value.content.value, draws[k]) !in server.clients
      modifies this, server, server.limiter, server.logger
      ensures server.Valid()
      ensures processed <= |inbox|
      ensures nickname.None? ==> processed == 0
      ensures nickname.Some? && processed < |inbox| ==> !running
      ensures Truthy(nickname) ==> nickname.value !in server.clients
    {
      running := true;
      var accepted := Handshake(first, draws, at);
      processed := 0;
      if accepted {
        while running && processed < |inbox|
          invariant server.Valid() && nickname.Some?
          invariant processed <= |inbox|
          decreases |inbox| - processed
        {
          var _ := ProcessMessage(inbox[processed], times[processed]);
          processed := processed + 1;
        }
      }
      Cleanup(atEnd);
    }
  }
}
