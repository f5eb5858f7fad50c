/**
 * The relay's registry and router: the table nickname -> connection handler, the
 * rate-limiter and log it owns, and the fan-out of messages to the registered handlers.
 *
 * A handler is identified by a number. Every frame the server writes to a handler's
 * socket is recorded, in order, in `wire`; that log is what the delivery properties
 * are stated over. The dictionary `self.clients` is modelled by `clients` together with
 * `names`, its keys in insertion order (the order Python iterates a dict in).
 */
module ChatServer {
  import opened Optional
  import opened Strings
  import opened Clock
  import opened Protocol
  import Utils
  import RateLimiter
  import Logger

  type HandlerId = nat

  /** One frame written to the socket of handler `to`. */
  datatype Delivery = Delivery(to: HandlerId, message: Message)

  predicate Distinct(names: seq<string>) {
    forall i, j :: 0 <= i < j < |names| ==> names[i] != names[j]
  }

  /** `names` without `n`, order kept (`del` on a dict). */
  function Without(names: seq<string>, n: string): (r: seq<string>)
    ensures forall m :: m in r <==> m in names && m != n
    ensures Distinct(names) ==> Distinct(r)
  {
    if names == [] then []
    else if names[0] == n then Without(names[1..], n)
    else
      var rest := Without(names[1..], n);
      assert Distinct(names) ==> Distinct([names[0]] + rest) by {
        if Distinct(names) {
          DistinctCons(names, rest);
        }
      }
      [names[0]] + rest
  }

  lemma DistinctCons(names: seq<string>, rest: seq<string>)
    requires names != [] && Distinct(names)
    requires Distinct(rest) && forall m :: m in rest ==> m in names[1..]
    ensures Distinct([names[0]] + rest)
  {
    var r := [names[0]] + rest;
    forall i, j | 0 <= i < j < |r| ensures r[i] != r[j] {
      if i == 0 {
        assert r[j] in names[1..];
        var k :| 0 <= k < |names[1..]| && names[1..][k] == r[j];
        assert names[k + 1] == r[j];
      }
    }
  }

  /** The two reasons `broadcast_message` skips the handler `h` registered as `n`. */
  predicate Excluded(msg: Message, n: string, h: HandlerId, excludeSender: bool, excludeClient: Option<HandlerId>) {
    (excludeSender && msg.sender == Some(n)) || excludeClient == Some(h)
  }

  /** The frames `broadcast_message` writes, one per registered name that is not excluded, in table order. */
  function Fanout(names: seq<string>, clients: map<string, HandlerId>, msg: Message,
                  excludeSender: bool, excludeClient: Option<HandlerId>): (r: seq<Delivery>)
    ensures |r| <= |names|
  {
    if names == [] then []
    else
      var n := names[|names| - 1];
      var earlier := Fanout(names[..|names| - 1], clients, msg, excludeSender, excludeClient);
      if n in clients && !Excluded(msg, n, clients[n], excludeSender, excludeClient)
      then earlier + [Delivery(clients[n], msg)]
      else earlier
  }

  /** One more name of the table adds its frame, unless it is excluded. */
  lemma FanoutStep(names: seq<string>, i: nat, clients: map<string, HandlerId>, msg: Message,
                   excludeSender: bool, excludeClient: Option<HandlerId>)
    requires i < |names| && names[i] in clients
    ensures Fanout(names[..i + 1], clients, msg, excludeSender, excludeClient)
              == Fanout(names[..i], clients, msg, excludeSender, excludeClient)
                 + (if Excluded(msg, names[i], clients[names[i]], excludeSender, excludeClient)
                    then [] else [Delivery(clients[names[i]], msg)])
  {
    assert names[..i + 1][..i] == names[..i];
  }

  /**
   * The loop of `broadcast_message` over a snapshot of the table: the frames, in order,
   * for every registered name that is not excluded.
   */
  method FanoutFrames(names: seq<string>, clients: map<string, HandlerId>, msg: Message,
                      excludeSender: bool, excludeClient: Option<HandlerId>) returns (frames: seq<Delivery>)
    requires forall n :: n in names ==> n in clients
    ensures frames == Fanout(names, clients, msg, excludeSender, excludeClient)
  {
    frames := [];
    var i := 0;
    while i < |names|
      invariant 0 <= i <= |names|
      invariant frames == Fanout(names[..i], clients, msg, excludeSender, excludeClient)
    {
      var n := names[i];
      var h := clients[n];
      FanoutStep(names, i, clients, msg, excludeSender, excludeClient);
      if excludeSender && msg.sender == Some(n) {
      } else if excludeClient == Some(h) {
      } else {
        frames := frames + [Delivery(h, msg)];
      }
      i := i + 1;
    }
    assert names[..i] == names;
  }


  /**
   * A handler receives the broadcast exactly when some registered name maps to it and
   * neither exclusion applies to that name; nothing else is sent.
   */
  lemma {:induction false} FanoutRecipients(names: seq<string>, clients: map<string, HandlerId>, msg: Message,
                                            excludeSender: bool, excludeClient: Option<HandlerId>, d: Delivery)
    ensures d in Fanout(names, clients, msg, excludeSender, excludeClient) <==>
              && d.message == msg
              && exists n :: n in names && n in clients && clients[n] == d.to
                               && !Excluded(msg, n, d.to, excludeSender, excludeClient)
  {
    if names != [] {
      var init := names[..|names| - 1];
      FanoutRecipients(init, clients, msg, excludeSender, excludeClient, d);
      assert names == init + [names[|names| - 1]];
      forall n | n in names ensures n in init || n == names[|names| - 1] {
      }
    }
  }

  /** Without exclusions every registered handler receives the message once, in table order. */
  lemma {:induction false} FanoutToAll(names: seq<string>, clients: map<string, HandlerId>, msg: Message)
    requires forall n :: n in names ==> n in clients
    ensures |Fanout(names, clients, msg, false, None)| == |names|
    ensures forall i :: 0 <= i < |names| ==> Fanout(names, clients, msg, false, None)[i] == Delivery(clients[names[i]], msg)
  {
    if names != [] {
      var init := names[..|names| - 1];
      FanoutToAll(init, clients, msg);
    }
  }

  /** A message without a sender never matches the `exclude_sender` rule. */
  lemma {:induction false} FanoutSenderless(names: seq<string>, clients: map<string, HandlerId>, msg: Message,
                                            excludeClient: Option<HandlerId>)
    requires msg.sender.None?
    ensures Fanout(names, clients, msg, true, excludeClient) == Fanout(names, clients, msg, false, excludeClient)
  {
    if names != [] {
      FanoutSenderless(names[..|names| - 1], clients, msg, excludeClient);
    }
  }

  /** The USER_LIST message: the comma-join of all registered names. */
  function UserListMessage(names: seq<string>, clock: string): (m: Message)
    ensures m.msgType == Some(TypeUserList) && m.content == Some(Join(",", names))
    ensures m.sender == None && m.recipient == None
  {
    CreateMessage(TypeUserList, None, None, Some(Join(",", names)), clock)
  }

  /** The JOIN notice: a server message without sender or recipient that names the new user first. */
  function JoinNotice(nickname: string, clock: string): (m: Message)
    ensures m.msgType == Some(TypeJoin) && m.sender == None && m.recipient == None && m.timestamp == clock
    ensures m.content.Some? && StartsWith(m.content.value, nickname)
  {
    CreateMessage(TypeJoin, None, None, Some(nickname + " joined the chat"), clock)
  }

  /** The LEAVE notice: a server message without sender or recipient that names the leaving user first. */
  function LeaveNotice(nickname: string, clock: string): (m: Message)
    ensures m.msgType == Some(TypeLeave) && m.sender == None && m.recipient == None && m.timestamp == clock
    ensures m.content.Some? && StartsWith(m.content.value, nickname)
  {
    CreateMessage(TypeLeave, None, None, Some(nickname + " left the chat"), clock)
  }

  /** The name the suffix loop tries after `requested` is taken, for one draw. */
  function Suffixed(requested: string, draw: int): (r: string)
    requires 100 <= draw <= 999
    ensures StartsWith(r, requested) && |r| == |requested| + 3 && r != requested
  {
    requested + Utils.RandomSuffix(draw)
  }

  class ChatServer {
    const limiter: RateLimiter.RateLimiter
    const logger: Logger.ChatLogger

    var names: seq<string>
    var clients: map<string, HandlerId>
    var wire: seq<Delivery>
    var messageCount: nat
    var totalConnections: nat

    /**
     * `names` lists the keys of `clients` once each; every registered name has
     * rate-limiter state.
     */
    ghost predicate Valid()
      reads this, limiter, logger
    {
      && Distinct(names)
      && (forall n :: n in clients <==> n in names)
      && limiter.Valid()
      && logger.Valid()
      && (forall n :: n in clients ==> n in limiter.messageTimes)
    }

    constructor (rateWindow: int, rateMax: int, severeWindow: int, severeMax: int, muteDuration: int,
                 existingLog: string, at: Instant)
      ensures Valid()
      ensures names == [] && clients == map[] && wire == []
      ensures messageCount == 0 && totalConnections == 0
      ensures fresh(limiter) && fresh(logger)
      ensures limiter.messageTimes == map[] && limiter.rateWindow == rateWindow && limiter.rateMax == rateMax
      ensures limiter.severeWindow == severeWindow && limiter.severeMax == severeMax
      ensures limiter.muteDuration == muteDuration
      ensures logger.file == existingLog + Logger.Header(at.logStamp)
    {
      limiter := new RateLimiter.RateLimiter(rateWindow, rateMax, severeWindow, severeMax, muteDuration);
      logger := new Logger.ChatLogger(existingLog, at.logStamp);
      names := [];
      clients := map[];
      wire := [];
      messageCount := 0;
      totalConnections := 0;
    }

    /** `_accept_clients`: each accepted connection is counted. */
    method AcceptConnection()
      modifies this
      ensures totalConnections == old(totalConnections) + 1
      ensures names == old(names) && clients == old(clients) && wire == old(wire)
      ensures messageCount == old(messageCount)
    {
      totalConnections := totalConnections + 1;
    }

    /** The `while nickname in self.clients` loop of `register_client`. */
    method FreeName(requested: string, draws: seq<int>) returns (n: string)
      requires forall k :: 0 <= k < |draws| ==> 100 <= draws[k] <= 999
      requires requested in clients ==> exists k :: 0 <= k < |draws| && Suffixed(requested, draws[k]) !in clients
      ensures n !in clients
      ensures n == requested <==> requested !in clients
      ensures requested in clients ==>
                exists k :: 0 <= k < |draws| && n == Suffixed(requested, draws[k])
                            && forall j :: 0 <= j < k ==> Suffixed(requested, draws[j]) in clients
    {
      n := requested;
      var i := 0;
      while n in clients
        invariant 0 <= i <= |draws|
        invariant i == 0 ==> n == requested
        invariant i > 0 ==> requested in clients && n == Suffixed(requested, draws[i - 1])
        invariant forall j :: 0 <= j < i - 1 ==> Suffixed(requested, draws[j]) in clients
        invariant n in clients ==> exists k :: i <= k < |draws| && Suffixed(requested, draws[k]) !in clients
        decreases |draws| - i
      {
        n := Suffixed(requested, draws[i]);
        i := i + 1;
      }
      assert i > 0 ==> |n| == |requested| + 3;
    }

    /**
     * `register_client`. A requested name starting with `*` is refused and nothing
     * changes. Otherwise the requested name is taken when free; if not, suffixes drawn
     * from `draws` (the successive `random.randint(100, 999)` results) are tried in order
     * and the first free one is taken. The name is added to the table, given fresh
     * rate-limiter state, and logged as a join.
     */
    method RegisterClient(handler: HandlerId, address: string, requested: string, draws: seq<int>, at: Instant)
      returns (nickname: Option<string>)
      requires Valid()
      requires forall k :: 0 <= k < |draws| ==> 100 <= draws[k] <= 999
      requires requested in clients ==> exists k :: 0 <= k < |draws| && Suffixed(requested, draws[k]) !in clients
      modifies this, limiter, logger
      ensures Valid()
      ensures wire == old(wire) && messageCount == old(messageCount) && totalConnections == old(totalConnections)
      ensures limiter.SameTotals()
      ensures StartsWith(requested, "*") ==>
                && nickname == None
                && names == old(names) && clients == old(clients)
                && limiter.Kept()
                && logger.file == old(logger.file)
      ensures !StartsWith(requested, "*") ==>
                && nickname.Some?
                && nickname.value !in old(clients)
                && clients == old(clients)[nickname.value := handler]
                && names == old(names) + [nickname.value]
                && (nickname.value == requested <==> requested !in old(clients))
                && (requested in old(clients) ==>
                      exists k :: 0 <= k < |draws| && nickname.value == Suffixed(requested, draws[k])
                                  && forall j :: 0 <= j < k ==> Suffixed(requested, draws[j]) in old(clients))
                && limiter.messageTimes == old(limiter.messageTimes)[nickname.value := []]
                && limiter.mutedUntil == old(limiter.mutedUntil)[nickname.value := None]
                && limiter.warningCounts == old(limiter.warningCounts)[nickname.value := 0]
                && logger.file == old(logger.file) + Logger.Entry(at.logStamp, Logger.SystemType,
                                                                   Logger.JoinContent(nickname.value, address))
    {
      if StartsWith(requested, "*") {
        return None;
      }

      var n := FreeName(requested, draws);
      Admit(n, handler, address, at);
      nickname := Some(n);
    }

    /** The bookkeeping of `register_client` once a free name is chosen. */
    method Admit(n: string, handler: HandlerId, address: string, at: Instant)
      requires Valid() && n !in clients
      modifies this, limiter, logger
      ensures Valid()
      ensures wire == old(wire) && messageCount == old(messageCount) && totalConnections == old(totalConnections)
      ensures clients == old(clients)[n := handler] && names == old(names) + [n]
      ensures limiter.SameTotals()
      ensures limiter.messageTimes == old(limiter.messageTimes)[n := []]
      ensures limiter.mutedUntil == old(limiter.mutedUntil)[n := None]
      ensures limiter.warningCounts == old(limiter.warningCounts)[n := 0]
      ensures logger.file == old(logger.file) + Logger.Entry(at.logStamp, Logger.SystemType,
                                                             Logger.JoinContent(n, address))
    {
      clients := clients[n := handler];
      names := names + [n];
      limiter.AddClient(n);
      logger.LogUserJoin(n, address, at.logStamp);
    }

    /**
     * `unregister_client`: a registered name leaves the table and loses its rate-limiter
     * state, and a leave entry is logged; no name, an empty name or an unknown name
     * changes nothing.
     */
    method UnregisterClient(nickname: Option<string>, address: string, at: Instant)
      requires Valid()
      modifies this, limiter, logger
      ensures Valid()
      ensures wire == old(wire) && messageCount == old(messageCount) && totalConnections == old(totalConnections)
      ensures limiter.SameTotals()
      ensures (nickname.None? || nickname.value == "" || nickname.value !in old(clients)) ==>
                && names == old(names) && clients == old(clients)
                && limiter.Kept()
                && logger.file == old(logger.file)
      ensures nickname.Some? && nickname.value != "" && nickname.value in old(clients) ==>
                && clients == old(clients) - {nickname.value}
                && names == Without(old(names), nickname.value)
                && limiter.messageTimes == old(limiter.messageTimes) - {nickname.value}
                && limiter.mutedUntil == old(limiter.mutedUntil) - {nickname.value}
                && limiter.warningCounts == old(limiter.warningCounts) - {nickname.value}
                && logger.file == old(logger.file) + Logger.Entry(at.logStamp, Logger.SystemType,
                                                                   Logger.LeaveContent(nickname.value, address))
    {
      if nickname.None? || nickname.value == "" {
        return;
      }
      var n := nickname.value;
      if n in clients {
        clients := clients - {n};
        names := Without(names, n);
        limiter.RemoveClient(n);
        logger.LogUserLeave(n, address, at.logStamp);
      }
    }

    /**
     * `broadcast_message`: one frame to each registered handler that is not excluded, in
     * table order; the message count goes up by one however many frames were written.
     */
    method BroadcastMessage(msg: Message, excludeSender: bool, excludeClient: Option<HandlerId>)
      requires Valid()
      modifies this`wire, this`messageCount
      ensures Valid()
      ensures wire == old(wire) + Fanout(old(names), old(clients), msg, excludeSender, excludeClient)
      ensures messageCount == old(messageCount) + 1
      ensures names == old(names) && clients == old(clients) && totalConnections == old(totalConnections)
    {
      var frames := FanoutFrames(names, clients, msg, excludeSender, excludeClient);
      wire := wire + frames;
      messageCount := messageCount + 1;
    }

    /**
     * `send_private_message`: when the recipient is registered, one frame to its handler,
     * the message count goes up and the result is true; otherwise nothing changes.
     */
    method SendPrivateMessage(msg: Message) returns (ok: bool)
      requires Valid()
      modifies this
      ensures Valid()
      ensures ok <==> msg.recipient.Some? && msg.recipient.value in old(clients)
      ensures ok ==> wire == old(wire) + [Delivery(old(clients)[msg.recipient.value], msg)]
                     && messageCount == old(messageCount) + 1
      ensures !ok ==> wire == old(wire) && messageCount == old(messageCount)
      ensures names == old(names) && clients == old(clients) && totalConnections == old(totalConnections)
    {
      if msg.recipient.Some? && msg.recipient.value in clients {
        var h := clients[msg.recipient.value];
        wire := wire + [Delivery(h, msg)];
        messageCount := messageCount + 1;
        return true;
      }
      return false;
    }

    /** `send_user_list`: the roster, sent to one handler. */
    method SendUserList(handler: HandlerId, at: Instant)
      requires Valid()
      modifies this
      ensures Valid()
      ensures wire == old(wire) + [Delivery(handler, UserListMessage(old(names), at.stamp))]
      ensures names == old(names) && clients == old(clients)
      ensures messageCount == old(messageCount) && totalConnections == old(totalConnections)
    {
      wire := wire + [Delivery(handler, UserListMessage(names, at.stamp))];
    }

    /** `_broadcast_user_list`: the roster, broadcast to everyone. */
    method BroadcastUserList(at: Instant)
      requires Valid()
      modifies this
      ensures Valid()
      ensures wire == old(wire) + Fanout(old(names), old(clients), UserListMessage(old(names), at.stamp), false, None)
      ensures messageCount == old(messageCount) + 1
      ensures names == old(names) && clients == old(clients) && totalConnections == old(totalConnections)
    {
      BroadcastMessage(UserListMessage(names, at.stamp), false, None);
    }

    /** `broadcast_join`: the JOIN notice, a log entry, then the roster to everyone. */
    method BroadcastJoin(nickname: string, at: Instant)
      requires Valid()
      modifies this, logger
      ensures Valid()
      ensures wire == old(wire) + Fanout(old(names), old(clients), JoinNotice(nickname, at.stamp), false, None)
                                + Fanout(old(names), old(clients), UserListMessage(old(names), at.stamp), false, None)
      ensures messageCount == old(messageCount) + 2
      ensures logger.file == old(logger.file) + Logger.Entry(at.logStamp, Logger.SystemType, nickname + " joined")
      ensures names == old(names) && clients == old(clients) && totalConnections == old(totalConnections)
    {
      BroadcastMessage(JoinNotice(nickname, at.stamp), false, None);
      logger.LogSystemEvent(nickname + " joined", at.logStamp);
      BroadcastUserList(at);
    }

    /** `broadcast_leave`: the LEAVE notice, a log entry, then the roster to everyone. */
    method BroadcastLeave(nickname: string, at: Instant)
      requires Valid()
      modifies this, logger
      ensures Valid()
      ensures wire == old(wire) + Fanout(old(names), old(clients), LeaveNotice(nickname, at.stamp), false, None)
                                + Fanout(old(names), old(clients), UserListMessage(old(names), at.stamp), false, None)
      ensures messageCount == old(messageCount) + 2
      ensures logger.file == old(logger.file) + Logger.Entry(at.logStamp, Logger.SystemType, nickname + " left")
      ensures names == old(names) && clients == old(clients) && totalConnections == old(totalConnections)
    {
      BroadcastMessage(LeaveNotice(nickname, at.stamp), false, None);
      logger.LogSystemEvent(nickname + " left", at.logStamp);
      BroadcastUserList(at);
    }
  }
}
