/**
 * The parts of the desktop client that read what the server sends and decide what the
 * user may send: the roster shown beside the chat, the nickname the server assigned,
 * the mute state with its unmute timer, and the gate in front of the two send paths.
 * The windows, dialogs and colours are outside the model; the network handler is
 * represented by the list of messages handed to it.
 */
module ChatClient {
  import opened Optional
  import opened Strings
  import ChatServer
  import ClientHandler
  import PrivateChat

  // ---------------------------------------------------------------------------
  // The roster

  /** The users of the list that are not the client itself (`u != self.nickname`), in order. */
  function Filtered(users: seq<string>, me: Option<string>): (r: seq<string>)
    ensures |r| <= |users|
    ensures forall u :: u in r <==> u in users && Some(u) != me
  {
    if users == [] then []
    else
      var rest := Filtered(users[1..], me);
      assert forall u :: u in users <==> u == users[0] || u in users[1..];
      if Some(users[0]) == me then rest else [users[0]] + rest
  }

  /** `_handle_user_list`: the comma-separated names of the roster message without the client's own. */
  function FilterRoster(content: string, me: Option<string>): (r: seq<string>)
    ensures |r| <= |Split(content, ',')|
    ensures forall u :: u in r <==> u in Split(content, ',') && Some(u) != me
  {
    Filtered(Split(content, ','), me)
  }

  /** Before the client knows its name, nothing is filtered out. */
  lemma {:induction false} FilteredAnonymous(users: seq<string>)
    ensures Filtered(users, None) == users
  {
    if users != [] {
      FilteredAnonymous(users[1..]);
      assert users == [users[0]] + users[1..];
    }
  }

  /** Filtering out one's own name is the server's removal of that name from the roster. */
  lemma {:induction false} FilteredIsWithout(users: seq<string>, me: string)
    ensures Filtered(users, Some(me)) == ChatServer.Without(users, me)
  {
    if users != [] {
      FilteredIsWithout(users[1..], me);
    }
  }

  /** A roster without repeats loses exactly one entry when the client is on it. */
  lemma {:induction false} FilteredDropsOne(users: seq<string>, me: string)
    requires ChatServer.Distinct(users) && me in users
    ensures |Filtered(users, Some(me))| == |users| - 1
  {
    if users[0] == me {
      assert me !in users[1..] by {
        forall i | 0 <= i < |users[1..]| ensures users[1..][i] != me {
          assert users[1..][i] == users[i + 1];
        }
      }
      assert Filtered(users[1..], Some(me)) == users[1..] by {
        FilteredKeepsAll(users[1..], me);
      }
    } else {
      assert me in users[1..] by {
        var i :| 0 <= i < |users| && users[i] == me;
        assert users[1..][i - 1] == me;
      }
      assert ChatServer.Distinct(users[1..]) by {
        forall i, j | 0 <= i < j < |users[1..]| ensures users[1..][i] != users[1..][j] {
          assert users[1..][i] == users[i + 1] && users[1..][j] == users[j + 1];
        }
      }
      FilteredDropsOne(users[1..], me);
    }
  }

  /** A list that does not hold the client's name is shown as it is. */
  lemma {:induction false} FilteredKeepsAll(users: seq<string>, me: string)
    requires me !in users
    ensures Filtered(users, Some(me)) == users
  {
    if users != [] {
      assert users == [users[0]] + users[1..];
      FilteredKeepsAll(users[1..], me);
    }
  }

  /**
   * The roster the server sends (`",".join(names)`) is shown as those names in the same
   * order without the client's own, when no name holds a comma.
   */
  lemma RosterRoundTrip(names: seq<string>, me: Option<string>)
    requires names != []
    requires forall k :: 0 <= k < |names| ==> ',' !in names[k]
    ensures FilterRoster(Join(",", names), me) == Filtered(names, me)
  {
    SplitJoin(names, ',');
  }

  /** A registered name `a,b` holding one comma shows up as the two names `a` and `b`. */
  lemma CommaNameSplits(a: string, b: string)
    requires ',' !in a && ',' !in b
    ensures FilterRoster(Join(",", [a + "," + b]), None) == [a, b]
  {
    assert Join(",", [a + "," + b]) == Join([','], [a, b]);
    SplitJoin([a, b], ',');
    FilteredAnonymous([a, b]);
  }

  // ---------------------------------------------------------------------------
  // The assigned nickname

  /** The separator of the server's welcome text. */
  const ConnectedPrefix := "Connected as "

  /** `message.split("Connected as ")[-1]`. */
  function ExtractNickname(message: string): (r: string)
    ensures EndsWith(message, r)
    ensures !Contains(r, ConnectedPrefix)
    ensures !Contains(message, ConnectedPrefix) ==> r == message
  {
    var pieces := SplitOn(message, ConnectedPrefix);
    pieces[|pieces| - 1]
  }

  /**
   * The name read from the welcome message is the name the server registered, when that
   * name does not itself hold the separator.
   */
  lemma NicknameRoundTrip(nickname: string, clock: string)
    requires !Contains(nickname, ConnectedPrefix)
    ensures ExtractNickname(ClientHandler.ConnectedMessage(nickname, clock).content.value) == nickname
  {
    SplitOnLeading(ConnectedPrefix, nickname);
  }

  // ---------------------------------------------------------------------------
  // The mute duration

  /** `int(content.split()[5])`; a missing content, a short text or a bad number give nothing. */
  function ParseMuteDuration(content: Option<string>): (r: Option<int>)
    ensures r.Some? ==> content.Some? && |Words(content.value)| > 5
  {
    match content
    case None => None
    case Some(text) =>
      var words := Words(text);
      if |words| <= 5 then None else ParseInt(words[5])
  }

  /** The words of the mute notice: five fixed words, the duration and "seconds". */
  function MuteWords(duration: int): seq<string> {
    ["You", "have", "been", "muted", "for", IntToString(duration), "seconds"]
  }

  /** The mute notice the server sends is read back as its duration. */
  lemma MuteDurationRoundTrip(duration: int)
    ensures ParseMuteDuration(Some(ClientHandler.MuteText(duration))) == Some(duration)
  {
    MuteTextJoined(duration);
    MuteWordsPlain(duration);
    WordsOfJoin(MuteWords(duration));
    ParseIntRoundTrip(duration);
  }

  /** Every word of the mute notice is non-empty and free of whitespace. */
  lemma MuteWordsPlain(duration: int)
    ensures forall k :: 0 <= k < |MuteWords(duration)| ==> MuteWords(duration)[k] != [] && NoSpace(MuteWords(duration)[k])
  {
  }

  /** The mute notice is its words joined by single spaces. */
  lemma MuteTextJoined(duration: int)
    ensures Join(" ", MuteWords(duration)) == ClientHandler.MuteText(duration)
  {
    var s := IntToString(duration);
    var lead := ["You", "have", "been", "muted", "for"];
    assert MuteWords(duration) == lead + [s] + ["seconds"];
    LeadJoined();
    JoinSnoc(" ", lead, s);
    JoinSnoc(" ", lead + [s], "seconds");
    MuteTextGlued(s);
  }

  /** The joined words and the notice as the server writes it are the same string. */
  lemma MuteTextGlued(s: string)
    ensures "You have been muted for" + " " + s + " " + "seconds" == "You have been muted for " + s + " seconds"
  {
    assert "You have been muted for" + " " == "You have been muted for ";
    assert " " + "seconds" == " seconds";
    Assoc("You have been muted for " + s, " ", "seconds");
  }

  lemma LeadJoined()
    ensures Join(" ", ["You", "have", "been", "muted", "for"]) == "You have been muted for"
  {
    var lead := ["You", "have", "been", "muted", "for"];
    assert lead[1..] == ["have", "been", "muted", "for"];
    assert lead[1..][1..] == ["been", "muted", "for"];
    assert lead[1..][1..][1..] == ["muted", "for"];
    assert lead[1..][1..][1..][1..] == ["for"];
  }

  // ---------------------------------------------------------------------------
  // The client

  /** What the client hands to the network handler. */
  datatype Outgoing = PublicSend(text: string) | PrivateSend(recipient: string, text: string)

  /** A scheduled call of `_unmute`: its timer id and its delay in milliseconds. */
  datatype Timer = Timer(id: nat, delayMs: int)

  class ChatClient {
    /** The name asked for, then the name the server assigned. */
    var nickname: Option<string>
    var isMuted: bool
    /** `mute_timer_id`: the pending unmute, if any. */
    var muteTimer: Option<Timer>
    /** The unmute timers that are scheduled and not cancelled. */
    var pending: set<nat>
    /** The id the next scheduled timer gets. */
    var nextTimer: nat
    /** The user list on screen. */
    var roster: seq<string>
    /** Every message handed to the network handler, in order. */
    var outbox: seq<Outgoing>
    const privateChats: PrivateChat.PrivateChatManager

    /** At most one unmute is scheduled: the one `mute_timer_id` names. */
    ghost predicate Valid()
      reads this
    {
      && pending == (if muteTimer.Some? then {muteTimer.value.id} else {})
      && (muteTimer.Some? ==> muteTimer.value.id < nextTimer)
    }

    constructor ()
      ensures Valid()
      ensures nickname.None? && !isMuted && muteTimer.None? && roster == [] && outbox == []
      ensures fresh(privateChats) && privateChats.windows == map[] && privateChats.Valid()
    {
      nickname := None;
      isMuted := false;
      muteTimer := None;
      pending := {};
      nextTimer := 0;
      roster := [];
      outbox := [];
      privateChats := new PrivateChat.PrivateChatManager();
    }

    /**
     * `_connect_to_server`, given the name typed in the dialog (none when it was
     * cancelled) and the network handler's answer: without a name or when the server
     * refuses, the client gives up; otherwise it takes the name from the welcome text.
     */
    method Connect(requested: Option<string>, success: bool, response: string) returns (connected: bool)
      modifies this
      ensures connected <==> requested.Some? && requested.value != [] && success
      ensures connected ==> nickname == Some(ExtractNickname(response))
      ensures !connected ==> nickname == requested
      ensures isMuted == old(isMuted) && muteTimer == old(muteTimer) && pending == old(pending)
      ensures nextTimer == old(nextTimer) && roster == old(roster) && outbox == old(outbox)
    {
      nickname := requested;
      if requested.None? || requested.value == [] {
        return false;
      }
      if !success {
        return false;
      }
      nickname := Some(ExtractNickname(response));
      connected := true;
    }

    /** `_handle_user_list`: a non-empty roster replaces the list on screen. */
    method HandleUserList(content: Option<string>)
      modifies this
      ensures content.Some? && content.value != [] ==> roster == FilterRoster(content.value, nickname)
      ensures !(content.Some? && content.value != []) ==> roster == old(roster)
      ensures nickname == old(nickname) && isMuted == old(isMuted) && muteTimer == old(muteTimer)
      ensures pending == old(pending) && nextTimer == old(nextTimer) && outbox == old(outbox)
    {
      if content.Some? && content.value != [] {
        roster := FilterRoster(content.value, nickname);
      }
    }

    /**
     * `_handle_mute`: the client is muted; when the notice carries a duration, an unmute
     * is scheduled that many seconds ahead and the one scheduled before is cancelled.
     */
    method HandleMute(content: Option<string>)
      requires Valid()
      modifies this
      ensures Valid() && isMuted
      ensures ParseMuteDuration(content).None? ==>
                muteTimer == old(muteTimer) && pending == old(pending) && nextTimer == old(nextTimer)
      ensures ParseMuteDuration(content).Some? ==>
                && muteTimer == Some(Timer(old(nextTimer), ParseMuteDuration(content).value * 1000))
                && pending == {old(nextTimer)} && nextTimer == old(nextTimer) + 1
      ensures nickname == old(nickname) && roster == old(roster) && outbox == old(outbox)
    {
      isMuted := true;
      var duration := ParseMuteDuration(content);
      if duration.Some? {
        StartUnmuteTimer(duration.value);
      }
    }

    /** `_start_unmute_timer`: a pending unmute is cancelled and a new one scheduled. */
    method StartUnmuteTimer(duration: int)
      requires Valid()
      modifies this
      ensures Valid()
      ensures muteTimer == Some(Timer(old(nextTimer), duration * 1000))
      ensures pending == {old(nextTimer)} && nextTimer == old(nextTimer) + 1
      ensures nickname == old(nickname) && isMuted == old(isMuted)
      ensures roster == old(roster) && outbox == old(outbox)
    {
      if muteTimer.Some? {
        pending := pending - {muteTimer.value.id};
      }
      muteTimer := Some(Timer(nextTimer, duration * 1000));
      pending := pending + {nextTimer};
      nextTimer := nextTimer + 1;
    }

    /** `_unmute`, run by the pending timer: sending is allowed again and no unmute is pending. */
    method Unmute()
      requires Valid()
      modifies this
      ensures Valid()
      ensures !isMuted && muteTimer.None? && pending == {}
      ensures nickname == old(nickname) && nextTimer == old(nextTimer)
      ensures roster == old(roster) && outbox == old(outbox)
    {
      isMuted := false;
      muteTimer := None;
      pending := {};
    }

    /** `_handle_send`: a public message goes to the network unless the client is muted. */
    method HandleSend(message: string) returns (sent: bool)
      modifies this
      ensures sent <==> !old(isMuted)
      ensures outbox == old(outbox) + (if sent then [PublicSend(message)] else [])
      ensures nickname == old(nickname) && isMuted == old(isMuted) && muteTimer == old(muteTimer)
      ensures pending == old(pending) && nextTimer == old(nextTimer) && roster == old(roster)
    {
      if isMuted {
        return false;
      }
      outbox := outbox + [PublicSend(message)];
      sent := true;
    }

    /** `_send_private_message`: the same gate in front of the private path. */
    method SendPrivateMessage(recipient: string, message: string) returns (sent: bool)
      modifies this
      ensures sent <==> !old(isMuted)
      ensures outbox == old(outbox) + (if sent then [PrivateSend(recipient, message)] else [])
      ensures nickname == old(nickname) && isMuted == old(isMuted) && muteTimer == old(muteTimer)
      ensures pending == old(pending) && nextTimer == old(nextTimer) && roster == old(roster)
    {
      if isMuted {
        return false;
      }
      outbox := outbox + [PrivateSend(recipient, message)];
      sent := true;
    }
  }
}
