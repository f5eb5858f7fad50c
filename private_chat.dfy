/**
 * The client's private conversations: one window per partner, kept in a table from the
 * partner's nickname to the window. A window is modelled by the lines of its chat area;
 * the widgets around it are outside the model. `focus` only raises a window on screen
 * and changes nothing here.
 */
module PrivateChat {
  import opened Optional
  import opened Strings

  /** The line shown for a message received from `sender`. */
  function ReceivedLine(sender: string, message: string): (r: string)
    ensures StartsWith(r, sender) && EndsWith(r, message) && |r| == |sender| + 2 + |message|
  {
    sender + ": " + message
  }

  /** The line shown for the user's own message. */
  function OwnLine(message: string): (r: string)
    ensures StartsWith(r, "You: ") && r[5..] == message
  {
    "You: " + message
  }

  /** The line shown for a notice. */
  function SystemLine(message: string): (r: string)
    ensures |r| == |message| + 2 && r[0] == '•' && r[2..] == message
  {
    "• " + message
  }

  class PrivateChatWindow {
    /** The partner of the conversation. */
    const targetUser: string
    /** The chat area, one entry per inserted line (each inserted with a trailing newline). */
    var lines: seq<string>
    /** False once the window has been destroyed. */
    var open: bool

    constructor (targetUser: string)
      ensures this.targetUser == targetUser && lines == [] && open
    {
      this.targetUser := targetUser;
      lines := [];
      open := true;
    }

    /** `add_message`: one more line at the end of the chat area. */
    method AddMessage(text: string)
      modifies this
      ensures lines == old(lines) + [text] && open == old(open)
    {
      lines := lines + [text];
    }

    /** `add_received_message`: the sender's name, a colon and the message. */
    method AddReceivedMessage(sender: string, message: string)
      modifies this
      ensures lines == old(lines) + [ReceivedLine(sender, message)] && open == old(open)
    {
      AddMessage(ReceivedLine(sender, message));
    }

    /** `add_system_message`: a bulleted notice. */
    method AddSystemMessage(message: string)
      modifies this
      ensures lines == old(lines) + [SystemLine(message)] && open == old(open)
    {
      AddMessage(SystemLine(message));
    }

    /**
     * `_on_send`: the typed text, stripped, is handed to the send callback together with
     * the partner's name and echoed as the user's own line; blank input does nothing.
     * The callback itself is outside the model: the message it would be given is returned.
     */
    method OnSend(input: string) returns (sent: Option<string>)
      modifies this
      ensures sent == (if Strip(input) == [] then None else Some(Strip(input)))
      ensures sent.None? ==> lines == old(lines)
      ensures sent.Some? ==> lines == old(lines) + [OwnLine(sent.value)]
      ensures open == old(open)
    {
      var message := Strip(input);
      if message == [] {
        return None;
      }
      sent := Some(message);
      AddMessage(OwnLine(message));
    }

    /** `close`: the window is destroyed. */
    method Close()
      modifies this
      ensures !open && lines == old(lines)
    {
      open := false;
    }
  }

  class PrivateChatManager {
    /** The open conversations, by partner. */
    var windows: map<string, PrivateChatWindow>

    /** Every window is filed under its own partner, so no window appears twice. */
    ghost predicate Valid()
      reads this
    {
      forall u :: u in windows ==> windows[u].targetUser == u
    }

    constructor ()
      ensures Valid() && windows == map[]
    {
      windows := map[];
    }

    /** `get_window`: the window of `user`, if one is open. */
    function GetWindow(user: string): (r: Option<PrivateChatWindow>)
      reads this
      ensures r.Some? <==> user in windows
      ensures r.Some? ==> r.value == windows[user]
    {
      if user in windows then Some(windows[user]) else None
    }

    /**
     * `open_private_chat`: no window for a conversation with oneself; the window already
     * open for `target` is returned as it is; otherwise a new empty window is filed under
     * `target`.
     */
    method OpenPrivateChat(target: string, me: string) returns (w: Option<PrivateChatWindow>)
      requires Valid()
      modifies this
      ensures Valid()
      ensures target == me ==> w.None? && windows == old(windows)
      ensures target != me && target in old(windows) ==> w == Some(old(windows)[target]) && windows == old(windows)
      ensures target != me && target !in old(windows) ==>
                && w.Some? && fresh(w.value)
                && w.value.targetUser == target && w.value.lines == [] && w.value.open
                && windows == old(windows)[target := w.value]
      ensures w.Some? ==> GetWindow(target) == w
    {
      if target == me {
        return None;
      }
      if target in windows {
        return Some(windows[target]);
      }
      var window := new PrivateChatWindow(target);
      windows := windows[target := window];
      w := Some(window);
    }

    /**
     * `handle_incoming_message`: a window for `sender` is opened when there is none, then
     * the message is added to it. Messages whose sender is the user themself are not
     * treated differently. No other window and no other entry of the table changes.
     */
    method HandleIncomingMessage(sender: string, message: string)
      requires Valid()
      modifies this, if sender in windows then {windows[sender]} else {}
      ensures Valid()
      ensures windows.Keys == old(windows.Keys) + {sender}
      ensures sender in old(windows) ==> windows[sender] == old(windows)[sender] && windows[sender].open == old(windows[sender].open)
      ensures sender !in old(windows) ==> fresh(windows[sender]) && windows[sender].open
      ensures windows[sender].lines
                == (if sender in old(windows) then old(windows[sender].lines) else [])
                   + [ReceivedLine(sender, message)]
      ensures forall u :: u in old(windows) && u != sender ==>
                windows[u] == old(windows)[u] && windows[u].lines == old(windows[u].lines) && windows[u].open == old(windows[u].open)
    {
      if sender !in windows {
        var window := new PrivateChatWindow(sender);
        windows := windows[sender := window];
      }
      windows[sender].AddReceivedMessage(sender, message);
    }

    /**
     * The `on_close` handler installed with each window: the entry of its partner is
     * removed when present (whichever window it holds), and the window is destroyed.
     */
    method OnClose(user: string, window: PrivateChatWindow)
      requires Valid()
      modifies this, window
      ensures Valid()
      ensures windows == old(windows) - {user}
      ensures !window.open && window.lines == old(window.lines)
    {
      if user in windows {
        windows := windows - {user};
      }
      window.Close();
    }

    /** `close_all`: every open window is destroyed and the table is emptied. */
    method CloseAll()
      requires Valid()
      modifies this, windows.Values
      ensures Valid() && windows == map[]
      ensures forall w :: w in old(windows.Values) ==> !w.open && w.lines == old(w.lines)
    {
      var pending := windows.Values;
      while pending != {}
        invariant pending <= old(windows.Values) && windows == old(windows)
        invariant forall w :: w in old(windows.Values) ==> w.lines == old(w.lines)
        invariant forall w :: w in old(windows.Values) - pending ==> !w.open
        decreases pending
      {
        var w :| w in pending;
        w.Close();
        pending := pending - {w};
      }
      windows := map[];
    }
  }
}
