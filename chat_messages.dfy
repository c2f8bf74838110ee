/**
 * The chat-messages hook (src/hooks/useChatMessages.ts): it owns the
 * per-room message map and replaces it through the shared reducers; the
 * notification it may request is logged in `notices`.
 */
module ChatMessages {
  import opened Wrappers
  import opened Messages

  class ChatMessagesHook {
    /** The `currentUsername` argument of the hook (`undefined` is `None`). */
    const currentUsername: Option<string>
    var roomMessages: RoomMessages
    var notices: seq<Notice>

    constructor (currentUsername: Option<string>)
      ensures this.currentUsername == currentUsername && roomMessages == map[] && notices == []
    {
      this.currentUsername := currentUsername;
      roomMessages := map[];
      notices := [];
    }

    /**
     * `addMessage`: a duplicate triple changes nothing and requests nothing;
     * a new message is appended to its room and, when someone else sent it,
     * a notification is requested.
     */
    method AddMessage(room: string, m: Message)
      modifies this
      ensures roomMessages == UpdateRoomMessages(old(roomMessages), room, m)
      ensures notices == old(notices) + (if HookNotifies(old(roomMessages), room, m, currentUsername) then [Notice(room, m)] else [])
    {
      var roomMsgs := RoomOf(roomMessages, room);
      if MessageExists(roomMsgs, m) {
        return;
      }
      if currentUsername.None? || m.username != currentUsername.value {
        notices := notices + [Notice(room, m)];
      }
      roomMessages := roomMessages[room := roomMsgs + [m]];
    }

    /** `setRoomHistory`: exactly one room's list is replaced. */
    method SetRoomHistory(room: string, msgs: seq<Message>)
      modifies this`roomMessages
      ensures roomMessages == Messages.SetRoomHistory(old(roomMessages), room, msgs)
    {
      roomMessages := Messages.SetRoomHistory(roomMessages, room, msgs);
    }

    /** `updateSeenStatus`: the seen-receipt merge; a no-op for an unknown room. */
    method UpdateSeenStatus(room: string, seenBy: string)
      modifies this`roomMessages
      ensures roomMessages == UpdateSeenMessages(old(roomMessages), room, seenBy)
    {
      roomMessages := UpdateSeenMessages(roomMessages, room, seenBy);
    }
  }

  /** Delivering one message twice through the hook stores it once and requests at most one notification. */
  method DoubleDeliveryScenario(m: Message) returns (stored: seq<Message>, notified: seq<Notice>)
    ensures stored == [m]
    ensures notified == if m.username != "alice" then [Notice("General", m)] else []
  {
    var hook := new ChatMessagesHook(Some("alice"));
    hook.AddMessage("General", m);
    MessageExistsIff([m], m);
    hook.AddMessage("General", m);
    stored := hook.roomMessages["General"];
    notified := hook.notices;
  }
}
