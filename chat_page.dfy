/**
 * The chat page (src/pages/ChatPage.tsx): the state the page keeps, and the
 * socket handlers and user actions that change it. The socket's outbound
 * events are an output log (`outbox`), the browser-notification requests a
 * second log (`notices`). Effects are separate methods that the environment
 * calls after a render in which their dependencies changed.
 */
module ChatPage {
  import opened Wrappers
  import opened Messages
  import opened Socket
  import opened RoomSelection

  /** The socket event for one room call of the logged-in user. */
  function Emission(username: string, call: RoomCall): Outbound {
    match call
    case Join(r) => JoinRoom(username, r)
    case Leave(r) => LeaveRoom(username, r)
  }

  /** The socket events one room-effect run emits for a user, one per call and in the same order. */
  function RoomEmissions(username: string, calls: seq<RoomCall>): (out: seq<Outbound>)
    ensures |out| == |calls|
    ensures forall i :: 0 <= i < |calls| ==> out[i] == Emission(username, calls[i])
  {
    if calls == [] then [] else [Emission(username, calls[0])] + RoomEmissions(username, calls[1..])
  }

  /** `handleCreateRoom`'s guard on the prompt's answer: present, non-empty and not yet a room. */
  predicate MayCreateRoom(answer: Option<string>, rooms: seq<string>) {
    answer.Some? && answer.value != "" && answer.value !in rooms
  }

  class Page {
    /** The logged-in user's name, if any (read from the user context). */
    const user: Option<string>
    var rooms: seq<string>
    var selectedRoom: string
    var roomMessages: RoomMessages
    var onlineUsers: seq<string>
    var typingUser: Option<string>
    /**
     * The value of `typingUser` that the registered stop-typing handler
     * compares with: the listeners are registered by an effect that depends
     * only on the user, so they read the state of that render.
     */
    var typingSnapshot: Option<string>
    var prevRoom: Option<string>
    var outbox: seq<Outbound>
    var notices: seq<Notice>

    constructor (user: Option<string>)
      ensures this.user == user && rooms == [DefaultRoom] && selectedRoom == DefaultRoom
      ensures roomMessages == map[] && onlineUsers == [] && typingUser == None
      ensures typingSnapshot == None && prevRoom == None && outbox == [] && notices == []
    {
      this.user := user;
      rooms := [DefaultRoom];
      selectedRoom := DefaultRoom;
      roomMessages := map[];
      onlineUsers := [];
      typingUser := None;
      typingSnapshot := None;
      prevRoom := None;
      outbox := [];
      notices := [];
    }

    /** The session effect: with a user, announce the identity and register the handlers over the current state. */
    method SessionEffect()
      modifies this
      ensures user.None? ==> outbox == old(outbox) && typingSnapshot == old(typingSnapshot)
      ensures user.Some? ==> outbox == old(outbox) + [Announce(user.value)] && typingSnapshot == typingUser
      ensures typingUser == old(typingUser) && roomMessages == old(roomMessages) && notices == old(notices)
      ensures rooms == old(rooms) && selectedRoom == old(selectedRoom) && prevRoom == old(prevRoom)
      ensures onlineUsers == old(onlineUsers)
    {
      if user.Some? {
        outbox := outbox + [Announce(user.value)];
        typingSnapshot := typingUser;
      }
    }

    /** `handleReceiveMessage`: duplicate-suppressing append; a notice for every message not under the own name. */
    method ReceiveMessage(room: string, m: Message)
      modifies this`roomMessages, this`notices
      ensures roomMessages == UpdateRoomMessages(old(roomMessages), room, m)
      ensures notices == old(notices) + (if PageNotifies(user, m) then [Notice(room, m)] else [])
    {
      roomMessages := UpdateRoomMessages(roomMessages, room, m);
      if user.None? || m.username != user.value {
        notices := notices + [Notice(room, m)];
      }
    }

    /** `handleRoomList`: the room list is replaced wholesale. */
    method RoomList(roomList: seq<string>)
      modifies this`rooms
      ensures rooms == roomList
    {
      rooms := roomList;
    }

    /** `handleRoomMessageHistory`: the room's messages become exactly the delivered list. */
    method RoomHistory(room: string, msgs: seq<Message>)
      modifies this`roomMessages
      ensures roomMessages == SetRoomHistory(old(roomMessages), room, msgs)
    {
      roomMessages := SetRoomHistory(roomMessages, room, msgs);
    }

    /** `handleOnlineUsers`: the presence list is replaced wholesale. */
    method OnlineUsers(users: seq<string>)
      modifies this`onlineUsers
      ensures onlineUsers == users
    {
      onlineUsers := users;
    }

    /** `handleUserTyping`: show any typer except oneself. */
    method UserTyping(username: string)
      modifies this`typingUser
      ensures typingUser == if user.None? || username != user.value then Some(username) else old(typingUser)
    {
      if user.None? || username != user.value {
        typingUser := Some(username);
      }
    }

    /** `handleUserStopTyping`: clear the indicator when the name equals the snapshot the handler reads. */
    method UserStopTyping(username: string)
      modifies this`typingUser
      ensures typingUser == if typingSnapshot == Some(username) then None else old(typingUser)
    {
      if typingSnapshot == Some(username) {
        typingUser := None;
      }
    }

    /** `handleSeenUpdate`: merge the seen receipt into the room. */
    method SeenUpdate(room: string, seenBy: string)
      modifies this`roomMessages
      ensures roomMessages == UpdateSeenMessages(old(roomMessages), room, seenBy)
    {
      roomMessages := UpdateSeenMessages(roomMessages, room, seenBy);
    }

    /** The room effect: with a user, emit the transition's leave/join events and remember the joined room. */
    method RoomEffect()
      modifies this`outbox, this`prevRoom
      ensures user.None? ==> outbox == old(outbox) && prevRoom == old(prevRoom)
      ensures user.Some? ==>
        && outbox == old(outbox) + RoomEmissions(user.value, Transition(old(prevRoom), selectedRoom))
        && prevRoom == Some(selectedRoom)
    {
      if user.Some? && prevRoom != Some(selectedRoom) {
        if prevRoom.Some? && prevRoom.value != "" {
          outbox := outbox + [LeaveRoom(user.value, prevRoom.value)];
        }
        outbox := outbox + [JoinRoom(user.value, selectedRoom)];
        prevRoom := Some(selectedRoom);
      }
    }

    /** `handleJoinRoom`: with a user, select the room; the join itself comes from the room effect. */
    method HandleJoinRoom(room: string)
      modifies this`selectedRoom
      ensures selectedRoom == if user.Some? then room else old(selectedRoom)
    {
      if user.Some? {
        selectedRoom := room;
      }
    }

    /** `handleCreateRoom` after the prompt: ask the server for a new room only when the guard holds. */
    method HandleCreateRoom(answer: Option<string>)
      modifies this`outbox
      ensures outbox == old(outbox) + (if MayCreateRoom(answer, rooms) then [CreateRoom(answer.value)] else [])
    {
      if answer.Some? && answer.value != "" && answer.value !in rooms {
        outbox := outbox + [CreateRoom(answer.value)];
      }
    }

    /**
     * `handleSend`: with a user, build the message seen by its sender, emit it
     * and append it to the selected room without a duplicate check. The
     * timestamp is the clock's reading, passed in.
     */
    method HandleSend(content: string, timestamp: string)
      modifies this`outbox, this`roomMessages
      ensures user.None? ==> outbox == old(outbox) && roomMessages == old(roomMessages)
      ensures user.Some? ==>
        var m := Message(user.value, content, timestamp, [user.value]);
        && outbox == old(outbox) + [SendRoomMessage(selectedRoom, m)]
        && roomMessages == AppendOptimistic(old(roomMessages), selectedRoom, m)
    {
      if user.Some? {
        var m := Message(user.value, content, timestamp, [user.value]);
        outbox := outbox + [SendRoomMessage(selectedRoom, m)];
        roomMessages := AppendOptimistic(roomMessages, selectedRoom, m);
      }
    }
  }

  /**
   * "alice" sends "hi" at time `t` in "General" and the server echoes it:
   * one stored message, no notification, and the send emitted once.
   */
  method EchoScenario(t: string) returns (stored: seq<Message>, notified: seq<Notice>, sent: seq<Outbound>)
    ensures |stored| == 1 && stored[0] == Message("alice", "hi", t, ["alice"])
    ensures notified == []
    ensures sent == [Announce("alice"), JoinRoom("alice", "General"),
                     SendRoomMessage("General", Message("alice", "hi", t, ["alice"]))]
  {
    var page := new Page(Some("alice"));
    page.SessionEffect();
    page.RoomEffect();
    page.HandleSend("hi", t);
    EchoDiscarded(map[], "General", Message("alice", "hi", t, ["alice"]), Message("alice", "hi", t, []));
    page.ReceiveMessage("General", Message("alice", "hi", t, []));
    stored := page.roomMessages["General"];
    notified := page.notices;
    sent := page.outbox;
  }

  /**
   * The stop-typing handler reads the typing user of the render that
   * registered it (none, at login), so a later stop event from "bob" does
   * not clear bob's indicator.
   */
  method StaleStopTypingScenario() returns (shown: Option<string>)
    ensures shown == Some("bob")
  {
    var page := new Page(Some("alice"));
    page.SessionEffect();
    page.UserTyping("bob");
    page.UserStopTyping("bob");
    shown := page.typingUser;
  }
}
