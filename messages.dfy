/**
 * Per-room message reconciliation: the pure reducers that the chat page
 * (src/pages/ChatPage.tsx) and the chat-messages hook
 * (src/hooks/useChatMessages.ts) hand to `setRoomMessages`. Both files
 * contain the same duplicate check and the same seen-receipt merge; they
 * are defined once here.
 */
module Messages {
  import opened Wrappers

  /** A chat message; an absent `seenBy` array behaves as the empty one. */
  datatype Message = Message(username: string, content: string, timestamp: string, seenBy: seq<string>)

  /** Room name to that room's messages, in arrival order. */
  type RoomMessages = map<string, seq<Message>>

  /** A request to show a browser notification (and play the sound) for a message in a room. */
  datatype Notice = Notice(room: string, message: Message)

  /** Two messages are one logical event when username, timestamp and content agree. */
  predicate SameEvent(a: Message, b: Message) {
    a.username == b.username && a.timestamp == b.timestamp && a.content == b.content
  }

  /** `checkMessageExists`: `messages.some(...)` scanning from the front. */
  predicate MessageExists(msgs: seq<Message>, m: Message)
    decreases |msgs|
  {
    |msgs| > 0 && (SameEvent(msgs[0], m) || MessageExists(msgs[1..], m))
  }

  /** The scan finds the message exactly when some stored message is the same event; `seenBy` plays no part. */
  lemma {:induction false} MessageExistsIff(msgs: seq<Message>, m: Message)
    ensures MessageExists(msgs, m) <==> exists i :: 0 <= i < |msgs| && SameEvent(msgs[i], m)
    decreases |msgs|
  {
    if |msgs| > 0 {
      MessageExistsIff(msgs[1..], m);
      if !SameEvent(msgs[0], m) && exists i :: 0 <= i < |msgs| && SameEvent(msgs[i], m) {
        var i :| 0 <= i < |msgs| && SameEvent(msgs[i], m);
        assert msgs[1..][i - 1] == msgs[i];
      }
    }
  }

  /** The duplicate check looks only at the triple: messages differing only in `seenBy` are interchangeable. */
  lemma {:induction false} MessageExistsIgnoresSeenBy(msgs: seq<Message>, m: Message, seen: seq<string>)
    ensures MessageExists(msgs, m) == MessageExists(msgs, m.(seenBy := seen))
    decreases |msgs|
  {
    if |msgs| > 0 { MessageExistsIgnoresSeenBy(msgs[1..], m, seen); }
  }

  /** `prev[room] || []`: a room without an entry reads as empty. */
  function RoomOf(rm: RoomMessages, room: string): seq<Message> {
    if room in rm then rm[room] else []
  }

  /** `updateRoomMessages`: append unless the room already holds the same event. */
  function UpdateRoomMessages(rm: RoomMessages, room: string, m: Message): (r: RoomMessages)
    ensures MessageExists(RoomOf(rm, room), m) ==> r == rm
    ensures !MessageExists(RoomOf(rm, room), m) ==>
      && r.Keys == rm.Keys + {room}
      && r[room] == RoomOf(rm, room) + [m]
      && forall k :: k in rm && k != room ==> r[k] == rm[k]
  {
    var roomMsgs := RoomOf(rm, room);
    if MessageExists(roomMsgs, m) then rm else rm[room := roomMsgs + [m]]
  }

  /** After an update the event is present in the room, whichever branch was taken. */
  lemma UpdateRoomMessagesContains(rm: RoomMessages, room: string, m: Message)
    ensures MessageExists(RoomOf(UpdateRoomMessages(rm, room, m), room), m)
  {
    var r := UpdateRoomMessages(rm, room, m);
    if !MessageExists(RoomOf(rm, room), m) {
      MessageExistsIff(RoomOf(r, room), m);
      assert RoomOf(r, room)[|RoomOf(r, room)| - 1] == m;
    }
  }

  /** Delivering the same message twice equals delivering it once. */
  lemma UpdateRoomMessagesIdempotent(rm: RoomMessages, room: string, m: Message)
    ensures UpdateRoomMessages(UpdateRoomMessages(rm, room, m), room, m) == UpdateRoomMessages(rm, room, m)
  {
    UpdateRoomMessagesContains(rm, room, m);
  }

  /** Receiving only appends: every room's old list is a prefix of its new list. */
  lemma UpdateRoomMessagesAppendOnly(rm: RoomMessages, room: string, m: Message)
    ensures forall k :: k in rm ==>
      k in UpdateRoomMessages(rm, room, m) && rm[k] <= UpdateRoomMessages(rm, room, m)[k]
  {
  }

  /** How many stored messages are the same event as `m`. */
  function CountEvent(msgs: seq<Message>, m: Message): nat
    decreases |msgs|
  {
    if msgs == [] then 0 else (if SameEvent(msgs[0], m) then 1 else 0) + CountEvent(msgs[1..], m)
  }

  /** A present event is counted at least once, an absent one not at all. */
  lemma {:induction false} CountEventPositive(msgs: seq<Message>, m: Message)
    ensures CountEvent(msgs, m) > 0 <==> MessageExists(msgs, m)
    decreases |msgs|
  {
    if msgs != [] { CountEventPositive(msgs[1..], m); }
  }

  /** Counting distributes over concatenation. */
  lemma {:induction false} CountEventAppend(a: seq<Message>, b: seq<Message>, m: Message)
    ensures CountEvent(a + b, m) == CountEvent(a, m) + CountEvent(b, m)
    decreases |a|
  {
    if a == [] {
      assert a + b == b;
    } else {
      assert (a + b)[1..] == a[1..] + b;
      CountEventAppend(a[1..], b, m);
    }
  }

  /**
   * Duplicate suppression: if a room holds an event at most once, it holds it
   * exactly once after the event is received, so any number of deliveries of
   * one triple leave one stored message.
   */
  lemma ReceiveStoresOnce(rm: RoomMessages, room: string, m: Message)
    requires CountEvent(RoomOf(rm, room), m) <= 1
    ensures CountEvent(RoomOf(UpdateRoomMessages(rm, room, m), room), m) == 1
  {
    var old_ := RoomOf(rm, room);
    CountEventPositive(old_, m);
    if !MessageExists(old_, m) {
      CountEventAppend(old_, [m], m);
      assert [m][1..] == [];
    }
  }

  /** One message with `user` added to `seenBy` when it is not there yet. */
  function MarkSeen(msg: Message, user: string): (r: Message)
    ensures r.username == msg.username && r.content == msg.content && r.timestamp == msg.timestamp
    ensures msg.seenBy <= r.seenBy && user in r.seenBy
    ensures user in msg.seenBy ==> r == msg
    ensures user !in msg.seenBy ==> r.seenBy == msg.seenBy + [user]
  {
    if user in msg.seenBy then msg else msg.(seenBy := msg.seenBy + [user])
  }

  /** `seenBy` is an ordered set: marking keeps it free of repetitions. */
  lemma MarkSeenKeepsDistinct(msg: Message, user: string)
    requires forall i, j :: 0 <= i < j < |msg.seenBy| ==> msg.seenBy[i] != msg.seenBy[j]
    ensures var s := MarkSeen(msg, user).seenBy;
      forall i, j :: 0 <= i < j < |s| ==> s[i] != s[j]
  {
  }

  /** `roomMsgs.map(...)`: mark every message of a room. */
  function MarkAllSeen(msgs: seq<Message>, user: string): (r: seq<Message>)
    ensures |r| == |msgs|
    ensures forall i :: 0 <= i < |msgs| ==> r[i] == MarkSeen(msgs[i], user)
  {
    seq(|msgs|, i requires 0 <= i < |msgs| => MarkSeen(msgs[i], user))
  }

  /** `updateSeenMessages`: an unknown room is left alone; a known room has every message marked. */
  function UpdateSeenMessages(rm: RoomMessages, room: string, user: string): (r: RoomMessages)
    ensures room !in rm ==> r == rm
    ensures room in rm ==>
      && r.Keys == rm.Keys
      && r[room] == MarkAllSeen(rm[room], user)
      && forall k :: k in rm && k != room ==> r[k] == rm[k]
  {
    if room !in rm then rm else rm[room := MarkAllSeen(rm[room], user)]
  }

  /**
   * A seen receipt keeps the room's length, order and every field but
   * `seenBy`; the old `seenBy` is a prefix of the new one, and `user` is
   * appended exactly to the messages that lacked it.
   */
  lemma UpdateSeenShape(rm: RoomMessages, room: string, user: string)
    requires room in rm
    ensures var after := UpdateSeenMessages(rm, room, user)[room];
      && |after| == |rm[room]|
      && forall i :: 0 <= i < |after| ==>
        && SameEvent(after[i], rm[room][i])
        && rm[room][i].seenBy <= after[i].seenBy
        && user in after[i].seenBy
        && (user in rm[room][i].seenBy <==> after[i] == rm[room][i])
  {
    var after := UpdateSeenMessages(rm, room, user)[room];
    forall i | 0 <= i < |after|
      ensures user in rm[room][i].seenBy <==> after[i] == rm[room][i]
    {
      if after[i] == rm[room][i] { assert user in after[i].seenBy; }
    }
  }

  /** Applying the same seen receipt twice equals applying it once. */
  lemma UpdateSeenIdempotent(rm: RoomMessages, room: string, user: string)
    ensures UpdateSeenMessages(UpdateSeenMessages(rm, room, user), room, user) == UpdateSeenMessages(rm, room, user)
  {
    if room in rm {
      var once := UpdateSeenMessages(rm, room, user);
      var twice := UpdateSeenMessages(once, room, user);
      assert twice[room] == once[room];
    }
  }

  /** A seen receipt changes no event identity, so duplicate detection sees the same room afterwards. */
  lemma {:induction false} MarkAllSeenKeepsEvents(msgs: seq<Message>, user: string, m: Message)
    ensures MessageExists(MarkAllSeen(msgs, user), m) == MessageExists(msgs, m)
  {
    var after := MarkAllSeen(msgs, user);
    MessageExistsIff(msgs, m);
    MessageExistsIff(after, m);
    if MessageExists(msgs, m) {
      var i :| 0 <= i < |msgs| && SameEvent(msgs[i], m);
      assert SameEvent(after[i], m);
    }
    if MessageExists(after, m) {
      var i :| 0 <= i < |after| && SameEvent(after[i], m);
      assert SameEvent(msgs[i], m);
    }
  }

  /** History delivery: the room holds exactly the delivered list, the other rooms are untouched. */
  function SetRoomHistory(rm: RoomMessages, room: string, msgs: seq<Message>): (r: RoomMessages)
    ensures r.Keys == rm.Keys + {room}
    ensures r[room] == msgs
    ensures forall k :: k in rm && k != room ==> r[k] == rm[k]
  {
    rm[room := msgs]
  }

  /** The optimistic local send: append without any duplicate check. */
  function AppendOptimistic(rm: RoomMessages, room: string, m: Message): (r: RoomMessages)
    ensures r.Keys == rm.Keys + {room}
    ensures r[room] == RoomOf(rm, room) + [m]
    ensures forall k :: k in rm && k != room ==> r[k] == rm[k]
  {
    rm[room := RoomOf(rm, room) + [m]]
  }

  /** The server's echo of an optimistically appended message is discarded, whatever its `seenBy`. */
  lemma EchoDiscarded(rm: RoomMessages, room: string, mine: Message, echo: Message)
    requires SameEvent(echo, mine)
    ensures var sent := AppendOptimistic(rm, room, mine);
      UpdateRoomMessages(sent, room, echo) == sent
  {
    var sent := AppendOptimistic(rm, room, mine);
    MessageExistsIff(RoomOf(sent, room), echo);
    assert RoomOf(sent, room)[|RoomOf(sent, room)| - 1] == mine;
  }

  /**
   * The optimistic-send scenario: a room that did not hold the event holds it
   * exactly once after the local send and the server's echo.
   */
  lemma SendThenEchoStoresOnce(rm: RoomMessages, room: string, mine: Message, echo: Message)
    requires SameEvent(echo, mine) && !MessageExists(RoomOf(rm, room), mine)
    ensures var final := UpdateRoomMessages(AppendOptimistic(rm, room, mine), room, echo);
      CountEvent(final[room], mine) == 1 && |final[room]| == |RoomOf(rm, room)| + 1
  {
    EchoDiscarded(rm, room, mine, echo);
    CountEventPositive(RoomOf(rm, room), mine);
    CountEventAppend(RoomOf(rm, room), [mine], mine);
    assert [mine][1..] == [];
  }

  /** The chat page asks for a notification for every received message not sent under its own name, duplicate or not. */
  predicate PageNotifies(self: Option<string>, m: Message) {
    self.None? || m.username != self.value
  }

  /** The hook asks for a notification only for a new message from someone else. */
  predicate HookNotifies(rm: RoomMessages, room: string, m: Message, current: Option<string>) {
    !MessageExists(RoomOf(rm, room), m) && (current.None? || m.username != current.value)
  }

  /** The two rules part on a duplicate from someone else: the page still notifies, the hook does not. */
  lemma DuplicateNotifiesOnlyOnPage(rm: RoomMessages, room: string, m: Message, self: Option<string>)
    requires MessageExists(RoomOf(rm, room), m) && self.Some? && m.username != self.value
    ensures PageNotifies(self, m) && !HookNotifies(rm, room, m, self)
  {
  }
}
