/**
 * The message input box (src/modules/chat/MessageInput.tsx) as a state
 * machine: the text value and at most one pending "stop typing" timer. The
 * timer firing is an explicit event; the socket is the `emitted` log and
 * the `onSend` prop the `sent` log.
 */
module MessageInput {
  import opened Wrappers
  import opened JsText
  import opened Socket

  /** What a scheduled stop-typing callback will emit: the room and user of the render that scheduled it. */
  datatype Target = Target(room: string, username: string)

  class Input {
    /** The logged-in user's name, if any. */
    const user: Option<string>
    /** The `room` prop; an absent room is the empty string, which is falsy like `undefined`. */
    var room: string
    var value: string
    /** The stop-typing timer that has been scheduled and has neither fired nor been cleared. */
    var pending: Option<Target>
    var emojiOpen: bool
    var emitted: seq<Outbound>
    var sent: seq<string>

    /**
     * A pending timer belongs to the last emission, which announced typing
     * to the same room under the same name.
     */
    ghost predicate Valid()
      reads this
    {
      pending.Some? ==> |emitted| > 0 && emitted[|emitted| - 1] == Typing(pending.value.room, pending.value.username)
    }

    /** `user && room`: both present, so typing events may be emitted. */
    predicate Active()
      reads this
    {
      user.Some? && room != ""
    }

    /** The stop-typing emission for the current props, when there is one. */
    function StopNow(): seq<Outbound>
      reads this
    {
      if Active() then [StopTyping(room, user.value)] else []
    }

    constructor (user: Option<string>, room: string)
      ensures Valid()
      ensures this.user == user && this.room == room && value == "" && pending == None
      ensures !emojiOpen && emitted == [] && sent == []
    {
      this.user := user;
      this.room := room;
      value := "";
      pending := None;
      emojiOpen := false;
      emitted := [];
      sent := [];
    }

    /** A re-render with another `room` prop; a pending timer keeps the room it captured. */
    method SetRoom(room: string)
      requires Valid()
      modifies this`room
      ensures Valid() && this.room == room
    {
      this.room := room;
    }

    /**
     * `handleChange`: the value is always replaced. With user and room, emit
     * typing and replace any pending timer by one new timer.
     */
    method Change(text: string)
      requires Valid()
      modifies this`value, this`emitted, this`pending
      ensures Valid() && value == text
      ensures Active() ==>
        emitted == old(emitted) + [Typing(room, user.value)] && pending == Some(Target(room, user.value))
      ensures !Active() ==> emitted == old(emitted) && pending == old(pending)
    {
      value := text;
      if Active() {
        emitted := emitted + [Typing(room, user.value)];
        pending := Some(Target(room, user.value));
      }
    }

    /**
     * The pending timer fires: stop typing is emitted once, for the captured
     * room and user, directly after the typing event that scheduled it.
     */
    method TimerFire()
      requires Valid()
      modifies this`emitted, this`pending
      ensures Valid() && pending == None
      ensures emitted == old(emitted) + (if old(pending).Some? then [StopTyping(old(pending).value.room, old(pending).value.username)] else [])
      ensures old(pending).Some? ==>
        |emitted| >= 2 && emitted[|emitted| - 2] == Typing(old(pending).value.room, old(pending).value.username)
    {
      if pending.Some? {
        emitted := emitted + [StopTyping(pending.value.room, pending.value.username)];
        pending := None;
      }
    }

    /**
     * `handleSend`: a blank value changes nothing at all; otherwise the
     * trimmed text is sent, the value cleared, stop typing emitted (with
     * user and room) and the pending timer cancelled.
     */
    method Send()
      requires Valid()
      modifies this`value, this`emitted, this`pending, this`sent
      ensures Valid()
      ensures Trim(old(value)) == "" ==>
        value == old(value) && emitted == old(emitted) && pending == old(pending) && sent == old(sent)
      ensures Trim(old(value)) != "" ==>
        && sent == old(sent) + [Trim(old(value))] && value == ""
        && emitted == old(emitted) + StopNow() && pending == None
    {
      var text := Trim(value);
      if text != "" {
        sent := sent + [text];
        value := "";
        emitted := emitted + StopNow();
        pending := None;
      }
    }

    /** `handleKeyDown`: Enter without Shift sends; Escape clears the value, stops typing and cancels the timer. */
    method KeyDown(key: string, shift: bool)
      requires Valid()
      modifies this`value, this`emitted, this`pending, this`sent
      ensures Valid()
      ensures key == "Enter" && !shift && Trim(old(value)) != "" ==>
        && sent == old(sent) + [Trim(old(value))] && value == ""
        && emitted == old(emitted) + StopNow() && pending == None
      ensures key == "Escape" ==>
        value == "" && emitted == old(emitted) + StopNow() && pending == None && sent == old(sent)
      ensures (key != "Escape" && (key != "Enter" || shift || Trim(old(value)) == "")) ==>
        value == old(value) && emitted == old(emitted) && pending == old(pending) && sent == old(sent)
    {
      if key == "Enter" && !shift {
        Send();
      }
      if key == "Escape" {
        value := "";
        emitted := emitted + StopNow();
        pending := None;
      }
    }

    /** `handleBlur`: stop typing (with user and room) and cancel the timer; the value stays. */
    method Blur()
      requires Valid()
      modifies this`emitted, this`pending
      ensures Valid() && emitted == old(emitted) + StopNow() && pending == None
    {
      emitted := emitted + StopNow();
      pending := None;
    }

    /** `handleEmojiClick`: open the picker. */
    method EmojiClick()
      modifies this`emojiOpen
      ensures emojiOpen
    {
      emojiOpen := true;
    }

    /** `handleEmojiClose`: close the picker. */
    method EmojiClose()
      modifies this`emojiOpen
      ensures !emojiOpen
    {
      emojiOpen := false;
    }

    /** `handleEmojiSelect`: append the emoji to the value and close the picker; nothing is emitted. */
    method EmojiSelect(emoji: string)
      modifies this`value, this`emojiOpen
      ensures value == old(value) + emoji && !emojiOpen
    {
      value := value + emoji;
      EmojiClose();
    }
  }

  /** A keystroke followed by silence: one typing and exactly one stop-typing event, however often the timer is polled. */
  method KeystrokeThenSilence() returns (log: seq<Outbound>)
    ensures log == [Typing("General", "alice"), StopTyping("General", "alice")]
  {
    var input := new Input(Some("alice"), "General");
    input.Change("h");
    input.TimerFire();
    input.TimerFire();
    log := input.emitted;
  }

  /** A send before the timeout: stop typing is emitted at once and the cancelled timer never fires. */
  method SendBeforeTimeout() returns (log: seq<Outbound>, sent: seq<string>)
    ensures log == [Typing("General", "alice"), Typing("General", "alice"), StopTyping("General", "alice")]
    ensures sent == ["hi"]
  {
    var input := new Input(Some("alice"), "General");
    input.Change("h");
    input.Change("hi");
    TrimUntouched("hi");
    input.KeyDown("Enter", false);
    input.TimerFire();
    log := input.emitted;
    sent := input.sent;
  }
}
