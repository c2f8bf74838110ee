/**
 * Room selection (src/hooks/useRoomManagement.ts): a tracker of the
 * selected room and the room last joined, which asks to leave and join
 * rooms only on a transition. The chat page applies the same rule.
 */
module RoomSelection {
  import opened Wrappers

  /** A call of the `joinRoom` / `leaveRoom` callbacks. */
  datatype RoomCall = Join(room: string) | Leave(room: string)

  /** The room everyone starts in. */
  const DefaultRoom: string := "General"

  /**
   * The calls one run of the room effect makes. Nothing happens when the
   * last joined room is the selected one; otherwise the previous room is
   * left, if there is one (the empty name counts as none, being falsy), and
   * then the selected room is joined.
   */
  function Transition(prev: Option<string>, selected: string): (calls: seq<RoomCall>)
    ensures prev == Some(selected) <==> calls == []
    ensures calls != [] ==> calls[|calls| - 1] == Join(selected)
    ensures forall i :: 0 <= i < |calls| - 1 ==> calls[i].Leave? && Some(calls[i].room) == prev
    ensures prev != Some(selected) ==> (|calls| == 2 <==> prev.Some? && prev.value != "")
    ensures |calls| <= 2
  {
    if prev == Some(selected) then []
    else (if prev.Some? && prev.value != "" then [Leave(prev.value)] else []) + [Join(selected)]
  }

  /** The first run joins the selected room and leaves nothing. */
  lemma FirstRunOnlyJoins(selected: string)
    ensures Transition(None, selected) == [Join(selected)]
  {
  }

  /** Switching from a named room A to another room B leaves A, then joins B, once each. */
  lemma SwitchLeavesThenJoins(a: string, b: string)
    requires a != b && a != ""
    ensures Transition(Some(a), b) == [Leave(a), Join(b)]
  {
  }

  /** The hook's state: `selectedRoom`, `prevRoomRef.current`, and the log of callback calls. */
  class RoomManager {
    var selectedRoom: string
    var prevRoom: Option<string>
    var calls: seq<RoomCall>

    constructor ()
      ensures selectedRoom == DefaultRoom && prevRoom == None && calls == []
    {
      selectedRoom := DefaultRoom;
      prevRoom := None;
      calls := [];
    }

    /** The effect that runs after a render in which `selectedRoom` may have changed. */
    method RunEffect()
      modifies this
      ensures calls == old(calls) + Transition(old(prevRoom), selectedRoom)
      ensures prevRoom == Some(selectedRoom) && selectedRoom == old(selectedRoom)
    {
      if prevRoom != Some(selectedRoom) {
        if prevRoom.Some? && prevRoom.value != "" {
          calls := calls + [Leave(prevRoom.value)];
        }
        calls := calls + [Join(selectedRoom)];
        prevRoom := Some(selectedRoom);
      }
    }

    /** `handleJoinRoom`: only the selection changes; the calls come from the next effect run. */
    method HandleJoinRoom(room: string)
      modifies this`selectedRoom
      ensures selectedRoom == room
    {
      selectedRoom := room;
    }
  }

  /** Mount on "General", switch to "Dev", reselect "Dev": exactly one leave and two joins, in order. */
  method SwitchScenario() returns (log: seq<RoomCall>)
    ensures log == [Join("General"), Leave("General"), Join("Dev")]
  {
    var rm := new RoomManager();
    rm.RunEffect();
    rm.HandleJoinRoom("Dev");
    rm.RunEffect();
    rm.HandleJoinRoom("Dev");
    rm.RunEffect();
    log := rm.calls;
  }
}
