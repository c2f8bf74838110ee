/**
 * The named events the client emits on its socket. The socket itself is not
 * modelled: every emission is appended to an output log instead.
 */
module Socket {
  import opened Messages

  datatype Outbound =
    | Announce(username: string)                      // "join"
    | JoinRoom(username: string, room: string)        // "join_room"
    | LeaveRoom(username: string, room: string)       // "leave_room"
    | CreateRoom(room: string)                        // "create_room"
    | SendRoomMessage(room: string, message: Message) // "send_room_message"
    | Typing(room: string, username: string)          // "typing"
    | StopTyping(room: string, username: string)      // "stop_typing"
}
