/** The relay's outbound events and how the transport addresses them.
    `socket.emit` goes to the calling socket, `io.to(x)` to the socket (or
    room) named `x`, `io.to(room)` to every socket in the room and
    `socket.to(room)` / `socket.broadcast.to(room)` to every socket in the
    room except the caller. The transport's room membership modelled here is
    the set of sockets that called `socket.join(room)` and are still
    connected. Socket.IO also puts every socket into a room named by its own
    id; that implicit room is not part of this model. */
module Delivery {
  import opened Wrappers
  import opened Signals

  datatype Dest =
    | ToSocket(id: SocketId)
    | ToRoom(room: string)
    | ToRoomExcept(room: string, except: SocketId)

  /** Events the relay emits, with the payload shapes of server/app.js. */
  datatype ServerEvent =
    | ExistingUsers(users: seq<Entry>)
    | UserJoined(id: SocketId, username: string)
    | UserLeft(id: SocketId)
    | ReceiveMessage(message: string, username: string, id: SocketId)
    | WebrtcOffer(offer: Sdp, from: SocketId, offerUsername: Option<string>)  // `username`, absent when the offerer sent none
    | WebrtcAnswer(answer: Sdp, from: SocketId)
    | WebrtcIceCandidates(candidate: Candidate, from: SocketId)

  datatype Emit = Emit(dest: Dest, event: ServerEvent)

  /** The transport's room membership, as made by explicit `socket.join` calls. */
  type Rooms = map<string, set<SocketId>>

  function Members(rooms: Rooms, room: string): set<SocketId>
  {
    if room in rooms then rooms[room] else {}
  }

  /** The sockets an event with destination `d` reaches. */
  function Recipients(rooms: Rooms, d: Dest): set<SocketId>
  {
    match d
    case ToSocket(id) => {id}
    case ToRoom(room) => Members(rooms, room)
    case ToRoomExcept(room, except) => Members(rooms, room) - {except}
  }

  /** `socket.join(room)`. */
  function AddMember(rooms: Rooms, room: string, id: SocketId): Rooms
  {
    rooms[room := Members(rooms, room) + {id}]
  }

  /** What the transport does when a socket disconnects: it leaves every room. */
  function RemoveSocket(rooms: Rooms, id: SocketId): Rooms
  {
    map r | r in rooms :: rooms[r] - {id}
  }
}
