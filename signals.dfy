/** Values shared by the relay and the client. Session descriptions, ICE
    candidates and media tracks are produced by the browser and only ever
    forwarded, so they are opaque strings here. */
module Signals {

  /** The identifier the transport assigns to a connected socket. */
  type SocketId = string

  /** A session description (an offer or an answer), as opaque text. */
  type Sdp = string

  /** An ICE candidate, as opaque text. */
  type Candidate = string

  /** A local media track. */
  type Track = string

  /** One registered participant of a room: `{ id, username }`. */
  datatype Entry = Entry(id: SocketId, username: string)
}
