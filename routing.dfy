/** The relay's stateless handlers (`message`, `webrtc-offer`,
    `webrtc-answer`, `webrtc-ice-candidates`): each turns one inbound event
    into one addressed outbound event, stamped with the sender's socket id,
    without consulting the registry. */
module Routing {
  import opened Wrappers
  import opened Signals
  import opened Delivery

  /** Inbound events, with the fields the handlers destructure. */
  datatype Inbound =
    | Message(room: string, message: string, username: string)
    | Offer(offer: Sdp, to: SocketId, offerUsername: Option<string>)  // `username`, absent when the client sends none
    | Answer(answer: Sdp, to: SocketId)
    | IceCandidates(candidate: Candidate, to: SocketId)

  /** The handshake messages, relayed point to point. */
  predicate IsHandshake(m: Inbound)
  {
    !m.Message?
  }

  /** What the relay emits for inbound `m` from socket `sender`. */
  function Route(sender: SocketId, m: Inbound): (out: seq<Emit>)
    ensures |out| == 1
  {
    match m
    case Message(room, message, username) =>
      [Emit(ToRoomExcept(room, sender), ReceiveMessage(message, username, sender))]
    case Offer(offer, to, username) =>
      [Emit(ToSocket(to), WebrtcOffer(offer, sender, username))]
    case Answer(answer, to) =>
      [Emit(ToSocket(to), WebrtcAnswer(answer, sender))]
    case IceCandidates(candidate, to) =>
      [Emit(ToSocket(to), WebrtcIceCandidates(candidate, sender))]
  }

  /** The socket an outbound event names as its origin. */
  function Origin(ev: ServerEvent): Option<SocketId>
  {
    match ev
    case ReceiveMessage(_, _, id) => Some(id)
    case WebrtcOffer(_, from, _) => Some(from)
    case WebrtcAnswer(_, from) => Some(from)
    case WebrtcIceCandidates(_, from) => Some(from)
    case _ => None
  }

  /** How the recipient `to` reads a relayed handshake event: the inbound
      event the sender must have emitted. */
  function Reconstruct(to: SocketId, ev: ServerEvent): Option<Inbound>
  {
    match ev
    case WebrtcOffer(offer, _, username) => Some(Offer(offer, to, username))
    case WebrtcAnswer(answer, _) => Some(Answer(answer, to))
    case WebrtcIceCandidates(candidate, _) => Some(IceCandidates(candidate, to))
    case _ => None
  }

  /** A chat message reaches every other socket in the named room and never
      comes back to its sender. */
  lemma ChatExcludesSender(rooms: Rooms, sender: SocketId, m: Inbound)
    requires m.Message?
    ensures Recipients(rooms, Route(sender, m)[0].dest) == Members(rooms, m.room) - {sender}
    ensures sender !in Recipients(rooms, Route(sender, m)[0].dest)
    ensures Route(sender, m)[0].event == ReceiveMessage(m.message, m.username, sender)
  {
  }

  /** A handshake message reaches exactly the socket it names, whatever the
      room membership: the relay checks neither that the target is in the
      sender's room nor that it is connected. */
  lemma HandshakeIsPointToPoint(rooms: Rooms, other: Rooms, sender: SocketId, m: Inbound)
    requires IsHandshake(m)
    ensures Recipients(rooms, Route(sender, m)[0].dest) == {m.to}
    ensures Recipients(rooms, Route(sender, m)[0].dest) == Recipients(other, Route(sender, m)[0].dest)
  {
  }

  /** Every relayed event carries the real sender's id: a client cannot
      choose the `from` (or chat `id`) that its peers see. */
  lemma RelayStampsSender(sender: SocketId, m: Inbound)
    ensures Origin(Route(sender, m)[0].event) == Some(sender)
  {
  }

  /** The handshake payload is forwarded unchanged: the recipient can
      recover exactly the event that was sent to it. */
  lemma HandshakePayloadUnchanged(sender: SocketId, m: Inbound)
    requires IsHandshake(m)
    ensures Reconstruct(m.to, Route(sender, m)[0].event) == Some(m)
  {
  }
}
