/** The relay and two clients together: how a client's emitted event
    becomes, through `Routing.Route`, the event another client's handler
    receives, and the offer/answer exchange this produces when a second
    client joins the room of a first. */
module Handshake {
  import opened Wrappers
  import opened Signals
  import opened Delivery
  import Routing
  import opened PeerConnection
  import opened ClientSession

  /** A client's emit as the relay's handler destructures it. The client's
      `webrtc-offer` payload carries no `username`. */
  function Uplink(e: ClientEmit): (m: Routing.Inbound)
    ensures Routing.IsHandshake(m) && m.to == e.to
  {
    match e
    case EmitOffer(offer, to) => Routing.Offer(offer, to, None)
    case EmitAnswer(answer, to) => Routing.Answer(answer, to)
    case EmitIce(candidate, to) => Routing.IceCandidates(candidate, to)
  }

  /** The client handler a relayed handshake event runs. `created` stands
      for what the browser's `createAnswer()` resolves to in the offer
      handler. Only the three handshake events have matching names and
      payload shapes on both sides: the client subscribes to `reciveMessage`,
      which the relay never emits (it emits `receiveMessage`), has no handler
      for `existing-users` or `user-left`, and its `user-joined` handler
      takes the relay's `{ id, username }` object as if it were an id. */
  function Downlink(ev: ServerEvent, created: Sdp): Option<ClientEvent>
  {
    match ev
    case WebrtcOffer(offer, from, _) => Some(Offer(offer, from, created))
    case WebrtcAnswer(answer, from) => Some(Answer(answer, from))
    case WebrtcIceCandidates(candidate, from) => Some(IceCandidates(candidate, from))
    case _ => None
  }

  /** Every handshake event a client emits reaches exactly the socket it
      names, and that socket's handler receives the same payload with the
      sender's socket id as `from`. */
  lemma EmitReachesNamedPeer(rooms: Rooms, sender: SocketId, e: ClientEmit, created: Sdp)
    ensures var out := Routing.Route(sender, Uplink(e));
      && Recipients(rooms, out[0].dest) == {e.to}
      && Downlink(out[0].event, created).Some?
      && match (e, Downlink(out[0].event, created).value)
         case (EmitOffer(o, _), Offer(o2, from, a)) => o2 == o && from == sender && a == created
         case (EmitAnswer(a, _), Answer(a2, from)) => a2 == a && from == sender
         case (EmitIce(c, _), IceCandidates(c2, from)) => c2 == c && from == sender
         case _ => false
  {
    Routing.HandshakeIsPointToPoint(rooms, rooms, sender, Uplink(e));
  }

  /** The last event a client emitted. */
  function LastEmit(s: Session): ClientEmit
    requires s.outbox != []
  {
    s.outbox[|s.outbox| - 1]
  }

  /** A client `a` whose `user-joined` handler runs for `b` offers; the
      offer reaches `b` through the relay, `b` answers through the relay, and
      `a` applies the answer. Afterwards each side's remote description is
      the other side's local one, `a` is connected and `b` has answered,
      and each connection is bound to the other's socket id. */
  lemma JoinerAndMemberNegotiate(a: SocketId, b: SocketId, streamA: Option<seq<Track>>, streamB: Option<seq<Track>>,
                                 username: string, offer: Sdp, answer: Sdp)
    ensures
      var a1 := Step(Mounted(), streamA, ClientEvent.UserJoined(b, offer));
      && a1.outbox != []
      && var up1 := Routing.Route(a, Uplink(LastEmit(a1)))[0];
      && up1.dest == ToSocket(b)
      && Downlink(up1.event, answer).Some?
      && var b1 := Step(Mounted(), streamB, Downlink(up1.event, answer).value);
      && b1.outbox != []
      && var up2 := Routing.Route(b, Uplink(LastEmit(b1)))[0];
      && up2.dest == ToSocket(a)
      && Downlink(up2.event, offer).Some?
      && var a2 := Step(a1, streamA, Downlink(up2.event, offer).value);
      && a2.slot.Some? && b1.slot.Some?
      && a2.slot.value.phase == Connected && b1.slot.value.phase == AnswerSent
      && a2.slot.value.localDesc == b1.slot.value.remoteDesc == Some(offer)
      && a2.slot.value.remoteDesc == b1.slot.value.localDesc == Some(answer)
      && a2.slot.value.peer == b && b1.slot.value.peer == a
  {
  }

  /** After that exchange each side accepts the other's candidates: a
      candidate `a` gathers reaches `b`, which adds it. */
  lemma CandidatesFlowAfterNegotiation(a: SocketId, b: SocketId, streamB: Option<seq<Track>>,
                                       pcA: Pc, sB: Session, c: Candidate)
    requires pcA.peer == b
    requires Inv(sB) && sB.listening && sB.slot.Some? && sB.slot.value.remoteDesc.Some?
    ensures
      var sA := Session(Some(pcA), [], [], true, 1);
      var a1 := Step(sA, None, LocalCandidate(Some(c)));
      && a1.outbox == [EmitIce(c, b)]
      && var up := Routing.Route(a, Uplink(a1.outbox[0]))[0];
      && up.dest == ToSocket(b)
      && Downlink(up.event, "").Some?
      && Step(sB, streamB, Downlink(up.event, "").value).slot.value.candidates == sB.slot.value.candidates + [c]
  {
  }
}
