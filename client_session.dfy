/** The client's signalling handlers in client/src/App.jsx: one peer
    connection slot (`peerConnection.current`), the chat transcript
    (`messages`) and the socket events the handlers emit (the outbox).
    Each awaited browser call that rejects ends its async handler there,
    so nothing after it happens. */
module ClientSession {
  import opened Wrappers
  import opened Signals
  import opened PeerConnection

  /** A received chat payload, reduced to the two fields the transcript
      reads (`socketid` and `message`); the handler appends the whole object. */
  datatype ChatData = ChatData(socketid: string, message: string)

  /** Events the client emits on its socket. */
  datatype ClientEmit =
    | EmitOffer(offer: Sdp, to: SocketId)
    | EmitAnswer(answer: Sdp, to: SocketId)
    | EmitIce(candidate: Candidate, to: SocketId)

  /** What reaches the client. `UserJoined.offer` is the value `createOffer()`
      resolves to and `Offer.answer` the value `createAnswer()` resolves to;
      both are produced by the browser. `LocalCandidate` is the connection's
      `onicecandidate` event and `Unmount` the effect's cleanup. */
  datatype ClientEvent =
    | ReciveMessage(data: ChatData)
    | UserJoined(id: SocketId, offer: Sdp)
    | IceCandidates(candidate: Candidate, from: SocketId)
    | Offer(offer: Sdp, from: SocketId, answer: Sdp)
    | Answer(answer: Sdp, from: SocketId)
    | LocalCandidate(generated: Option<Candidate>)
    | Unmount

  /** The client's state. `listening` is false once the cleanup has called
      `socket.off()`; `constructed` counts the connections ever created. */
  datatype Session = Session(slot: Option<Pc>, messages: seq<ChatData>, outbox: seq<ClientEmit>,
                             listening: bool, constructed: nat)

  /** The state right after the effect has registered its handlers. */
  function Mounted(): Session
  {
    Session(None, [], [], true, 0)
  }

  /** The local stream's tracks, attached only when a stream exists. */
  function Attach(pc: Pc, stream: Option<seq<Track>>): Pc
  {
    if stream.Some? then WithTracks(pc, stream.value) else pc
  }

  /** `createPeerConnection(id)`: reuse the slot's connection if there is
      one, otherwise construct one for `id`, attach the stream and store it. */
  function Create(s: Session, stream: Option<seq<Track>>, id: SocketId): (r: Session)
    ensures r.slot.Some?
  {
    if s.slot.Some? then s
    else s.(slot := Some(Attach(Construct(id), stream)), constructed := s.constructed + 1)
  }

  /** The effect of one event on the client's state. */
  function Step(s: Session, stream: Option<seq<Track>>, ev: ClientEvent): Session
  {
    match ev
    case ReciveMessage(data) =>
      if !s.listening then s else s.(messages := s.messages + [data])
    case UserJoined(id, offer) =>
      if !s.listening then s
      else
        var s1 := Create(s, stream, id);
        (match SetLocalOffer(s1.slot.value, offer)
         case None => s1
         case Some(pc) => s1.(slot := Some(pc), outbox := s1.outbox + [EmitOffer(offer, id)]))
    case IceCandidates(candidate, _) =>
      if !s.listening || s.slot.None? then s
      else
        (match AddIceCandidate(s.slot.value, candidate)
         case None => s
         case Some(pc) => s.(slot := Some(pc)))
    case Offer(offer, from, answer) =>
      if !s.listening then s
      else
        var s1 := Create(s, stream, from);
        (match SetRemoteOffer(s1.slot.value, offer)
         case None => s1
         case Some(pc1) =>
           (match SetLocalAnswer(pc1, answer)
            case None => s1.(slot := Some(pc1))
            case Some(pc2) => s1.(slot := Some(pc2), outbox := s1.outbox + [EmitAnswer(answer, from)])))
    case Answer(answer, _) =>
      if !s.listening || s.slot.None? then s
      else
        (match SetRemoteAnswer(s.slot.value, answer)
         case None => s
         case Some(pc) => s.(slot := Some(pc)))
    case LocalCandidate(generated) =>
      if s.slot.None? || generated.None? then s
      else s.(outbox := s.outbox + [EmitIce(generated.value, s.slot.value.peer)])
    case Unmount =>
      s.(listening := false, slot := None)
  }

  /** The state after a sequence of events, in order. */
  function Run(s: Session, stream: Option<seq<Track>>, evs: seq<ClientEvent>): Session
    decreases |evs|
  {
    if evs == [] then s else Run(Step(s, stream, evs[0]), stream, evs[1..])
  }

  /** The client's invariant: at most one connection is ever constructed;
      the slot holds it, coherent and open, for as long as the handlers are
      registered, and is empty after cleanup. */
  ghost predicate Inv(s: Session)
  {
    && s.constructed <= 1
    && (s.slot.Some? ==> s.listening && s.constructed == 1 && Coherent(s.slot.value) && s.slot.value.phase != Closed)
    && (s.listening && s.constructed == 1 ==> s.slot.Some?)
  }

  class Client {
    /** `myStream` as the effect's closure captured it at mount. */
    const stream: Option<seq<Track>>
    /** `peerConnection.current`. */
    var slot: Option<Pc>
    var messages: seq<ChatData>
    var outbox: seq<ClientEmit>
    var listening: bool
    ghost var constructed: nat

    ghost function State(): Session
      reads this
    {
      Session(slot, messages, outbox, listening, constructed)
    }

    ghost predicate Valid()
      reads this
    {
      Inv(State())
    }

    constructor (stream: Option<seq<Track>>)
      ensures Valid() && State() == Mounted() && this.stream == stream
    {
      this.stream := stream;
      slot := None;
      messages := [];
      outbox := [];
      listening := true;
      constructed := 0;
    }

    method CreatePeerConnection(id: SocketId) returns (pc: Pc)
      requires Valid() && listening
      modifies this
      ensures Valid() && listening
      ensures State() == Create(old(State()), stream, id)
      ensures slot == Some(pc)
    {
      if slot.Some? {
        return slot.value;
      }
      pc := Construct(id);
      if stream.Some? {
        pc := AttachTracks(pc, stream.value);
      }
      slot := Some(pc);
      constructed := constructed + 1;
    }

    /** The `reciveMessage` handler. */
    method OnReciveMessage(data: ChatData)
      requires Valid()
      modifies this
      ensures Valid() && State() == Step(old(State()), stream, ReciveMessage(data))
    {
      if !listening { return; }
      messages := messages + [data];
    }

    /** The `user-joined` handler; `offer` is what `createOffer()` resolves to. */
    method OnUserJoined(id: SocketId, offer: Sdp)
      requires Valid()
      modifies this
      ensures Valid() && State() == Step(old(State()), stream, UserJoined(id, offer))
    {
      StepKeepsInv(State(), stream, UserJoined(id, offer));
      if !listening { return; }
      var pc := CreatePeerConnection(id);
      var next := SetLocalOffer(pc, offer);
      if next.None? { return; }
      slot := next;
      outbox := outbox + [EmitOffer(offer, id)];
    }

    /** The `webrtc-ice-candidates` handler. */
    method OnIceCandidates(candidate: Candidate, from: SocketId)
      requires Valid()
      modifies this
      ensures Valid() && State() == Step(old(State()), stream, IceCandidates(candidate, from))
    {
      StepKeepsInv(State(), stream, IceCandidates(candidate, from));
      if !listening { return; }
      if slot.Some? {
        var next := AddIceCandidate(slot.value, candidate);
        if next.None? { return; }
        slot := next;
      }
    }

    /** The `webrtc-offer` handler; `answer` is what `createAnswer()` resolves to. */
    method OnOffer(offer: Sdp, from: SocketId, answer: Sdp)
      requires Valid()
      modifies this
      ensures Valid() && State() == Step(old(State()), stream, Offer(offer, from, answer))
    {
      StepKeepsInv(State(), stream, Offer(offer, from, answer));
      if !listening { return; }
      var pc := CreatePeerConnection(from);
      var withRemote := SetRemoteOffer(pc, offer);
      if withRemote.None? { return; }
      slot := withRemote;
      var withLocal := SetLocalAnswer(withRemote.value, answer);
      if withLocal.None? { return; }
      slot := withLocal;
      outbox := outbox + [EmitAnswer(answer, from)];
    }

    /** The `webrtc-answer` handler. */
    method OnAnswer(answer: Sdp, from: SocketId)
      requires Valid()
      modifies this
      ensures Valid() && State() == Step(old(State()), stream, Answer(answer, from))
    {
      StepKeepsInv(State(), stream, Answer(answer, from));
      if !listening { return; }
      if slot.Some? {
        var next := SetRemoteAnswer(slot.value, answer);
        if next.None? { return; }
        slot := next;
      }
    }

    /** The connection's `onicecandidate` callback. */
    method OnLocalCandidate(generated: Option<Candidate>)
      requires Valid()
      modifies this
      ensures Valid() && State() == Step(old(State()), stream, LocalCandidate(generated))
    {
      if slot.Some? && generated.Some? {
        outbox := outbox + [EmitIce(generated.value, slot.value.peer)];
      }
    }

    /** The effect's cleanup: `socket.off()`, then close and clear the slot.
        `closed` is the connection as `close()` left it. */
    method Cleanup() returns (closed: Option<Pc>)
      requires Valid()
      modifies this
      ensures Valid() && State() == Step(old(State()), stream, Unmount)
      ensures closed == if old(slot).Some? then Some(Close(old(slot).value)) else None
    {
      listening := false;
      closed := None;
      if slot.Some? {
        closed := Some(Close(slot.value));
        slot := None;
      }
    }
  }

  /** Every event keeps the client's invariant. */
  lemma StepKeepsInv(s: Session, stream: Option<seq<Track>>, ev: ClientEvent)
    requires Inv(s)
    ensures Inv(Step(s, stream, ev))
  {
  }

  /** Every event sequence keeps the client's invariant. */
  lemma {:induction false} RunKeepsInv(s: Session, stream: Option<seq<Track>>, evs: seq<ClientEvent>)
    requires Inv(s)
    ensures Inv(Run(s, stream, evs))
    decreases |evs|
  {
    if evs != [] {
      StepKeepsInv(s, stream, evs[0]);
      RunKeepsInv(Step(s, stream, evs[0]), stream, evs[1..]);
    }
  }

  /** From mount on, whatever arrives, the client constructs at most one
      peer connection, and the slot holds a coherent open one exactly while
      one exists and the handlers are registered. */
  lemma AtMostOneConnection(stream: Option<seq<Track>>, evs: seq<ClientEvent>)
    ensures Inv(Run(Mounted(), stream, evs))
    ensures Run(Mounted(), stream, evs).constructed <= 1
  {
    RunKeepsInv(Mounted(), stream, evs);
  }

  /** After cleanup (handlers removed, slot cleared) no event changes anything:
      no message is recorded and nothing is emitted. */
  lemma {:induction false} SilentAfterCleanup(s: Session, stream: Option<seq<Track>>, evs: seq<ClientEvent>)
    requires !s.listening && s.slot.None?
    ensures Run(s, stream, evs) == s
    decreases |evs|
  {
    if evs != [] {
      assert Step(s, stream, evs[0]) == s;
      SilentAfterCleanup(s, stream, evs[1..]);
    }
  }

  /** The chat payloads of the `reciveMessage` events that arrive before the
      first cleanup, in arrival order. */
  function ChatBeforeCleanup(evs: seq<ClientEvent>): seq<ChatData>
    decreases |evs|
  {
    if evs == [] then []
    else match evs[0]
      case ReciveMessage(d) => [d] + ChatBeforeCleanup(evs[1..])
      case Unmount => []
      case _ => ChatBeforeCleanup(evs[1..])
  }

  /** The transcript only grows, by exactly the chat payloads received while
      the handlers are registered, in arrival order. */
  lemma {:induction false} TranscriptIsReceivedChat(s: Session, stream: Option<seq<Track>>, evs: seq<ClientEvent>)
    ensures Run(s, stream, evs).messages == s.messages + (if s.listening then ChatBeforeCleanup(evs) else [])
    decreases |evs|
  {
    if evs != [] {
      var s1 := Step(s, stream, evs[0]);
      TranscriptIsReceivedChat(s1, stream, evs[1..]);
      match evs[0]
      case ReciveMessage(d) =>
        if s.listening {
          assert s1.messages + ChatBeforeCleanup(evs[1..]) == s.messages + ([d] + ChatBeforeCleanup(evs[1..]));
        }
      case Unmount =>
      case _ =>
        assert s1.messages == s.messages && s1.listening == s.listening;
    }
  }

  /** Every ICE candidate in `outbox` is addressed to `peer`; with `peer == None`,
      the outbox holds no candidate at all. */
  predicate IceTo(outbox: seq<ClientEmit>, peer: Option<SocketId>)
  {
    forall i :: 0 <= i < |outbox| && outbox[i].EmitIce? ==> peer == Some(outbox[i].to)
  }

  /** The id the first `user-joined` or `webrtc-offer` before cleanup names:
      the peer the single connection is created for. */
  function FirstPeer(evs: seq<ClientEvent>): Option<SocketId>
    decreases |evs|
  {
    if evs == [] then None
    else match evs[0]
      case UserJoined(id, _) => Some(id)
      case Offer(_, from, _) => Some(from)
      case Unmount => None
      case _ => FirstPeer(evs[1..])
  }

  /** Once the connection exists, every local candidate goes to the peer it
      was created for, whoever the client negotiates with later. */
  lemma {:induction false} PeerStaysFixed(s: Session, stream: Option<seq<Track>>, evs: seq<ClientEvent>)
    requires s.slot.Some? && IceTo(s.outbox, Some(s.slot.value.peer))
    ensures var r := Run(s, stream, evs);
      IceTo(r.outbox, Some(s.slot.value.peer)) && (r.slot.Some? ==> r.slot.value.peer == s.slot.value.peer)
    decreases |evs|
  {
    if evs != [] {
      var s1 := Step(s, stream, evs[0]);
      if evs[0].Unmount? {
        SilentAfterCleanup(s1, stream, evs[1..]);
      } else {
        assert s1.slot.Some? && s1.slot.value.peer == s.slot.value.peer;
        assert IceTo(s1.outbox, Some(s.slot.value.peer));
        PeerStaysFixed(s1, stream, evs[1..]);
      }
    }
  }

  /** Before the connection exists nothing is sent but offers and answers;
      from then on every candidate goes to the first peer that triggered it. */
  lemma {:induction false} CandidatesGoToFirstPeer(s: Session, stream: Option<seq<Track>>, evs: seq<ClientEvent>)
    requires s.listening && s.slot.None? && IceTo(s.outbox, None)
    ensures var r := Run(s, stream, evs);
      && IceTo(r.outbox, FirstPeer(evs))
      && (r.slot.Some? ==> Some(r.slot.value.peer) == FirstPeer(evs))
      && (FirstPeer(evs).None? ==> r.slot.None? && r.constructed == s.constructed)
    decreases |evs|
  {
    if evs != [] {
      var s1 := Step(s, stream, evs[0]);
      match evs[0]
      case UserJoined(id, _) =>
        assert IceTo(s1.outbox, Some(id));
        PeerStaysFixed(s1, stream, evs[1..]);
      case Offer(_, from, _) =>
        assert IceTo(s1.outbox, Some(from));
        PeerStaysFixed(s1, stream, evs[1..]);
      case Unmount =>
        SilentAfterCleanup(s1, stream, evs[1..]);
      case _ =>
        assert s1.listening && s1.slot.None? && s1.outbox == s.outbox && s1.constructed == s.constructed;
        CandidatesGoToFirstPeer(s1, stream, evs[1..]);
    }
  }

  /** A remote answer is applied exactly when the connection is waiting for
      one (it sent an offer); otherwise the handler's promise rejects and
      nothing changes. */
  lemma AnswerAppliedOnlyWhenOffering(s: Session, stream: Option<seq<Track>>, answer: Sdp, from: SocketId)
    requires Inv(s)
    ensures var r := Step(s, stream, Answer(answer, from));
      && (r != s <==> s.listening && s.slot.Some? && s.slot.value.phase == OfferSent)
      && (r != s ==> r == s.(slot := Some(s.slot.value.(phase := Connected, stableLocal := s.slot.value.localDesc,
                                                          remoteDesc := Some(answer)))))
  {
  }

  /** The sender of an answer or a candidate is never consulted: whoever
      sent it, it is applied to the single connection alike. */
  lemma SenderIgnored(s: Session, stream: Option<seq<Track>>, x: string, from1: SocketId, from2: SocketId)
    ensures Step(s, stream, Answer(x, from1)) == Step(s, stream, Answer(x, from2))
    ensures Step(s, stream, IceCandidates(x, from1)) == Step(s, stream, IceCandidates(x, from2))
  {
  }

  /** A remote candidate is dropped (the promise rejects) unless the
      connection already holds a remote description; it is never buffered. */
  lemma EarlyCandidateDropped(s: Session, stream: Option<seq<Track>>, c: Candidate, from: SocketId)
    requires Inv(s)
    ensures var r := Step(s, stream, IceCandidates(c, from));
      && (r == s <==> !s.listening || s.slot.None? || s.slot.value.remoteDesc.None?)
      && (r != s ==> r == s.(slot := Some(s.slot.value.(candidates := s.slot.value.candidates + [c]))))
  {
    if s.listening && s.slot.Some? && s.slot.value.remoteDesc.Some? {
      var r := Step(s, stream, IceCandidates(c, from));
      assert |r.slot.value.candidates| == |s.slot.value.candidates| + 1;
    }
  }

  /** An offer is answered, to its sender, exactly when the handlers are
      registered, whatever phase the connection is in: in "glare" (the
      client is itself offering) the browser rolls the client's own offer
      back and the offer is answered all the same. The connection keeps the
      peer it was first created for. */
  lemma OfferAnsweredWhileListening(s: Session, stream: Option<seq<Track>>, offer: Sdp, from: SocketId, answer: Sdp)
    requires Inv(s)
    ensures var r := Step(s, stream, Offer(offer, from, answer));
      && (r.outbox == s.outbox + [EmitAnswer(answer, from)] <==> s.listening)
      && (!s.listening ==> r == s)
      && (s.listening ==>
            && r.slot.value.phase == AnswerSent && r.slot.value.remoteDesc == Some(offer)
            && r.slot.value.localDesc == Some(answer)
            && r.slot.value.peer == (if s.slot.Some? then s.slot.value.peer else from))
  {
    if s.listening {
      var pc := Create(s, stream, from).slot.value;
      RemoteOfferRollsBack(pc, offer);
    }
  }

  /** Glare from mount: the client offers to a joiner `k`, then receives an
      offer from `a` before any answer. It answers `a`, its own offer is
      gone from the connection, and the connection stays bound to `k`. */
  lemma GlareAnswered(stream: Option<seq<Track>>, k: SocketId, a: SocketId, o1: Sdp, o2: Sdp, ans: Sdp)
    ensures var r := Run(Mounted(), stream, [UserJoined(k, o1), Offer(o2, a, ans)]);
      && r.outbox == [EmitOffer(o1, k), EmitAnswer(ans, a)] && r.slot.Some?
      && r.slot.value.phase == AnswerSent && r.slot.value.localDesc == Some(ans)
      && r.slot.value.remoteDesc == Some(o2) && r.slot.value.peer == k
  {
    var evs := [UserJoined(k, o1), Offer(o2, a, ans)];
    var s1 := Step(Mounted(), stream, evs[0]);
    var s2 := Step(s1, stream, evs[1]);
    assert s1.slot.Some? && s1.slot.value.phase == OfferSent && s1.outbox == [EmitOffer(o1, k)];
    assert s2.outbox == [EmitOffer(o1, k), EmitAnswer(ans, a)] && s2.slot.Some?;
    assert evs[1..] == [evs[1]] && evs[1..][1..] == [];
    calc {
      Run(Mounted(), stream, evs);
      Run(s1, stream, evs[1..]);
      Run(s2, stream, evs[1..][1..]);
      s2;
    }
  }

  /** `user-joined` sends an offer to the joiner exactly when the handlers are
      registered and the connection is not holding a remote offer; the
      connection keeps the peer it was first created for. */
  lemma JoinerOfferedUnlessAnswering(s: Session, stream: Option<seq<Track>>, id: SocketId, offer: Sdp)
    requires Inv(s)
    ensures var r := Step(s, stream, UserJoined(id, offer));
      && (r.outbox == s.outbox + [EmitOffer(offer, id)] <==>
            s.listening && (s.slot.None? || s.slot.value.phase != RemoteOffer))
      && (r.outbox != s.outbox + [EmitOffer(offer, id)] ==> r.outbox == s.outbox && r.slot.Some? == s.listening)
      && (r.outbox != s.outbox ==> r.slot.value.phase == OfferSent && r.slot.value.localDesc == Some(offer))
      && (r.slot.Some? ==> r.slot.value.peer == if s.slot.Some? then s.slot.value.peer else id)
  {
  }

  /** `onicecandidate` emits exactly when a connection exists and the event
      carries a candidate, addressed to the peer the connection was created
      for; nothing else changes. */
  lemma LocalCandidateSentToPeer(s: Session, stream: Option<seq<Track>>, generated: Option<Candidate>)
    ensures var r := Step(s, stream, LocalCandidate(generated));
      && (r != s <==> s.slot.Some? && generated.Some?)
      && (r != s ==> r == s.(outbox := s.outbox + [EmitIce(generated.value, s.slot.value.peer)]))
  {
    if s.slot.Some? && generated.Some? {
      assert |Step(s, stream, LocalCandidate(generated)).outbox| == |s.outbox| + 1;
    }
  }

  /** `createPeerConnection` constructs at most once: a second call returns
      the first call's connection, whatever id it is given; a fresh
      connection carries exactly the tracks of the stream it is given. */
  lemma CreateOnce(s: Session, stream: Option<seq<Track>>, id1: SocketId, id2: SocketId)
    ensures Create(Create(s, stream, id1), stream, id2) == Create(s, stream, id1)
    ensures s.slot.None? ==>
      var pc := Create(s, stream, id1).slot.value;
      pc.peer == id1 && pc.phase == Fresh && pc.tracks == (if stream.Some? then stream.value else [])
  {
  }

  /** A connection created while no stream is known never gets a track, whatever happens next. */
  lemma {:induction false} NoTracksWithoutStream(s: Session, evs: seq<ClientEvent>)
    requires s.slot.Some? ==> s.slot.value.tracks == []
    ensures var r := Run(s, None, evs); r.slot.Some? ==> r.slot.value.tracks == []
    decreases |evs|
  {
    if evs != [] {
      NoTracksWithoutStream(Step(s, None, evs[0]), evs[1..]);
    }
  }

  /** As written, the handlers see the stream value captured when the effect
      first ran, before the camera was opened: none. So no connection the
      client ever creates carries a local track. */
  lemma StaleStreamNeverAttached(evs: seq<ClientEvent>)
    ensures var r := Run(Mounted(), None, evs); r.slot.Some? ==> r.slot.value.tracks == []
  {
    NoTracksWithoutStream(Mounted(), evs);
  }

  /** Two `user-joined` events before any negotiation: both joiners get an
      offer from the same connection, but its candidates all go to the first. */
  lemma SecondJoinerGetsNoCandidates(stream: Option<seq<Track>>, a: SocketId, b: SocketId, o1: Sdp, o2: Sdp, c: Candidate)
    ensures Run(Mounted(), stream, [UserJoined(a, o1), UserJoined(b, o2), LocalCandidate(Some(c))]).outbox
            == [EmitOffer(o1, a), EmitOffer(o2, b), EmitIce(c, a)]
  {
    var evs := [UserJoined(a, o1), UserJoined(b, o2), LocalCandidate(Some(c))];
    var s1 := Step(Mounted(), stream, evs[0]);
    var s2 := Step(s1, stream, evs[1]);
    var s3 := Step(s2, stream, evs[2]);
    assert s1.slot.Some? && s1.slot.value.peer == a && s1.slot.value.phase == OfferSent;
    assert s1.listening && s1.outbox == [EmitOffer(o1, a)];
    assert s2.slot.value.peer == a && s2.outbox == [EmitOffer(o1, a), EmitOffer(o2, b)];
    assert s3.outbox == [EmitOffer(o1, a), EmitOffer(o2, b), EmitIce(c, a)];
    assert evs[1..] == [evs[1], evs[2]] && evs[1..][1..] == [evs[2]] && evs[1..][1..][1..] == [];
    calc {
      Run(Mounted(), stream, evs);
      Run(s1, stream, evs[1..]);
      Run(s2, stream, evs[1..][1..]);
      Run(s3, stream, evs[1..][1..][1..]);
      s3;
    }
  }
}
