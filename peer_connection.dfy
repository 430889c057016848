/** An abstract stand-in for the browser's RTCPeerConnection: who it was
    created for, the local tracks attached to it, its signalling phase, its
    local and remote session descriptions and the remote ICE candidates it
    accepted. Each setter follows the browser's signalling-state rules and
    returns `None` where the browser rejects the call (its promise rejects
    with an InvalidStateError and nothing changes). A remote offer that
    arrives while the connection is itself offering is not rejected: as in
    the W3C WebRTC `setRemoteDescription()` algorithm, the connection first
    rolls its own offer back and then applies the remote one. */
module PeerConnection {
  import opened Wrappers
  import opened Signals

  /** The negotiation phase. `Fresh`, `AnswerSent` and `Connected` are the
      browser's "stable" signalling state (before any negotiation, after
      answering, after receiving the answer); `OfferSent` is
      "have-local-offer", `RemoteOffer` is "have-remote-offer". */
  datatype Phase = Fresh | OfferSent | RemoteOffer | AnswerSent | Connected | Closed

  /** `peer` is the id captured by the `onicecandidate` callback.
      `localDesc` is the browser's `localDescription`; `stableLocal` is the
      local description as of the last stable state (its
      `currentLocalDescription`), which a rollback restores. */
  datatype Pc = Pc(peer: SocketId, tracks: seq<Track>, phase: Phase,
                   localDesc: Option<Sdp>, stableLocal: Option<Sdp>, remoteDesc: Option<Sdp>,
                   candidates: seq<Candidate>)

  predicate Stable(p: Phase)
  {
    p == Fresh || p == AnswerSent || p == Connected
  }

  /** `new RTCPeerConnection(...)` together with the callbacks bound to `peer`. */
  function Construct(peer: SocketId): Pc
  {
    Pc(peer, [], Fresh, None, None, None, [])
  }

  /** `setLocalDescription(offer)`: allowed when stable or already offering. */
  function SetLocalOffer(pc: Pc, offer: Sdp): Option<Pc>
  {
    if Stable(pc.phase) || pc.phase == OfferSent
    then Some(pc.(phase := OfferSent, localDesc := Some(offer)))
    else None
  }

  /** `setRemoteDescription(offer)`: allowed when stable or already holding
      a remote offer; while offering, the own offer is implicitly rolled back
      (the local description reverts to the last stable one) first. */
  function SetRemoteOffer(pc: Pc, offer: Sdp): Option<Pc>
  {
    if Stable(pc.phase) || pc.phase == RemoteOffer
    then Some(pc.(phase := RemoteOffer, remoteDesc := Some(offer)))
    else if pc.phase == OfferSent
    then Some(pc.(phase := RemoteOffer, localDesc := pc.stableLocal, remoteDesc := Some(offer)))
    else None
  }

  /** `setLocalDescription(answer)`: allowed only while holding a remote offer. */
  function SetLocalAnswer(pc: Pc, answer: Sdp): Option<Pc>
  {
    if pc.phase == RemoteOffer
    then Some(pc.(phase := AnswerSent, localDesc := Some(answer), stableLocal := Some(answer)))
    else None
  }

  /** `setRemoteDescription(answer)`: allowed only after sending an offer. */
  function SetRemoteAnswer(pc: Pc, answer: Sdp): Option<Pc>
  {
    if pc.phase == OfferSent
    then Some(pc.(phase := Connected, stableLocal := pc.localDesc, remoteDesc := Some(answer)))
    else None
  }

  /** `addIceCandidate(c)`: rejected while there is no remote description. */
  function AddIceCandidate(pc: Pc, c: Candidate): Option<Pc>
  {
    if pc.phase != Closed && pc.remoteDesc.Some?
    then Some(pc.(candidates := pc.candidates + [c]))
    else None
  }

  /** `close()`. */
  function Close(pc: Pc): Pc
  {
    pc.(phase := Closed)
  }

  /** `pc.addTrack(track, stream)` for each of `tracks`, in order. */
  function WithTracks(pc: Pc, tracks: seq<Track>): Pc
  {
    pc.(tracks := pc.tracks + tracks)
  }

  /** `myStream.getTracks().forEach(track => pc.addTrack(track, myStream))`. */
  method AttachTracks(pc: Pc, stream: seq<Track>) returns (r: Pc)
    ensures r == WithTracks(pc, stream)
  {
    r := pc;
    for i := 0 to |stream|
      invariant r == pc.(tracks := pc.tracks + stream[..i])
    {
      assert stream[..i + 1] == stream[..i] + [stream[i]];
      r := r.(tracks := r.tracks + [stream[i]]);
    }
    assert stream[..|stream|] == stream;
  }

  /** The phase agrees with the descriptions the connection holds, a stable
      connection's local description is its last stable one, and a remote
      candidate is only ever held next to a remote description. */
  ghost predicate Coherent(pc: Pc)
  {
    && (pc.phase == Fresh ==> pc.localDesc.None? && pc.remoteDesc.None?)
    && (Stable(pc.phase) || pc.phase == RemoteOffer ==> pc.stableLocal == pc.localDesc)
    && (pc.phase == OfferSent ==> pc.localDesc.Some?)
    && (pc.phase == RemoteOffer ==> pc.remoteDesc.Some?)
    && (pc.phase == AnswerSent || pc.phase == Connected ==> pc.localDesc.Some? && pc.remoteDesc.Some?)
    && (pc.candidates != [] ==> pc.remoteDesc.Some?)
  }

  /** Every accepted operation keeps a connection coherent. */
  lemma CoherenceKept(pc: Pc, d: Sdp, c: Candidate, tracks: seq<Track>)
    requires Coherent(pc)
    ensures Coherent(Construct(pc.peer)) && Coherent(WithTracks(pc, tracks)) && Coherent(Close(pc))
    ensures SetLocalOffer(pc, d).Some? ==> Coherent(SetLocalOffer(pc, d).value)
    ensures SetRemoteOffer(pc, d).Some? ==> Coherent(SetRemoteOffer(pc, d).value)
    ensures SetLocalAnswer(pc, d).Some? ==> Coherent(SetLocalAnswer(pc, d).value)
    ensures SetRemoteAnswer(pc, d).Some? ==> Coherent(SetRemoteAnswer(pc, d).value)
    ensures AddIceCandidate(pc, c).Some? ==> Coherent(AddIceCandidate(pc, c).value)
  {
  }

  /** A connection reaches `Connected` only by accepting an answer to an
      offer it set locally: the answer is never applied before an offer. */
  lemma AnswerOnlyAfterOwnOffer(pc: Pc, answer: Sdp)
    requires Coherent(pc)
    ensures SetRemoteAnswer(pc, answer).Some? <==> pc.phase == OfferSent
    ensures SetRemoteAnswer(pc, answer).Some? ==>
      var r := SetRemoteAnswer(pc, answer).value;
      r.phase == Connected && r.localDesc == pc.localDesc && r.localDesc.Some? && r.remoteDesc == Some(answer)
  {
  }

  /** A remote offer is accepted in every phase but `Closed` and always
      leaves the connection holding it and ready to answer. Arriving while
      the connection is offering ("glare"), it discards the connection's own
      offer: the local description is the last stable one again, none for a
      connection that never completed a negotiation. */
  lemma RemoteOfferRollsBack(pc: Pc, offer: Sdp)
    requires Coherent(pc)
    ensures SetRemoteOffer(pc, offer).Some? <==> pc.phase != Closed
    ensures SetRemoteOffer(pc, offer).Some? ==>
      var r := SetRemoteOffer(pc, offer).value;
      && r.phase == RemoteOffer && r.remoteDesc == Some(offer) && r.localDesc == r.stableLocal
      && r.peer == pc.peer && r.tracks == pc.tracks && r.candidates == pc.candidates
    ensures pc.phase == OfferSent && pc.stableLocal.None? ==> SetRemoteOffer(pc, offer).value.localDesc.None?
  {
  }

  /** A closed connection rejects every further negotiation step. */
  lemma ClosedRejectsAll(pc: Pc, d: Sdp, c: Candidate)
    ensures var q := Close(pc);
      SetLocalOffer(q, d).None? && SetRemoteOffer(q, d).None? && SetLocalAnswer(q, d).None?
      && SetRemoteAnswer(q, d).None? && AddIceCandidate(q, c).None?
  {
  }
}
