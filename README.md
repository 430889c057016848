# Video-chat signalling: relay registry and client handshake

This project models the two pieces of logic in a small WebRTC video-chat
application and proves properties about them in Dafny.

- **The signalling relay** (`server/app.js`). This is a Socket.IO server with a
  process-wide registry `users`, mapping each room name to an ordered list of
  `{ id, username }` entries.
  - `joinRoom` creates the room's list if it is missing. It tells the joiner
    who was already there (`existing-users`), appends the joiner, and
    announces it to the rest of the room (`user-joined`).
  - `disconnect` walks the rooms in the order `for ... in` visits them. It
    removes the first entry that carries the departing socket's id, tells that
    room (`user-left`) and stops.
  - `message`, `webrtc-offer`, `webrtc-answer` and `webrtc-ice-candidates`
    are stateless. Chat goes to the room minus the sender. Each handshake
    message goes to the one socket it names, stamped with the sender's id.
- **The client's signalling handlers** (`client/src/App.jsx`). These form a
  state machine around a single slot, `peerConnection.current`.
  - `createPeerConnection` fills the slot once and attaches the local stream's
    tracks.
  - `user-joined` makes an offer.
  - `webrtc-offer` answers.
  - `webrtc-answer` and `webrtc-ice-candidates` feed the existing connection.
  - `onicecandidate` sends local candidates to the peer the connection was
    created for.
  - The effect's cleanup unsubscribes, closes the connection and clears the
    slot.

Layout:

| file | module | what it holds |
|---|---|---|
| `wrappers.dfy` | `Wrappers` | `Option` |
| `signals.dfy` | `Signals` | socket ids, opaque session descriptions, candidates and tracks, and registry entries |
| `js_keys.dfy` | `JsKeys` | the enumeration order of a plain object's own keys: array indices ascending first, then other keys in creation order |
| `delivery.dfy` | `Delivery` | the relay's outbound events, their destinations, and which sockets a destination reaches |
| `registry.dfy` | `Registry` | class `SignalServer` (`users`, its key order and the transport's room membership), with `JoinRoom` and `Disconnect` proved against pure specifications (`JoinUsers`, `Leave`) |
| `plain_object.dfy` | `PlainObject` | the registry update of `joinRoom` as written, over a plain object whose inherited property names collide with room names |
| `routing.dfy` | `Routing` | the stateless relay handlers as the pure function `Route` |
| `peer_connection.dfy` | `PeerConnection` | an abstract `RTCPeerConnection`: signalling phase, descriptions and candidates, and the browser's rejection rules |
| `client_session.dfy` | `ClientSession` | class `Client`, whose handlers are proved against the pure transition `Step`, plus lemmas over whole event sequences (`Run`) |
| `handshake.dfy` | `Handshake` | the offer/answer/candidate exchange between two clients through `Route` |

How the code behaves, as modelled:

- `joinRoom` is not idempotent. A second join from the same socket appends
  a second entry, and a join to another room leaves the first room's entry in
  place. `disconnect` removes only one entry, so the others stay registered.
- The relay's iteration order is the JavaScript own-key order, so
  `disconnect` takes the entry out of the numerically smallest array-index
  room first, then out of rooms by creation order.
- The relay's transport leaves every room before the `disconnect` handler
  runs, so `user-left` never reaches the departed socket.
- The client that is already in the room makes the offer (on `user-joined`).
  The client ignores `existing-users` and `user-left`.
- The client keeps one connection slot, not one per peer. A second
  `user-joined` reuses the first connection, so its candidates keep going to
  the first peer. A remote candidate that arrives before a remote description
  is rejected by the browser and is lost, because there is no buffering.
- Each awaited browser call whose promise rejects ends its handler. Nothing
  after it happens: an answer that arrives when no offer is outstanding is
  dropped.
- An offer that arrives while the client is itself offering ("glare") is
  not rejected. The browser rolls the client's own offer back, applies the
  remote one, and the handler answers it. The connection stays bound to the
  peer it was created for.

## Model

| member | source | states |
|---|---|---|
| Registry.SignalServer.constructor | server/app.js:17 | The registry starts as an empty object: no rooms, no keys, no transport membership. The invariant holds. |
| Registry.SignalServer.JoinRoom | server/app.js:22-34 | The room key exists afterwards. The room's list is its previous list (empty if the key was missing) with `{id, username}` appended. A new key is placed in own-key enumeration order. The socket joins the transport room. The joiner is sent `existing-users` with the list as it stood before the join, and the rest of the room gets `user-joined`. The registry invariant is preserved. |
| Registry.SignalServer.Disconnect | server/app.js:54-66 | The socket has left every transport room. Registry and emitted events are exactly `Leave` of the old state. The key order is unchanged and the invariant is preserved. |
| Registry.FindDeparture | server/app.js:57-59 | The `for ... in` / `findIndex` search returns the first room in enumeration order that has an entry for the id, and the first such entry in it. It returns none when no room has one. |
| Registry.IndexOf | server/app.js:58 | `findIndex`: -1 exactly when no entry has the id; otherwise the position of the first entry that has it. |
| Registry.FirstHit | server/app.js:57-63 | None exactly when no room in the order has the id. Otherwise the room is registered, every earlier room is not, and the index is that room's `findIndex`. |
| Registry.JoinRegistersJoiner | server/app.js:26-31 | After a join the room's list is one longer, with the earlier entries as a prefix in the same order and the joiner last. Other rooms are untouched. A socket registered nowhere is not in the `existing-users` list it receives. |
| Registry.JoinKeepsConsistent | server/app.js:22-34 | A join keeps the invariant. Every key is listed once in enumeration order, and every socket in a transport room has an entry in that room's list. |
| Registry.LeaveKeepsConsistent | server/app.js:54-66 | A departure (transport leave, then the handler) keeps the same invariant. |
| Registry.LeaveRemovesAtMostOne | server/app.js:56-65 | The keys are unchanged. No event is emitted exactly when no room holds the id, and then nothing changes. Otherwise exactly one `user-left` with the id goes to one room. That room is the first in enumeration order holding the id. Its list loses exactly the entry at the `findIndex` position (the `splice`), and every other room is unchanged. |
| Registry.LeaveUndoesJoin | server/app.js:57-64 | For a socket registered nowhere, join then disconnect restores every list (the key stays, possibly empty) and announces the departure once, to the joined room. |
| Registry.RejoinLeavesStaleEntry | server/app.js:22-34 | Two joins by one socket, then a disconnect, leave a stale entry registered: in the same room if it joined one room twice, and otherwise in exactly one of the two rooms. |
| Registry.JoinAnnouncedToPriorMembers | server/app.js:33 | `user-joined` reaches only sockets that already had an entry in the room, never the joiner. |
| Registry.DepartureAnnouncedToRemaining | server/app.js:62 | `user-left` reaches exactly the room's members other than the departed socket. |
| JsKeys.InsertKey | server/app.js:27 | Creating a property adds exactly that key to the enumeration order and nothing else. |
| JsKeys.InsertKeyPlacement | server/app.js:27 | Creating a property inserts its key at one position: the keys already present keep their relative order, and a key that is not an array index goes last (creation order). |
| JsKeys.InsertKeyKeepsDistinct | server/app.js:27 | Creating a new key keeps the keys distinct. |
| JsKeys.InsertKeyKeepsOrder | server/app.js:57 | Creating a key keeps `for ... in` order: array indices first, ascending by value. |
| Routing.Route | server/app.js:38-52 | Every inbound message produces exactly one outbound event. |
| Routing.ChatExcludesSender | server/app.js:38-40 | Chat reaches the room minus the sender. It carries the message and username unchanged and `id` = sender. |
| Routing.HandshakeIsPointToPoint | server/app.js:42-52 | An offer, answer or candidate reaches exactly the named `to` socket, whatever the room membership. |
| Routing.RelayStampsSender | server/app.js:38-52 | Every relayed event names the actual sender as its origin. |
| Routing.HandshakePayloadUnchanged | server/app.js:42-52 | The recipient can recover exactly the inbound handshake message from the relayed event. |
| PlainObject.JoinAsWritten | server/app.js:26-31 | As written, `joinRoom` fails only for a name Object.prototype provides. |
| PlainObject.InheritedRoomNameThrows | server/app.js:26-31 | For an inherited name that is not yet an own key, the handler as written throws. For every other name it performs the same update as `JoinRoom`. In particular `joinRoom` to room "constructor" on an empty registry throws. |
| PeerConnection.AttachTracks | client/src/App.jsx:93-95 | The connection gains exactly the stream's tracks, in order, after any it had. |
| PeerConnection.CoherenceKept | client/src/App.jsx:120-160 | Every accepted setter, adding tracks and closing keep a connection's phase consistent with its descriptions. A stable connection's local description is its last stable one. Candidates are held only next to a remote description. |
| PeerConnection.RemoteOfferRollsBack | client/src/App.jsx:144 | A remote offer is accepted in every phase except closed, and the connection then holds it and is ready to answer. Arriving while the connection is offering, it rolls the own offer back to the last stable local description, none for a connection that never negotiated. |
| PeerConnection.AnswerOnlyAfterOwnOffer | client/src/App.jsx:156-157 | A remote answer is accepted exactly in `have-local-offer`. It yields `Connected` with the local offer kept and the answer as the remote description. |
| PeerConnection.ClosedRejectsAll | client/src/App.jsx:168-170 | A closed connection rejects every negotiation step and every candidate. |
| ClientSession.Create | client/src/App.jsx:64-99 | After `createPeerConnection` the slot is present. |
| ClientSession.CreateOnce | client/src/App.jsx:64-99 | A second call returns the first call's connection and state, whatever id it is given. A fresh connection is bound to its id, is in phase `Fresh`, and carries exactly the stream's tracks, or none without a stream. |
| ClientSession.Client.constructor | client/src/App.jsx:13-16 | Empty transcript, empty outbox, empty slot, handlers registered. The invariant holds. |
| ClientSession.Client.CreatePeerConnection | client/src/App.jsx:64-99 | The new state is `Create` of the old one, and the returned connection is the one in the slot. |
| ClientSession.Client.OnReciveMessage | client/src/App.jsx:112-118 | The new state is `Step` on a chat event, and the invariant is kept. |
| ClientSession.Client.OnUserJoined | client/src/App.jsx:120-130 | The new state is `Step` on `user-joined`, and the invariant is kept. |
| ClientSession.Client.OnIceCandidates | client/src/App.jsx:132-138 | The new state is `Step` on a remote candidate, and the invariant is kept. |
| ClientSession.Client.OnOffer | client/src/App.jsx:140-150 | The new state is `Step` on an offer, and the invariant is kept. |
| ClientSession.Client.OnAnswer | client/src/App.jsx:152-160 | The new state is `Step` on an answer, and the invariant is kept. |
| ClientSession.Client.OnLocalCandidate | client/src/App.jsx:81-86 | The new state is `Step` on a local candidate, and the invariant is kept. |
| ClientSession.Client.Cleanup | client/src/App.jsx:166-172 | Handlers are removed and the slot is cleared. The returned value is the old connection, closed. |
| ClientSession.StepKeepsInv | client/src/App.jsx:64-172 | Every event keeps the invariant. At most one connection is ever constructed. The slot holds it, coherent and open, exactly while the handlers are registered. |
| ClientSession.RunKeepsInv | client/src/App.jsx:101-172 | Every event sequence keeps the invariant. |
| ClientSession.AtMostOneConnection | client/src/App.jsx:65-68 | From mount on, whatever arrives, at most one connection is constructed. |
| ClientSession.SilentAfterCleanup | client/src/App.jsx:166-172 | After cleanup no event changes anything: no message is recorded and nothing is emitted. |
| ClientSession.TranscriptIsReceivedChat | client/src/App.jsx:112-118 | The transcript is the old transcript followed by exactly the chat payloads received before cleanup, in arrival order. |
| ClientSession.PeerStaysFixed | client/src/App.jsx:81-86 | Once the connection exists, its peer never changes, and every candidate sent goes to that peer. |
| ClientSession.CandidatesGoToFirstPeer | client/src/App.jsx:81-86 | Every candidate the client sends goes to the id named by the first `user-joined` or `webrtc-offer`. With no such event, no connection is created and no candidate is sent. |
| ClientSession.AnswerAppliedOnlyWhenOffering | client/src/App.jsx:152-160 | An answer changes the state exactly when the handlers are registered and the connection sent an offer. It then only makes the connection `Connected` with the answer as its remote description. |
| ClientSession.SenderIgnored | client/src/App.jsx:132-160 | The `from` of an answer or a remote candidate never influences the outcome. |
| ClientSession.EarlyCandidateDropped | client/src/App.jsx:132-138 | A remote candidate is a no-op exactly when there is no listener, no connection or no remote description. Otherwise it is appended to the connection's candidates and nothing else changes. |
| ClientSession.OfferAnsweredWhileListening | client/src/App.jsx:140-150 | Exactly one `webrtc-answer` to the sender is emitted exactly when the handlers are registered, in every phase, glare included. The connection then holds the offer as remote and the answer as local description, and keeps the peer it was first created for. Without handlers nothing changes. |
| ClientSession.GlareAnswered | client/src/App.jsx:120-150 | After offering to a joiner `k`, an offer from `a` is answered: the outbox is the offer to `k` then the answer to `a`. The connection holds `a`'s offer and the answer, and is still bound to `k`. |
| ClientSession.JoinerOfferedUnlessAnswering | client/src/App.jsx:120-130 | Exactly one `webrtc-offer` to the joiner is emitted exactly when the handlers are registered and the connection does not hold a remote offer. The offer is then the local description. The connection keeps the peer it was created for. |
| ClientSession.LocalCandidateSentToPeer | client/src/App.jsx:81-86 | `onicecandidate` emits exactly when a connection exists and the event carries a candidate, addressed to the connection's peer. Nothing else changes. |
| ClientSession.NoTracksWithoutStream | client/src/App.jsx:93-95 | A connection created without a stream never gets a track. |
| ClientSession.StaleStreamNeverAttached | client/src/App.jsx:93-95 | With the stream value the handlers actually see (the mount-time `null`), no connection ever carries a local track. |
| ClientSession.SecondJoinerGetsNoCandidates | client/src/App.jsx:120-130 | Two `user-joined` events, then a local candidate: both joiners get an offer, and the candidate goes only to the first. |
| Handshake.Uplink | server/app.js:42-52 | A client's handshake emit is a handshake message for the relay, addressed to the same socket. |
| Handshake.EmitReachesNamedPeer | server/app.js:42-52 | A client's offer, answer or candidate reaches exactly the socket it names. That socket's handler gets the same payload with `from` = the sender. |
| Handshake.JoinerAndMemberNegotiate | client/src/App.jsx:120-160 | An offer, relayed answer and applied answer end with `a` connected and `b` answered. Each side's remote description is the other's local one, and each connection is bound to the other's id. |
| Handshake.CandidatesFlowAfterNegotiation | client/src/App.jsx:81-138 | After negotiation a candidate gathered by `a` reaches `b` and is added to `b`'s connection. |

## Findings

| source | as written | input that shows it | evidently intended | confidence | as-written member | corrected member |
|---|---|---|---|---|---|---|
| server/app.js:26-31 | The registry is a plain object. The handler's missing-key test finds the inherited Object.prototype member for names such as "constructor", "toString" or "__proto__". It creates no list, and the following `push` throws a TypeError. The error escapes the Socket.IO listener, so Node's default handling of an uncaught exception ends the relay process, and every room with it. | `joinRoom` with room "constructor" on an empty registry | every room name gets its own list | high (not executed) | PlainObject.InheritedRoomNameThrows | Registry.JoinRegistersJoiner |
| client/src/App.jsx:93 | `createPeerConnection` reads `myStream` from the effect that ran once at mount, when the state was still `null`. The camera stream arrives later, so no track is ever attached. | any session: the stream is set after mount | the connection carries the local stream's tracks | high (not executed) | ClientSession.StaleStreamNeverAttached | ClientSession.CreateOnce |

The rest of the model uses the corrected behaviour in both cases:

- `Registry.SignalServer.JoinRoom` gives every room name its own list.
- `ClientSession.Step` takes the stream as a parameter, so callers pass the
  current one.

## Left out

- Transport wiring is not modelled: Express, `cors`, the HTTP server,
  `server.listen`, the `connection` callback, and the client's `connect` and
  `welcome` handlers. Socket.IO delivery is abstracted to a destination plus
  the set of sockets it reaches (`Delivery.Recipients`). All logging is left
  out.
- Routing.HandshakeIsPointToPoint: treats `to` as a socket id. Socket.IO also
  accepts a room name there, which would reach the whole room. The model
  covers ids only.
- Event shapes are mismatched between the two sides, so each side is modelled
  against its own event shapes:
  - the client's form emits `joinRoom` with a bare string;
  - the client listens for `reciveMessage`, while the relay emits
    `receiveMessage`;
  - the relay's `user-joined` carries an `{ id, username }` object, while the
    client's handler expects an id.

  `Handshake` composes only the three handshake events, whose names and
  shapes agree. The form handlers that emit `joinRoom` and `message` are UI
  and are not part of this model.
- `RTCPeerConnection` internals are not modelled: offer and answer generation,
  SDP contents, ICE and STUN gathering, and media transport. `createOffer()` /
  `createAnswer()` results are inputs to the handlers. Rejections are modelled
  only where the signalling state forbids a call. A malformed description or
  candidate, and a failing `createOffer` / `createAnswer`, are not modelled.
- ClientSession.Step: runs each async handler to completion before the next
  event. The interleavings the browser allows at each `await` are not
  modelled.
- Media capture (`getUserMedia` and its error path) is not modelled, and
  neither are `ontrack` / the remote stream or the `srcObject` effects. The
  local stream is a parameter. `Lobby.jsx`, `VideoPlayer.jsx` and all
  rendering are not part of this model.
- Delivery.Members: counts only explicit `socket.join` calls. Socket.IO
  also puts every socket into a room named by its own id, and ids reach every
  client through `existing-users`, `user-joined` and `receiveMessage`. A
  `message` or `joinRoom` whose room is another socket's id therefore reaches
  that socket, which has no entry in the registry's list for that room. The
  model does not cover that case, so `Registry.Consistent` (every transport
  member has an entry) is not claimed for it.
- Registry.JoinAnnouncedToPriorMembers: holds for rooms made by explicit
  joins only; for a room named by a socket id, that socket also receives
  `user-joined` (see `Delivery.Members`).
- Routing.ChatExcludesSender: holds for rooms made by explicit joins only;
  for a room named by a socket id, that socket also receives the message
  (see `Delivery.Members`).
- Registry.SignalServer.JoinRoom: the registry update is stated for every room
  name (the corrected behaviour). The throwing path for inherited names is
  modelled separately in `PlainObject`.
- PlainObject.JoinAsWritten: models only the registry update on the
  throwing path. Three effects are not modelled:
  - the transport join (`socket.join`), which runs before the TypeError;
  - the `existing-users` reply, which also runs before it and carries the
    inherited Object.prototype member instead of a list;
  - the `user-joined` broadcast, which the throw prevents.
- JsKeys.EnumerationOrdered orders array-index keys by non-strict value.
  Distinct canonical index strings have distinct values, so this is the same
  order.
