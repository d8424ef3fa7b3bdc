# WebRTC negotiation coordinator, modelled in Dafny

This project models the signaling side of a small browser WebRTC library:

- **`WebRTCConnection`** (`src/WebRTCConnection.js`) is the negotiation coordinator. It keeps a registry of
  `RTCPeerConnection`s keyed by remote socket id and a one-shot "listeners bound" flag. It registers
  listeners on its signaler and answers the server's `client-join`, `offer`, `answer` and
  `icecandidate` messages. Its peer connections raise `onnegotiationneeded` and `onicecandidate`,
  which send further messages. `createRoom` registers a one-shot `roomCreated` listener and then
  joins the room the server created.
- **`Signaler`** (`src/Signaler.js`) wraps a socket.io socket. Each outgoing payload goes into an
  envelope `{senderId, data}`, or `{senderId, receiverId, data}` for a directed send. Listener
  registration is passed through to the socket.
- **`Subscriptions`** (`src/util/Subscriptions.js`) records, per event name, the callback it
  registered on a context object. `removeAll` takes all those callbacks off again.

The modules follow that structure:

| module | file | what it holds |
|---|---|---|
| `Wrappers` | `wrappers.dfy` | `Option` |
| `Listeners` | `listeners.dfy` | Listener lists of an event emitter. `on` appends; `removeListener` removes the first registration of the same event and function. |
| `Signaling` | `signaling.dfy` | Envelopes, `getId`, `emit`, `emitTo`, `on` and `removeListener`, as pure functions |
| `Negotiation` | `negotiation.dfy` | The coordinator's state (`Conn`), one function per handler, and the invariant `Inv` with one preservation lemma per handler |
| `Traces` | `traces.dfy` | Arbitrary runs of events, and the scenarios of a two-party exchange |
| `Connection` | `connection.dfy` | The class `WebRTCConnection`. Its fields are updated in place, and each method is proved to move `State()` exactly as the matching `Negotiation` function does. |
| `Subscribing` | `subscriptions.dfy` | The classes `Context` (a listener list) and `Subscriptions` (the record and its key order) |

The browser's asynchronous steps have no model of their own. Each handler's promise chain is one
atomic step, and the caller passes in how the step ended:

- `createOffer` + `setLocalDescription` and `createAnswer` + `setLocalDescription` produce an
  `Option<Sdp>`. `None` means the chain failed: the error was logged and nothing was sent.
- `setRemoteDescription` and `addIceCandidate` produce a `bool`.

The coordinator's outgoing traffic is the sequence `outbox` of messages handed to the socket,
oldest first. The socket's listeners are the sequence `listeners` of (event, closure) pairs. A
closure is named by the `Handler` datatype; each `createRoom` call's `onRoomCreated` is told apart
by the call's number. An event for which no listener is registered, or one that names a connection
that does not exist, reaches no code of the coordinator, so it changes nothing (`Traces.Step`).

The invariant `Negotiation.Inv` has two parts:

- `Traffic`:
  - every connection carries the local stream;
  - every message carries the local socket id;
  - only `join` and `create` are undirected;
  - every directed message goes to a known peer;
  - an `answer` goes only to a peer whose remote description is set;
  - an `icecandidate` goes only to a peer whose candidate forwarding is on;
  - `_peer` is a registered connection.
- `Registrations`:
  - no listener is registered twice;
  - every listener is registered for its own event;
  - `_joinRoom`'s four listeners are registered exactly when the connection is bound;
  - `roomCreated` listeners come only from earlier `createRoom` calls.

## Model

| member | source | states |
|---|---|---|
| Signaling.GetId | src/Signaler.js:17-19 | The id is the socket's id, the same at every call, so every envelope of one signaler carries one sender id (see "Left out"). |
| Signaling.Emit | src/Signaler.js:29-34 | The message has the given event, no receiver, sender id equal to `GetId`, and the data unchanged. |
| Signaling.EmitTo | src/Signaler.js:36-42 | The message has the given event, the given receiver, sender id equal to `GetId`, and the data unchanged. |
| Signaling.On | src/Signaler.js:21-23 | The socket gains exactly one registration of that event and function, at the end. Every earlier registration stays in place. |
| Signaling.RemoveListener | src/Signaler.js:25-27 | The socket loses exactly one registration of that pair (a multiset difference). The list is unchanged when the pair is not registered. |
| Listeners.Subscribe | src/Signaler.js:21-23 | The emitter's list grows by one: the pair is appended and the old list is its prefix. |
| Listeners.Unsubscribe | src/Signaler.js:25-27 | One registration of the pair is taken off; an absent pair leaves the list unchanged. The length drops by one exactly when the pair was present. |
| Listeners.UnsubscribeRemovesFirst | src/Signaler.js:25-27 | When the first registration of the pair is at position i, removal cuts out exactly position i and keeps the order of the rest. |
| Listeners.SubscribeThenUnsubscribe | src/Signaler.js:21-27 | Registering a new pair and then removing it gives back the original list. |
| Listeners.UnsubscribeDistinct | src/WebRTCConnection.js:230 | Removing from a duplicate-free list keeps it duplicate-free, leaves the pair absent and adds nothing. |
| Listeners.UnsubscribeKeepsOthers | src/Signaler.js:25-27 | Every other registration survives a removal. |
| Listeners.UnsubscribeAllMultiset | src/util/Subscriptions.js:14-19 | A sequence of removals takes away exactly the multiset of the removed pairs. |
| Listeners.UnsubscribeAll | src/util/Subscriptions.js:15-18 | The removals are applied one after another, in order; each takes off at most one registration, so the list shrinks by at most the number of removals. |
| Listeners.UnsubscribeAllKeeps | src/util/Subscriptions.js:15-18 | A registration that no removal names is still registered afterwards. |
| Negotiation.BindLifecycleListeners | src/WebRTCConnection.js:208-219 | The constructor's three `on` calls register `connect`, `error` and `disconnect`, in that order. |
| Negotiation.Init | src/WebRTCConnection.js:193-221 | A new connection keeps the given signaler and stream, is unbound, has no peers, has sent nothing, has no `_peer`, has made no `createRoom` call, and has exactly the three lifecycle listeners registered. |
| Negotiation.InitSatisfiesInv | src/WebRTCConnection.js:193-221 | A new connection satisfies the invariant. |
| Negotiation.AddPeer | src/WebRTCConnection.js:42-84 | The registry gains exactly the key `id`, holding a new connection with the local stream. No other entry changes. `_peer` becomes that id. Outbox and listeners are untouched. |
| Negotiation.AddPeerKeepsInv | src/WebRTCConnection.js:42-84 | Recording a connection under an unseen id keeps the invariant. |
| Negotiation.SendOffer | src/WebRTCConnection.js:10-19 | A failed offer changes nothing. A made offer becomes the local description of entry `id` only; the registry keeps its keys and other entries, the outbox gains exactly one `offer` to `id`, and no other field changes. |
| Negotiation.SendOfferKeepsInv | src/WebRTCConnection.js:62-71 | Sending an offer to a known peer (or failing to) keeps the invariant. |
| Negotiation.BindJoinListeners | src/WebRTCConnection.js:103-181 | `_joinRoom`'s four `on` calls append `client-join`, `offer`, `answer` and `icecandidate`, in that order. |
| Negotiation.JoinRoom | src/WebRTCConnection.js:91-187 | Bound: throws "Connection has already started" and nothing changes. Unbound: returns; the flag is set, the four listeners are appended, one `join` carrying the room is broadcast, and peers are unchanged. |
| Negotiation.JoinRoomKeepsInv | src/WebRTCConnection.js:91-187 | `join` keeps the invariant, so each negotiation listener is registered exactly once. |
| Negotiation.JoinListenersFresh | src/WebRTCConnection.js:94-97 | Before the flag is set, none of the four listeners is registered, so appending them leaves no duplicate. |
| Negotiation.CreateRoom | src/WebRTCConnection.js:226-241 | One new `roomCreated` listener for this call is appended and one `create` with no data is broadcast. Peers, the flag and `_peer` are unchanged. |
| Negotiation.CreateRoomKeepsInv | src/WebRTCConnection.js:226-241 | `createRoom` keeps the invariant. |
| Negotiation.AddRoomListenerKeepsRegistrations | src/WebRTCConnection.js:235 | The new call's `roomCreated` listener is not registered yet, so registering it keeps the registrations well formed. |
| Negotiation.OnRoomCreated | src/WebRTCConnection.js:229-234 | The listener removes one registration of itself and then joins. It throws exactly when already bound; either way the flag is set afterwards. The four listeners and `join` are added only on the first join. |
| Negotiation.OnRoomCreatedKeepsInv | src/WebRTCConnection.js:229-234 | `onRoomCreated` keeps the invariant, and afterwards that listener is no longer registered, so a second `roomCreated` cannot reach it. |
| Negotiation.RemoveRoomListenerKeepsInv | src/WebRTCConnection.js:230 | Removing the listener keeps the invariant and leaves it unregistered. |
| Negotiation.RemoveRoomListenerKeepsRegistrations | src/WebRTCConnection.js:230 | Removing a `roomCreated` listener keeps the registrations well formed, including the four negotiation listeners. |
| Negotiation.OnClientJoin | src/WebRTCConnection.js:103-116 | A known id changes nothing and sends nothing. An unseen id gets exactly one new entry, with forwarding off and no other entry touched, and exactly one `offer` to it when the offer could be made. |
| Negotiation.OnClientJoinKeepsInv | src/WebRTCConnection.js:103-116 | `client-join` keeps the invariant. |
| Negotiation.OnOffer | src/WebRTCConnection.js:122-146 | The entry for the sender is reused or made, and the registry gains at most that key. Once the description is applied, it is the remote description and forwarding to the sender is on. An `answer` to the sender is sent exactly when the description was applied and the answer was made. A failed application changes nothing else. No offer is sent. |
| Negotiation.OnOfferKeepsInv | src/WebRTCConnection.js:122-146 | `offer` keeps the invariant: an answer and candidates only ever go to a peer whose remote description is set. |
| Negotiation.ApplyOffer | src/WebRTCConnection.js:131-137 | Only the sender's entry changes: its remote description is the offer and forwarding is on, its stream, local description and candidates are kept. The registry keeps its keys, and nothing is sent. |
| Negotiation.ApplyOfferKeepsInv | src/WebRTCConnection.js:131-137 | Applying a remote description and enabling forwarding keeps the invariant. |
| Negotiation.SendAnswer | src/WebRTCConnection.js:24-35 | A failed answer changes nothing. A made answer becomes the local description of the sender's entry only; the registry keeps its keys and other entries, the outbox gains exactly one `answer` to the sender, and no other field changes. |
| Negotiation.SendAnswerKeepsInv | src/WebRTCConnection.js:138-142 | Answering a peer whose remote description is set keeps the invariant. |
| Negotiation.OnAnswer | src/WebRTCConnection.js:151-166 | An unknown sender or a failed application changes nothing. Otherwise only the sender's remote description changes. |
| Negotiation.OnAnswerKeepsInv | src/WebRTCConnection.js:151-166 | `answer` keeps the invariant. |
| Negotiation.OnIceCandidate | src/WebRTCConnection.js:169-181 | An unknown sender or a rejected candidate changes nothing. Otherwise only the candidate is appended to the sender's connection. |
| Negotiation.OnIceCandidateKeepsInv | src/WebRTCConnection.js:169-181 | `icecandidate` keeps the invariant. |
| Negotiation.OnNegotiationNeeded | src/WebRTCConnection.js:62-71 | The keys are unchanged and no other entry is touched. Exactly one `offer` goes to that same id when the offer could be made. |
| Negotiation.OnLocalIceCandidate | src/WebRTCConnection.js:133-137 | A candidate is forwarded to that id only when forwarding is on and the candidate is present. Nothing else changes. |
| Negotiation.OnLocalIceCandidateKeepsInv | src/WebRTCConnection.js:133-137 | Forwarding a local candidate keeps the invariant. |
| Traces.Step | src/WebRTCConnection.js:91-248 | Signaler and stream never change. A room-level event (`join`, `createRoom`, `roomCreated`) never touches the registry or `_peer`; an event about one peer never touches the registrations, the flag or the `createRoom` count. |
| Traces.RoomStep | src/WebRTCConnection.js:226-248 | `join`, `createRoom` and a registered `roomCreated` listener leave the registry and `_peer` as they were. |
| Traces.PeerStep | src/WebRTCConnection.js:102-186 | The `client-join`, `offer`, `answer` and `icecandidate` listeners and the two peer-connection callbacks leave the registrations, the flag and the `createRoom` count as they were. |
| Traces.StepKeepsInv | src/WebRTCConnection.js:91-241 | Every event keeps the invariant. |
| Traces.RoomStepKeepsInv | src/WebRTCConnection.js:226-241 | `join`, `createRoom` and `roomCreated` keep the invariant. |
| Traces.PeerStepKeepsInv | src/WebRTCConnection.js:62-181 | The per-peer events keep the invariant. |
| Traces.StepGrows | src/WebRTCConnection.js:42-187 | No event drops an entry, turns forwarding off, forgets a remote description, takes back a sent message or clears the flag. Each event touches only its own subject's entry. |
| Traces.RunKeepsInv | src/WebRTCConnection.js:91-241 | The invariant holds after any run. |
| Traces.RunGrows | src/WebRTCConnection.js:42-187 | The growth guarantees of a single event hold over whole runs. |
| Traces.Reachable | src/WebRTCConnection.js:91-241 | From a new connection, after any run: every message carries the local id; only `join` and `create` are undirected; answers and candidates go to a known peer whose remote description is set; no listener is registered twice (`_joinRoom`'s four included), so each socket event runs each handler at most once. |
| Traces.ClientJoinsSendOffers | src/WebRTCConnection.js:103-116 | `client-join` for distinct unseen ids sends exactly one offer to each id whose offer could be made and none to the others, in arrival order, and registers nothing. |
| Traces.ClientJoinsMakeEntries | src/WebRTCConnection.js:103-116 | The same run, whatever each offer's outcome, creates entries for exactly those ids and leaves earlier entries as they were. |
| Traces.ClientJoinsNewEntries | src/WebRTCConnection.js:103-116 | Each new entry exists whatever its offer's outcome, holds its own offer as local description (none when the offer failed), and has forwarding off. |
| Traces.ClientJoinEvents | src/WebRTCConnection.js:103 | While `client-join` is registered, the events of that run, with any offer outcomes, are handled by exactly that handler. |
| Traces.JoinTwice | src/WebRTCConnection.js:94-97 | The first `join` returns. The second throws "Connection has already started" and changes nothing. Each negotiation listener is then registered exactly once. |
| Traces.CreatorAsks | src/WebRTCConnection.js:226-241 | After `createRoom` on a new connection: the three lifecycle listeners and then one new `roomCreated` listener are registered, only `create` has been sent, and the connection is unbound with no peers. |
| Traces.RoomCreatedUnbound | src/WebRTCConnection.js:229-234 | Before `join`, `roomCreated` cuts out exactly the first registration of its own listener, appends the four negotiation listeners and broadcasts `join`. |
| Traces.CreatorJoins | src/WebRTCConnection.js:226-241 | After `createRoom` and the server's `roomCreated`, the creator has sent `create` then `join`. It holds the lifecycle and negotiation listeners but no `roomCreated` one, and has no peers. |
| Traces.JoinerJoins | src/WebRTCConnection.js:246-248 | After `join` on a new connection, only `join` has been sent, `offer` is registered and there are no peers. |
| Traces.OfferAnswer | src/WebRTCConnection.js:103-166 | The creator learns of the joiner and offers; the joiner answers; the creator applies the answer. Each side then holds one entry for the other, with local and remote descriptions crossed. Only the answering side forwards candidates. Each side has sent exactly its one message. |
| Traces.ClientJoinThenAnswer | src/WebRTCConnection.js:102-166 | On a bound connection, `client-join` and then `answer` reach exactly `OnClientJoin` and then `OnAnswer`. |
| Traces.CreatorRun | src/WebRTCConnection.js:225-241 | The run `createRoom`, `roomCreated`, `client-join`, `answer` from a new connection is exactly those handlers in turn; after the join the creator has no peer and has sent `create` then `join`. |
| Traces.JoinerRun | src/WebRTCConnection.js:91-146 | The run `join`, `offer` from a new connection is exactly those handlers in turn; after the join the joiner has no peer and has sent only `join`. |
| Traces.Exchange | src/WebRTCConnection.js:103-166 | From the two joined states, the offer/answer exchange leaves one entry on each side, crossed descriptions, forwarding only on the answering side, and exactly the listed messages on each side, in order. |
| Traces.RoundTrip | src/WebRTCConnection.js:91-241 | The whole exchange as runs of events from two new connections: each side's full outbox in order, one entry for the other side, crossed descriptions, and candidate forwarding only on the answering side. |
| Connection.WebRTCConnection.constructor | src/WebRTCConnection.js:193-221 | The new object's state is `Init`, and it satisfies the invariant. |
| Connection.WebRTCConnection.RegisterLifecycleListeners | src/WebRTCConnection.js:208-219 | The three lifecycle listeners become the socket's list; no other field changes. |
| Connection.WebRTCConnection.AddPeer | src/WebRTCConnection.js:42-84 | The fields change as `Negotiation.AddPeer` says, and the invariant is kept. |
| Connection.WebRTCConnection.SendOffer | src/WebRTCConnection.js:62-71 | The fields change as `Negotiation.SendOffer` says, and the invariant is kept. |
| Connection.WebRTCConnection.AcceptOffer | src/WebRTCConnection.js:131-137 | Only the sender's entry changes: remote description set, forwarding on. |
| Connection.WebRTCConnection.SendAnswer | src/WebRTCConnection.js:138-142 | The fields change as `Negotiation.SendAnswer` says. |
| Connection.WebRTCConnection.Join | src/WebRTCConnection.js:246-248 | State and outcome are those of `Negotiation.JoinRoom`, and the invariant is kept. |
| Connection.WebRTCConnection.RegisterJoinListeners | src/WebRTCConnection.js:103-181 | The four negotiation listeners are appended; no other field changes. |
| Connection.WebRTCConnection.CreateRoom | src/WebRTCConnection.js:226-241 | The fields change as `Negotiation.CreateRoom` says, and the invariant is kept. |
| Connection.WebRTCConnection.OnRoomCreated | src/WebRTCConnection.js:229-234 | State and outcome are those of `Negotiation.OnRoomCreated`. Afterwards the listener is unregistered and the invariant holds. |
| Connection.WebRTCConnection.UnregisterRoomCreated | src/WebRTCConnection.js:230 | Only the listener list changes, losing one registration of that listener. Afterwards it is unregistered and the invariant holds. |
| Connection.WebRTCConnection.OnClientJoin | src/WebRTCConnection.js:103-116 | The fields change as `Negotiation.OnClientJoin` says, and the invariant is kept. |
| Connection.WebRTCConnection.OnOffer | src/WebRTCConnection.js:122-146 | The fields change as `Negotiation.OnOffer` says, and the invariant is kept. |
| Connection.WebRTCConnection.OnAnswer | src/WebRTCConnection.js:151-166 | The fields change as `Negotiation.OnAnswer` says, and the invariant is kept. |
| Connection.WebRTCConnection.OnIceCandidate | src/WebRTCConnection.js:169-181 | The fields change as `Negotiation.OnIceCandidate` says, and the invariant is kept. |
| Connection.WebRTCConnection.OnNegotiationNeeded | src/WebRTCConnection.js:62-71 | The fields change as `Negotiation.OnNegotiationNeeded` says, and the invariant is kept. |
| Connection.WebRTCConnection.OnLocalIceCandidate | src/WebRTCConnection.js:133-137 | The fields change as `Negotiation.OnLocalIceCandidate` says, and the invariant is kept. |
| Subscribing.Record | src/util/Subscriptions.js:11 | The name now holds the new callback, no recorded name is lost, and the key list keeps its old names as a prefix and grows by at most one. |
| Subscribing.RecordKeepsTableOk | src/util/Subscriptions.js:11 | After `_events[eventName] = cb`, each name is still listed once and exactly the recorded names are listed. |
| Subscribing.RecordKeepsOthers | src/util/Subscriptions.js:11 | Recording sets that name's callback and touches no other record. Earlier names keep their key positions; a new name is added at the end. |
| Subscribing.RecordedIsLatest | src/util/Subscriptions.js:9-12 | After `on`, the registrations `removeAll` would take off include the new callback, and no other callback for that name. |
| Subscribing.Removals | src/util/Subscriptions.js:14-16 | `removeAll` makes exactly one `removeListener` call per listed name. |
| Subscribing.RemovalsAt | src/util/Subscriptions.js:15-16 | The i-th removal is of the i-th key, with the callback recorded under it. |
| Subscribing.RemovalsLeaveOthers | src/util/Subscriptions.js:14-19 | A context listener that is not among the recorded registrations survives `removeAll`. |
| Subscribing.ShadowedSurvives | src/util/Subscriptions.js:9-19 | Two `on` calls with one name and different callbacks: `removeAll` leaves the first callback registered on the context. |
| Subscribing.DropFirstKeepsTableOk | src/util/Subscriptions.js:17 | Deleting the first key keeps the keys and the record in step. |
| Subscribing.SecondRemoveAllIsNoOp | src/util/Subscriptions.js:15-18 | With nothing recorded, `removeAll` removes nothing from the context. |
| Subscribing.Context.On | src/util/Subscriptions.js:10 | The context's list gains the registration, as the emitter's `on` does. |
| Subscribing.Context.RemoveListener | src/util/Subscriptions.js:16 | The context's list loses one registration of the pair, as the emitter's `removeListener` does. |
| Subscribing.Subscriptions.constructor | src/util/Subscriptions.js:4-7 | A new helper has recorded nothing and keeps the given context. |
| Subscribing.Subscriptions.On | src/util/Subscriptions.js:9-12 | The context gains the listener, the record changes as `Record` says, and the table stays well formed. |
| Subscribing.Subscriptions.ForgetFirst | src/util/Subscriptions.js:16-17 | One loop round: the first key's callback leaves the context, and that key leaves the record. |
| Subscribing.Subscriptions.RemoveAll | src/util/Subscriptions.js:14-19 | Nothing is recorded afterwards. The context's list is the old one with each recorded (name, callback) removed in key order. |

## Left out

- The logger. A failed step is logged by the source; here it only means that nothing is sent.
- The bodies of the `connect`, `error` and `disconnect` listeners (`emit('ready')` and logging). Only their registration is modelled.
- `onaddstream` and the `stream-added` event with `URL.createObjectURL`. They belong to the browser's media path, not to negotiation.
- `RTCPeerConnection` internals: SDP contents, ICE gathering, the ICE server list, and the construction of `RTCSessionDescription` and `RTCIceCandidate`. Descriptions and candidates are opaque strings, and each asynchronous step is an outcome passed in by the caller.
- Promise scheduling. Each handler's chain is one atomic step, so interleavings inside a chain are not modelled.
- The promise returned by `createRoom`, and the `.then` / `.catch` calls made on the results of `signaler.emit`. These depend on what socket.io's `emit` returns, which is not part of this model.
- `Signaler`'s constructor, `readyState` and `disconnect`. They only open, inspect or close the socket connection.
- socket.io's transport and reconnection. Delivery to the other side and the server's relay (`server.js`) are not part of this model. The two-party scenarios in `Traces` hand each side the message the other side sent.
- Lookups in plain JavaScript objects. `_peers[id]` and `_events[name]` would also find inherited keys such as `constructor`; maps here hold only the keys that were set.
- The order of `Object.keys`. Integer-like names would be listed first, in numeric order; here keys are kept in insertion order.
- Listeners.Unsubscribe: removes the first matching registration. The multiset contracts used elsewhere do not depend on which one is removed.
- Traces.Step: a registered handler runs once per event. socket.io runs a handler once per registration; the two agree because every reachable connection has each listener registered once (`Traces.Reachable`, from the `Distinct` part of `Inv`). A `roomCreated` event is handed to one chosen `onRoomCreated` listener. Whether the socket goes on to run further registered `onRoomCreated` listeners on the same event depends on the `.then` call on `_joinRoom`'s result, which is not modelled (see the line on `createRoom`'s promise above).
- Signaling.GetId: the socket id is one defined value for the connection's whole life. socket.io assigns it on connect, so it is undefined before the `connect` event (`join` may be called earlier), and it changes after a reconnect. The sender-id guarantees of `Traces.Reachable` rest on this.

Three behaviours of the code worth noting, which the model follows:

- A peer session is created by `client-join` and by `offer`, but never by an `answer` from an unknown sender.
- There is no per-peer negotiation phase and no queue for early ICE candidates. A candidate arriving before a remote description is passed to `addIceCandidate`, and its rejection is the `added = false` outcome.
- Local candidates are forwarded to a peer only after an offer from that peer is applied. The `client-join` path never installs `onicecandidate`; a side that offered installs it only if that same peer later sends it an offer.
