/**
 * The negotiation coordinator of WebRTCConnection, as a state-transition specification.
 *
 * A connection holds a registry of per-peer RTCPeerConnections keyed by remote id, a
 * one-shot "listeners bound" flag, the listeners registered on its signaler's socket and
 * the messages it has handed to the socket. Each handler of the source is one function
 * from the old state to the new one. The browser's asynchronous steps (creating an offer or
 * an answer, applying a description, adding a candidate) are not modelled: each appears as
 * its outcome, passed in by the caller; a failed step is logged by the source and changes
 * nothing here.
 */
module Negotiation {

  import opened Wrappers
  import opened Listeners
  import opened Signaling

  /** A session description, opaque to the coordinator. */
  type Sdp = string

  /** An ICE candidate, opaque to the coordinator. */
  type Candidate = string

  /** The local media stream handle given to the constructor. */
  type MediaStream = string

  /** The `data` of the envelopes this coordinator sends. */
  datatype Payload =
    | NoData                             // `emit('create')`
    | Room(room: string)                 // `join`
    | Description(sdp: Sdp)              // `offer` and `answer`
    | IceCandidate(candidate: Candidate) // `icecandidate`

  /** The part of one remote peer's RTCPeerConnection that the coordinator drives. */
  datatype Peer = Peer(
    stream: MediaStream,         // attached with addStream when the connection is made
    local: Option<Sdp>,          // the last description set by setLocalDescription
    remote: Option<Sdp>,         // the last description applied by setRemoteDescription
    candidates: seq<Candidate>,  // remote candidates accepted by addIceCandidate
    forwardIce: bool)            // onicecandidate installed: local candidates go to this peer

  /** The closures the connection registers on its signaler. */
  datatype Handler =
    | ConnectHandler
    | ErrorHandler
    | DisconnectHandler
    | RoomCreatedHandler(call: nat)  // the `onRoomCreated` of the call-th createRoom
    | ClientJoinHandler
    | OfferHandler
    | AnswerHandler
    | IceCandidateHandler

  /** The state of one WebRTCConnection. */
  datatype Conn = Conn(
    signaler: Signaler,
    stream: MediaStream,
    bound: bool,                        // `_listenersBound`
    peers: map<PeerId, Peer>,           // `_peers`
    listeners: seq<Listener<Handler>>,  // listeners registered on the signaler's socket
    outbox: seq<Message<Payload>>,      // messages handed to the socket, oldest first
    current: Option<PeerId>,            // `_peer`: the connection made last
    roomRequests: nat)                  // createRoom calls so far

  /** What `join` does for its caller: returns, or throws an Error with a message. */
  datatype JoinOutcome = Joined | Thrown(message: string)

  const AlreadyStarted := "Connection has already started"

  /** The listeners the constructor registers, in its order. */
  function LifecycleListeners(): seq<Listener<Handler>>
  {
    [ Listener("connect", ConnectHandler), Listener("error", ErrorHandler),
      Listener("disconnect", DisconnectHandler) ]
  }

  /** The constructor's three `signaler.on` calls register exactly those. */
  lemma BindLifecycleListeners()
    ensures On(On(On([], "connect", ConnectHandler), "error", ErrorHandler), "disconnect", DisconnectHandler)
         == LifecycleListeners()
  {
    assert On([], "connect", ConnectHandler) == LifecycleListeners()[..1];
    assert On(LifecycleListeners()[..1], "error", ErrorHandler) == LifecycleListeners()[..2];
  }

  /** The listeners `_joinRoom` registers, in its order. */
  function JoinListeners(): seq<Listener<Handler>>
  {
    [ Listener("client-join", ClientJoinHandler), Listener("offer", OfferHandler),
      Listener("answer", AnswerHandler), Listener("icecandidate", IceCandidateHandler) ]
  }

  predicate Registered(c: Conn, event: string, h: Handler)
  {
    Listener(event, h) in c.listeners
  }

  /** `join` and `create` are the only messages sent to nobody in particular. */
  predicate IsBroadcast(event: string)
  {
    event == "join" || event == "create"
  }

  /** Each closure is registered for its own event; the four of `_joinRoom` only once bound. */
  predicate ListenerOk(bound: bool, roomRequests: nat, l: Listener<Handler>)
  {
    match l.fn
    case ConnectHandler => l.event == "connect"
    case ErrorHandler => l.event == "error"
    case DisconnectHandler => l.event == "disconnect"
    case RoomCreatedHandler(k) => l.event == "roomCreated" && k < roomRequests
    case ClientJoinHandler => l.event == "client-join" && bound
    case OfferHandler => l.event == "offer" && bound
    case AnswerHandler => l.event == "answer" && bound
    case IceCandidateHandler => l.event == "icecandidate" && bound
  }

  /** Every connection carries the local stream; candidates flow only after a remote description. */
  predicate PeerOk(stream: MediaStream, p: Peer)
  {
    p.stream == stream && (p.forwardIce ==> p.remote.Some?)
  }

  /**
   * Every message carries the local id; negotiation messages are addressed to a known
   * peer; an answer goes only to a peer whose offer was applied, a candidate only to a
   * peer whose forwarding is on.
   */
  predicate MessageOk(s: Signaler, peers: map<PeerId, Peer>, m: Message<Payload>)
  {
    var to := m.envelope.receiverId;
    && m.envelope.senderId == GetId(s)
    && (to.None? <==> IsBroadcast(m.event))
    && (to.Some? ==> to.value in peers)
    && (m.event == "answer" ==>
          to.Some? && to.value in peers && peers[to.value].remote.Some? && m.envelope.data.Description?)
    && (m.event == "icecandidate" ==>
          to.Some? && to.value in peers && peers[to.value].forwardIce && m.envelope.data.IceCandidate?)
  }

  /** What may only grow: entries are never dropped, forwarding is never turned off, sent messages stay sent. */
  predicate PeerGrows(p: Peer, q: Peer)
  {
    q.stream == p.stream && (p.forwardIce ==> q.forwardIce) && (p.remote.Some? ==> q.remote.Some?)
  }

  predicate PeersGrow(peers: map<PeerId, Peer>, peers2: map<PeerId, Peer>)
  {
    && peers.Keys <= peers2.Keys
    && (forall id :: id in peers ==> PeerGrows(peers[id], peers2[id]))
  }

  predicate Grows(c: Conn, d: Conn)
  {
    && d.signaler == c.signaler && d.stream == c.stream
    && PeersGrow(c.peers, d.peers)
    && c.outbox <= d.outbox
    && (c.bound ==> d.bound)
  }

  /** The half of the invariant about connections and sent messages. */
  predicate Traffic(s: Signaler, stream: MediaStream, peers: map<PeerId, Peer>,
                    outbox: seq<Message<Payload>>, current: Option<PeerId>)
  {
    && (forall id :: id in peers ==> PeerOk(stream, peers[id]))
    && (forall m :: m in outbox ==> MessageOk(s, peers, m))
    && (current.Some? ==> current.value in peers)
  }

  /** The half of the invariant about the socket's listener registrations. */
  predicate Registrations(ls: seq<Listener<Handler>>, bound: bool, roomRequests: nat)
  {
    && Distinct(ls)
    && (forall l :: l in ls ==> ListenerOk(bound, roomRequests, l))
    && (bound ==> forall l :: l in JoinListeners() ==> l in ls)
  }

  /** The invariant every reachable connection keeps. */
  predicate Inv(c: Conn)
  {
    && Traffic(c.signaler, c.stream, c.peers, c.outbox, c.current)
    && Registrations(c.listeners, c.bound, c.roomRequests)
  }

  /** Messages addressed under the old registry stay well addressed when entries only grow. */
  lemma MessagesKept(s: Signaler, peers: map<PeerId, Peer>, peers2: map<PeerId, Peer>, outbox: seq<Message<Payload>>)
    requires forall m :: m in outbox ==> MessageOk(s, peers, m)
    requires PeersGrow(peers, peers2)
    ensures forall m :: m in outbox ==> MessageOk(s, peers2, m)
  {
    forall m | m in outbox ensures MessageOk(s, peers2, m) {
      assert MessageOk(s, peers, m);
    }
  }

  /** A connection before any call: the three lifecycle listeners, nothing else. */
  function Init(signaler: Signaler, stream: MediaStream): (c: Conn)
    ensures c.signaler == signaler && c.stream == stream && c.roomRequests == 0
    ensures !c.bound && c.peers == map[] && c.outbox == [] && c.current == None
    ensures c.listeners == LifecycleListeners()
  {
    Conn(signaler, stream, false, map[], LifecycleListeners(), [], None, 0)
  }

  /** A fresh connection satisfies the invariant: each lifecycle listener is registered once. */
  lemma InitSatisfiesInv(signaler: Signaler, stream: MediaStream)
    ensures Inv(Init(signaler, stream))
  {
    var ls := LifecycleListeners();
    assert multiset(ls) == multiset{ls[0]} + multiset{ls[1]} + multiset{ls[2]} by {
      assert ls == [ls[0]] + [ls[1]] + [ls[2]];
    }
  }

  /** A connection that has not negotiated anything yet. */
  function NewPeer(stream: MediaStream): Peer
  {
    Peer(stream, None, None, [], false)
  }

  /**
   * `_addPeer`: a new connection carrying the local stream is recorded under `id` and
   * becomes `_peer`; no other entry and no message is touched.
   */
  function AddPeer(c: Conn, id: PeerId): (r: Conn)
    ensures r.peers.Keys == c.peers.Keys + {id}
    ensures r.peers[id] == NewPeer(c.stream)
    ensures forall k :: k in c.peers && k != id ==> r.peers[k] == c.peers[k]
    ensures r.current == Some(id)
    ensures r.outbox == c.outbox && r.listeners == c.listeners && r.bound == c.bound
    ensures r.signaler == c.signaler && r.stream == c.stream && r.roomRequests == c.roomRequests
  {
    c.(peers := c.peers[id := NewPeer(c.stream)], current := Some(id))
  }

  /** Recording a connection for an id not yet in the registry keeps the invariant. */
  lemma AddPeerKeepsInv(c: Conn, id: PeerId)
    requires Inv(c) && id !in c.peers
    ensures Inv(AddPeer(c, id))
  {
    MessagesKept(c.signaler, c.peers, AddPeer(c, id).peers, c.outbox);
  }

  function Send(c: Conn, m: Message<Payload>): Conn
  {
    c.(outbox := c.outbox + [m])
  }

  /** The offer message for `offer`, if the offer could be made. */
  function OfferMessages(s: Signaler, id: PeerId, offer: Option<Sdp>): seq<Message<Payload>>
  {
    if offer.Some? then [EmitTo(s, id, "offer", Description(offer.value))] else []
  }

  /** The chain `_createOffer(peer).then(desc => emitTo(id, 'offer', desc)).catch(log)`. */
  function SendOffer(c: Conn, id: PeerId, offer: Option<Sdp>): (r: Conn)
    requires id in c.peers
    ensures offer.None? ==> r == c
    ensures r.peers.Keys == c.peers.Keys
    ensures forall k :: k in c.peers && k != id ==> r.peers[k] == c.peers[k]
    ensures offer.Some? ==> r.peers[id] == c.peers[id].(local := offer)
    ensures r.outbox == c.outbox + OfferMessages(c.signaler, id, offer)
    ensures r.listeners == c.listeners && r.bound == c.bound && r.current == c.current
    ensures r.signaler == c.signaler && r.stream == c.stream && r.roomRequests == c.roomRequests
  {
    match offer
    case None => c
    case Some(sdp) =>
      Send(c.(peers := c.peers[id := c.peers[id].(local := offer)]),
           EmitTo(c.signaler, id, "offer", Description(sdp)))
  }

  /** Sending an offer to a known peer keeps the invariant. */
  lemma SendOfferKeepsInv(c: Conn, id: PeerId, offer: Option<Sdp>)
    requires Inv(c) && id in c.peers
    ensures Inv(SendOffer(c, id, offer))
  {
    var r := SendOffer(c, id, offer);
    MessagesKept(c.signaler, c.peers, r.peers, c.outbox);
  }

  /** The four `signaler.on` calls of `_joinRoom` register exactly its listeners, in order. */
  lemma BindJoinListeners(ls: seq<Listener<Handler>>)
    ensures On(On(On(On(ls, "client-join", ClientJoinHandler), "offer", OfferHandler),
               "answer", AnswerHandler), "icecandidate", IceCandidateHandler)
         == ls + JoinListeners()
  {
    var l1 := On(ls, "client-join", ClientJoinHandler);
    var l2 := On(l1, "offer", OfferHandler);
    var l3 := On(l2, "answer", AnswerHandler);
    assert l1 == ls + [JoinListeners()[0]];
    assert l2 == ls + JoinListeners()[..2];
    assert l3 == ls + JoinListeners()[..3];
  }

  /**
   * `join(room)`: a second call throws and changes nothing; the first sets the flag,
   * registers the four negotiation listeners once and broadcasts `join`.
   */
  function JoinRoom(c: Conn, room: string): (r: (Conn, JoinOutcome))
    ensures c.bound ==> r == (c, Thrown(AlreadyStarted))
    ensures !c.bound ==>
      && r.1 == Joined && r.0.bound
      && r.0.peers == c.peers && r.0.current == c.current && r.0.roomRequests == c.roomRequests
      && r.0.listeners == c.listeners + JoinListeners()
      && r.0.outbox == c.outbox + [Emit(c.signaler, "join", Room(room))]
    ensures r.0.signaler == c.signaler && r.0.stream == c.stream
    ensures Grows(c, r.0)
  {
    if c.bound then (c, Thrown(AlreadyStarted))
    else
      (Send(c.(bound := true, listeners := c.listeners + JoinListeners()), Emit(c.signaler, "join", Room(room))), Joined)
  }

  /** `join` keeps the invariant; in particular its listeners end up registered exactly once. */
  lemma JoinRoomKeepsInv(c: Conn, room: string)
    requires Inv(c)
    ensures Inv(JoinRoom(c, room).0)
  {
    if !c.bound {
      var r := JoinRoom(c, room).0;
      JoinListenersFresh(c);
      forall l | l in r.listeners ensures ListenerOk(r.bound, r.roomRequests, l) {
        if l in c.listeners { assert ListenerOk(c.bound, c.roomRequests, l); }
      }
    }
  }

  /** Before `join`, none of its listeners is registered, so registering them keeps the list duplicate-free. */
  lemma JoinListenersFresh(c: Conn)
    requires Inv(c) && !c.bound
    ensures Distinct(c.listeners + JoinListeners())
  {
    var ls := c.listeners + JoinListeners();
    forall l | l in ls ensures multiset(ls)[l] == 1 {
      assert multiset(ls) == multiset(c.listeners) + multiset(JoinListeners());
      if l in c.listeners {
        assert ListenerOk(c.bound, c.roomRequests, l);
        assert l !in JoinListeners();
      } else {
        assert multiset(c.listeners)[l] == 0;
      }
    }
  }

  /**
   * `createRoom()`: a fresh `roomCreated` listener is registered and `create` is
   * broadcast; peers and the bound flag are untouched.
   */
  function CreateRoom(c: Conn): (r: Conn)
    ensures r.listeners == c.listeners + [Listener("roomCreated", RoomCreatedHandler(c.roomRequests))]
    ensures r.roomRequests == c.roomRequests + 1
    ensures r.outbox == c.outbox + [Emit(c.signaler, "create", NoData)]
    ensures r.peers == c.peers && r.bound == c.bound && r.current == c.current
    ensures r.signaler == c.signaler && r.stream == c.stream
    ensures Grows(c, r)
  {
    Send(c.(listeners := On(c.listeners, "roomCreated", RoomCreatedHandler(c.roomRequests)),
            roomRequests := c.roomRequests + 1),
         Emit(c.signaler, "create", NoData))
  }

  /** The listener `createRoom` registers is a fresh one, so the invariant is kept. */
  lemma CreateRoomKeepsInv(c: Conn)
    requires Inv(c)
    ensures Inv(CreateRoom(c))
  {
    AddRoomListenerKeepsRegistrations(c.listeners, c.bound, c.roomRequests);
  }

  /** The `roomCreated` listener of the next call is new, so registering it keeps the registrations well formed. */
  lemma AddRoomListenerKeepsRegistrations(ls: seq<Listener<Handler>>, bound: bool, roomRequests: nat)
    requires Registrations(ls, bound, roomRequests)
    ensures Registrations(ls + [Listener("roomCreated", RoomCreatedHandler(roomRequests))], bound, roomRequests + 1)
  {
    var l := Listener("roomCreated", RoomCreatedHandler(roomRequests));
    var r := ls + [l];
    assert !ListenerOk(bound, roomRequests, l);
    assert multiset(r) == multiset(ls) + multiset{l};
    forall x | x in r ensures ListenerOk(bound, roomRequests + 1, x) {
      if x in ls { assert ListenerOk(bound, roomRequests, x); }
    }
  }

  /**
   * `onRoomCreated(roomId)`: the listener removes itself first and then joins; the join
   * may still throw.
   */
  function OnRoomCreated(c: Conn, call: nat, room: string): (r: (Conn, JoinOutcome))
    requires Registered(c, "roomCreated", RoomCreatedHandler(call))
    ensures r.1 == (if c.bound then Thrown(AlreadyStarted) else Joined)
    ensures r.0.bound && r.0.peers == c.peers && r.0.current == c.current
    ensures multiset(r.0.listeners) ==
      multiset(c.listeners) - multiset{Listener("roomCreated", RoomCreatedHandler(call))}
        + (if c.bound then multiset{} else multiset(JoinListeners()))
    ensures r.0.outbox == c.outbox + (if c.bound then [] else [Emit(c.signaler, "join", Room(room))])
    ensures r.0.signaler == c.signaler && r.0.stream == c.stream
    ensures Grows(c, r.0)
  {
    JoinRoom(c.(listeners := RemoveListener(c.listeners, "roomCreated", RoomCreatedHandler(call))), room)
  }

  /**
   * `onRoomCreated` keeps the invariant, and since each listener is registered once, a
   * later `roomCreated` finds this one gone.
   */
  lemma OnRoomCreatedKeepsInv(c: Conn, call: nat, room: string)
    requires Inv(c) && Registered(c, "roomCreated", RoomCreatedHandler(call))
    ensures Inv(OnRoomCreated(c, call, room).0)
    ensures !Registered(OnRoomCreated(c, call, room).0, "roomCreated", RoomCreatedHandler(call))
  {
    var c1 := c.(listeners := RemoveListener(c.listeners, "roomCreated", RoomCreatedHandler(call)));
    RemoveRoomListenerKeepsInv(c, c1, call);
    JoinRoomKeepsInv(c1, room);
  }

  lemma RemoveRoomListenerKeepsInv(c: Conn, c1: Conn, call: nat)
    requires Inv(c)
    requires c1 == c.(listeners := Unsubscribe(c.listeners, "roomCreated", RoomCreatedHandler(call)))
    ensures Inv(c1) && !Registered(c1, "roomCreated", RoomCreatedHandler(call))
  {
    RemoveRoomListenerKeepsRegistrations(c.listeners, c.bound, c.roomRequests, call);
  }

  /** Taking a `roomCreated` listener off keeps the registrations well formed and drops that listener. */
  lemma RemoveRoomListenerKeepsRegistrations(ls: seq<Listener<Handler>>, bound: bool, roomRequests: nat, call: nat)
    requires Registrations(ls, bound, roomRequests)
    ensures var r := Unsubscribe(ls, "roomCreated", RoomCreatedHandler(call));
      Registrations(r, bound, roomRequests) && Listener("roomCreated", RoomCreatedHandler(call)) !in r
  {
    var r := Unsubscribe(ls, "roomCreated", RoomCreatedHandler(call));
    UnsubscribeDistinct(ls, "roomCreated", RoomCreatedHandler(call));
    if bound {
      forall x | x in JoinListeners() ensures x in r {
        UnsubscribeKeepsOthers(ls, "roomCreated", RoomCreatedHandler(call), x);
      }
    }
  }

  /**
   * `client-join` from `id`: for an unseen id, exactly one entry is made and, if the offer
   * could be made, exactly one `offer` goes to `id`; forwarding stays off. For a known id
   * nothing happens.
   */
  function OnClientJoin(c: Conn, id: PeerId, offer: Option<Sdp>): (r: Conn)
    ensures id in c.peers ==> r == c
    ensures id !in c.peers ==>
      && r.peers.Keys == c.peers.Keys + {id}
      && (forall k :: k in c.peers ==> r.peers[k] == c.peers[k])
      && r.peers[id] == NewPeer(c.stream).(local := offer)
      && !r.peers[id].forwardIce
      && r.outbox == c.outbox + OfferMessages(c.signaler, id, offer)
      && r.current == Some(id)
    ensures r.listeners == c.listeners && r.bound == c.bound
    ensures r.signaler == c.signaler && r.stream == c.stream && r.roomRequests == c.roomRequests
    ensures Grows(c, r)
  {
    if id in c.peers then c else SendOffer(AddPeer(c, id), id, offer)
  }

  lemma OnClientJoinKeepsInv(c: Conn, id: PeerId, offer: Option<Sdp>)
    requires Inv(c)
    ensures Inv(OnClientJoin(c, id, offer))
  {
    if id !in c.peers {
      AddPeerKeepsInv(c, id);
      SendOfferKeepsInv(AddPeer(c, id), id, offer);
    }
  }

  /** The answer message, sent only when the offer was applied and the answer could be made. */
  function AnswerMessages(s: Signaler, id: PeerId, applied: bool, answer: Option<Sdp>): seq<Message<Payload>>
  {
    if applied && answer.Some? then [EmitTo(s, id, "answer", Description(answer.value))] else []
  }

  /** The offer handler's entry for `from`: the one in the registry, or a new one. */
  function OfferTarget(c: Conn, from: PeerId): Conn
  {
    if from in c.peers then c else AddPeer(c, from)
  }

  /** Applying the offer and installing `onicecandidate`. */
  function ApplyOffer(c: Conn, from: PeerId, sdp: Sdp): (r: Conn)
    requires from in c.peers
    ensures r.peers.Keys == c.peers.Keys
    ensures forall k :: k in c.peers && k != from ==> r.peers[k] == c.peers[k]
    ensures r.peers[from].remote == Some(sdp) && r.peers[from].forwardIce
    ensures r.peers[from].stream == c.peers[from].stream && r.peers[from].local == c.peers[from].local
    ensures r.peers[from].candidates == c.peers[from].candidates
    ensures r.outbox == c.outbox && r.listeners == c.listeners && r.bound == c.bound && r.current == c.current
    ensures r.signaler == c.signaler && r.stream == c.stream && r.roomRequests == c.roomRequests
  {
    c.(peers := c.peers[from := c.peers[from].(remote := Some(sdp), forwardIce := true)])
  }

  /**
   * `offer` from `from`: the entry is reused or made (never a second one); once the remote
   * description is applied, candidate forwarding to `from` is on and, if the answer could
   * be made, exactly one `answer` goes to `from`. No offer is ever sent here.
   */
  function OnOffer(c: Conn, from: PeerId, sdp: Sdp, applied: bool, answer: Option<Sdp>): (r: Conn)
    ensures r.peers.Keys == c.peers.Keys + {from}
    ensures forall k :: k in c.peers && k != from ==> r.peers[k] == c.peers[k]
    ensures from !in c.peers && !applied ==> r.peers[from] == NewPeer(c.stream)
    ensures from in c.peers && !applied ==> r == c
    ensures applied ==> r.peers[from].remote == Some(sdp) && r.peers[from].forwardIce
    ensures !applied ==> r.peers[from].forwardIce == (from in c.peers && c.peers[from].forwardIce)
    ensures applied && answer.Some? ==> r.peers[from].local == answer
    ensures from in c.peers ==>
      r.peers[from].stream == c.peers[from].stream && r.peers[from].candidates == c.peers[from].candidates
    ensures from in c.peers ==> r.current == c.current
    ensures r.outbox == c.outbox + AnswerMessages(c.signaler, from, applied, answer)
    ensures r.listeners == c.listeners && r.bound == c.bound
    ensures r.signaler == c.signaler && r.stream == c.stream && r.roomRequests == c.roomRequests
    ensures Grows(c, r)
  {
    var c1 := OfferTarget(c, from);
    if !applied then c1
    else
      SendAnswer(ApplyOffer(c1, from, sdp), from, answer)
  }

  lemma OnOfferKeepsInv(c: Conn, from: PeerId, sdp: Sdp, applied: bool, answer: Option<Sdp>)
    requires Inv(c)
    ensures Inv(OnOffer(c, from, sdp, applied, answer))
  {
    if from !in c.peers { AddPeerKeepsInv(c, from); }
    var c1 := OfferTarget(c, from);
    if applied {
      ApplyOfferKeepsInv(c1, from, sdp);
      SendAnswerKeepsInv(ApplyOffer(c1, from, sdp), from, answer);
    }
  }

  /** Applying the offer and installing `onicecandidate` keeps the invariant. */
  lemma ApplyOfferKeepsInv(c1: Conn, from: PeerId, sdp: Sdp)
    requires Inv(c1) && from in c1.peers
    ensures Inv(ApplyOffer(c1, from, sdp))
  {
    MessagesKept(c1.signaler, c1.peers, ApplyOffer(c1, from, sdp).peers, c1.outbox);
  }

  /** The chain `_createAnswer(peer).then(answer => emitTo(from, 'answer', answer))`. */
  function SendAnswer(c: Conn, from: PeerId, answer: Option<Sdp>): (r: Conn)
    requires from in c.peers
    ensures answer.None? ==> r == c
    ensures r.peers.Keys == c.peers.Keys
    ensures forall k :: k in c.peers && k != from ==> r.peers[k] == c.peers[k]
    ensures answer.Some? ==> r.peers[from] == c.peers[from].(local := answer)
    ensures r.outbox == c.outbox + AnswerMessages(c.signaler, from, true, answer)
    ensures r.listeners == c.listeners && r.bound == c.bound && r.current == c.current
    ensures r.signaler == c.signaler && r.stream == c.stream && r.roomRequests == c.roomRequests
  {
    match answer
    case None => c
    case Some(a) =>
      Send(c.(peers := c.peers[from := c.peers[from].(local := answer)]),
           EmitTo(c.signaler, from, "answer", Description(a)))
  }

  /** Answering a peer whose offer was applied keeps the invariant. */
  lemma SendAnswerKeepsInv(c: Conn, from: PeerId, answer: Option<Sdp>)
    requires Inv(c) && from in c.peers && c.peers[from].remote.Some?
    ensures Inv(SendAnswer(c, from, answer))
  {
    MessagesKept(c.signaler, c.peers, SendAnswer(c, from, answer).peers, c.outbox);
  }

  /**
   * `answer` from `from`: ignored for an unknown sender or a failed application;
   * otherwise the description becomes the peer's remote description.
   */
  function OnAnswer(c: Conn, from: PeerId, sdp: Sdp, applied: bool): (r: Conn)
    ensures from !in c.peers || !applied ==> r == c
    ensures from in c.peers && applied ==>
      r == c.(peers := c.peers[from := c.peers[from].(remote := Some(sdp))])
    ensures Grows(c, r)
  {
    if from !in c.peers || !applied then c
    else c.(peers := c.peers[from := c.peers[from].(remote := Some(sdp))])
  }

  lemma OnAnswerKeepsInv(c: Conn, from: PeerId, sdp: Sdp, applied: bool)
    requires Inv(c)
    ensures Inv(OnAnswer(c, from, sdp, applied))
  {
    MessagesKept(c.signaler, c.peers, OnAnswer(c, from, sdp, applied).peers, c.outbox);
  }

  /**
   * `icecandidate` from `from`: ignored for an unknown sender or a rejected candidate;
   * otherwise the candidate is added to that peer's connection.
   */
  function OnIceCandidate(c: Conn, from: PeerId, candidate: Candidate, added: bool): (r: Conn)
    ensures from !in c.peers || !added ==> r == c
    ensures from in c.peers && added ==>
      r == c.(peers := c.peers[from := c.peers[from].(candidates := c.peers[from].candidates + [candidate])])
    ensures Grows(c, r)
  {
    if from !in c.peers || !added then c
    else c.(peers := c.peers[from := c.peers[from].(candidates := c.peers[from].candidates + [candidate])])
  }

  lemma OnIceCandidateKeepsInv(c: Conn, from: PeerId, candidate: Candidate, added: bool)
    requires Inv(c)
    ensures Inv(OnIceCandidate(c, from, candidate, added))
  {
    MessagesKept(c.signaler, c.peers, OnIceCandidate(c, from, candidate, added).peers, c.outbox);
  }

  /**
   * `onnegotiationneeded` on the connection of `id`: if the offer could be made, one
   * `offer` goes to that same id; the registry keeps its keys and other entries.
   */
  function OnNegotiationNeeded(c: Conn, id: PeerId, offer: Option<Sdp>): (r: Conn)
    requires id in c.peers
    ensures r.peers.Keys == c.peers.Keys
    ensures forall k :: k in c.peers && k != id ==> r.peers[k] == c.peers[k]
    ensures r.peers[id] == c.peers[id].(local := if offer.Some? then offer else c.peers[id].local)
    ensures r.outbox == c.outbox + OfferMessages(c.signaler, id, offer)
    ensures r.listeners == c.listeners && r.bound == c.bound && r.current == c.current
    ensures r.signaler == c.signaler && r.stream == c.stream && r.roomRequests == c.roomRequests
    ensures Grows(c, r)
  {
    SendOffer(c, id, offer)
  }

  /** The candidate message: only with forwarding on and a truthy candidate. */
  function CandidateMessages(s: Signaler, id: PeerId, forward: bool, candidate: Option<Candidate>): seq<Message<Payload>>
  {
    if forward && candidate.Some? then [EmitTo(s, id, "icecandidate", IceCandidate(candidate.value))] else []
  }

  /**
   * `onicecandidate` on the connection of `id` (a locally found candidate; None for a
   * falsy one): forwarded to `id` only if the offer path installed the handler.
   */
  function OnLocalIceCandidate(c: Conn, id: PeerId, candidate: Option<Candidate>): (r: Conn)
    requires id in c.peers
    ensures r.peers == c.peers && r.listeners == c.listeners && r.bound == c.bound && r.current == c.current
    ensures r.signaler == c.signaler && r.stream == c.stream && r.roomRequests == c.roomRequests
    ensures r.outbox == c.outbox + CandidateMessages(c.signaler, id, c.peers[id].forwardIce, candidate)
    ensures Grows(c, r)
  {
    if c.peers[id].forwardIce && candidate.Some? then
      Send(c, EmitTo(c.signaler, id, "icecandidate", IceCandidate(candidate.value)))
    else c
  }

  lemma OnLocalIceCandidateKeepsInv(c: Conn, id: PeerId, candidate: Option<Candidate>)
    requires Inv(c) && id in c.peers
    ensures Inv(OnLocalIceCandidate(c, id, candidate))
  {
    assert Traffic(c.signaler, c.stream, c.peers, c.outbox, c.current);
  }
}
