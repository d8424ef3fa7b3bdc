/**
 * The WebRTCConnection object itself: its fields are updated in place by `join`,
 * `createRoom` and the closures it registers, exactly as the state-transition functions
 * of Negotiation describe. Each method is proved to take the object from `old(State())`
 * to the state the corresponding function gives, so every property proved about those
 * functions holds of the object.
 */
module Connection {

  import opened Wrappers
  import opened Listeners
  import opened Signaling
  import opened Negotiation

  class WebRTCConnection {
    const signaler: Signaler                 // `_signaler`
    const localStream: MediaStream           // `_localStream`
    var listenersBound: bool                 // `_listenersBound`
    var peers: map<PeerId, Peer>             // `_peers`
    var socketListeners: seq<Listener<Handler>>  // what the signaler's socket has registered
    var sent: seq<Message<Payload>>          // what has been handed to the socket's `emit`
    var peer: Option<PeerId>                 // `_peer`
    var roomRequests: nat                    // createRoom calls so far

    /** The object's fields as a value of the specification. */
    function State(): Conn
      reads this
    {
      Conn(signaler, localStream, listenersBound, peers, socketListeners, sent, peer, roomRequests)
    }

    predicate Valid()
      reads this
    {
      Inv(State())
    }

    /** The constructor: nothing bound, no peers, the three lifecycle listeners registered. */
    constructor(signaler: Signaler, localStream: MediaStream)
      ensures State() == Init(signaler, localStream)
      ensures Valid()
    {
      this.signaler := signaler;
      this.localStream := localStream;
      listenersBound := false;
      peers := map[];
      socketListeners := [];
      sent := [];
      peer := None;
      roomRequests := 0;
      new;
      InitSatisfiesInv(signaler, localStream);
      RegisterLifecycleListeners();
    }

    /** The constructor's three `signaler.on` calls. */
    method RegisterLifecycleListeners()
      requires socketListeners == []
      modifies this
      ensures State() == old(State()).(listeners := LifecycleListeners())
    {
      BindLifecycleListeners();
      socketListeners := On(socketListeners, "connect", ConnectHandler);
      socketListeners := On(socketListeners, "error", ErrorHandler);
      socketListeners := On(socketListeners, "disconnect", DisconnectHandler);
    }

    /** `_addPeer`: the new connection becomes `_peer`, carries the local stream and is recorded. */
    method AddPeer(id: PeerId)
      requires Valid() && id !in peers
      modifies this
      ensures State() == Negotiation.AddPeer(old(State()), id)
      ensures Valid()
    {
      AddPeerKeepsInv(State(), id);
      peer := Some(id);
      var p := NewPeer(localStream);
      peers := peers[id := p];
    }

    /** `_createOffer(peer)` followed by `emitTo(id, 'offer', desc)`; a failure sends nothing. */
    method SendOffer(id: PeerId, offer: Option<Sdp>)
      requires Valid() && id in peers
      modifies this
      ensures State() == Negotiation.SendOffer(old(State()), id, offer)
      ensures Valid()
    {
      SendOfferKeepsInv(State(), id, offer);
      if offer.Some? {
        peers := peers[id := peers[id].(local := offer)];
        sent := sent + [EmitTo(signaler, id, "offer", Description(offer.value))];
      }
    }

    /** `setRemoteDescription` succeeded: the offer is applied and `onicecandidate` installed. */
    method AcceptOffer(from: PeerId, sdp: Sdp)
      requires from in peers
      modifies this
      ensures State() == ApplyOffer(old(State()), from, sdp)
    {
      peers := peers[from := peers[from].(remote := Some(sdp), forwardIce := true)];
    }

    /** `_createAnswer(peer)` followed by `emitTo(from, 'answer', answer)`; a failure sends nothing. */
    method SendAnswer(from: PeerId, answer: Option<Sdp>)
      requires from in peers
      modifies this
      ensures State() == Negotiation.SendAnswer(old(State()), from, answer)
    {
      if answer.Some? {
        peers := peers[from := peers[from].(local := answer)];
        sent := sent + [EmitTo(signaler, from, "answer", Description(answer.value))];
      }
    }

    /** `join(room)`, that is `_joinRoom`: throws if already bound. */
    method Join(room: string) returns (outcome: JoinOutcome)
      requires Valid()
      modifies this
      ensures State() == JoinRoom(old(State()), room).0 && outcome == JoinRoom(old(State()), room).1
      ensures Valid()
    {
      JoinRoomKeepsInv(State(), room);
      if listenersBound {
        return Thrown(AlreadyStarted);
      }
      listenersBound := true;
      RegisterJoinListeners();
      sent := sent + [Emit(signaler, "join", Room(room))];
      outcome := Joined;
    }

    /** The four `signaler.on` calls of `_joinRoom`. */
    method RegisterJoinListeners()
      modifies this
      ensures State() == old(State()).(listeners := old(socketListeners) + JoinListeners())
    {
      BindJoinListeners(socketListeners);
      socketListeners := On(socketListeners, "client-join", ClientJoinHandler);
      socketListeners := On(socketListeners, "offer", OfferHandler);
      socketListeners := On(socketListeners, "answer", AnswerHandler);
      socketListeners := On(socketListeners, "icecandidate", IceCandidateHandler);
    }

    /** `createRoom()`: registers this call's `onRoomCreated` and broadcasts `create`. */
    method CreateRoom()
      requires Valid()
      modifies this
      ensures State() == Negotiation.CreateRoom(old(State()))
      ensures Valid()
    {
      CreateRoomKeepsInv(State());
      socketListeners := On(socketListeners, "roomCreated", RoomCreatedHandler(roomRequests));
      roomRequests := roomRequests + 1;
      sent := sent + [Emit(signaler, "create", NoData)];
    }

    /** `onRoomCreated(roomId)` of the call-th `createRoom`: unregisters itself, then joins. */
    method OnRoomCreated(call: nat, room: string) returns (outcome: JoinOutcome)
      requires Valid() && Registered(State(), "roomCreated", RoomCreatedHandler(call))
      modifies this
      ensures State() == Negotiation.OnRoomCreated(old(State()), call, room).0
      ensures outcome == Negotiation.OnRoomCreated(old(State()), call, room).1
      ensures !Registered(State(), "roomCreated", RoomCreatedHandler(call))
      ensures Valid()
    {
      OnRoomCreatedKeepsInv(State(), call, room);
      UnregisterRoomCreated(call);
      outcome := Join(room);
    }

    /** `signaler.removeListener('roomCreated', onRoomCreated)`. */
    method UnregisterRoomCreated(call: nat)
      requires Valid()
      modifies this
      ensures State() == old(State()).(listeners := RemoveListener(old(socketListeners), "roomCreated", RoomCreatedHandler(call)))
      ensures !Registered(State(), "roomCreated", RoomCreatedHandler(call))
      ensures Valid()
    {
      var c := State();
      socketListeners := RemoveListener(socketListeners, "roomCreated", RoomCreatedHandler(call));
      RemoveRoomListenerKeepsInv(c, State(), call);
    }

    /** The `client-join` listener: only an unseen id gets a connection and an offer. */
    method OnClientJoin(id: PeerId, offer: Option<Sdp>)
      requires Valid()
      modifies this
      ensures State() == Negotiation.OnClientJoin(old(State()), id, offer)
      ensures Valid()
    {
      if id !in peers {
        AddPeer(id);
        SendOffer(id, offer);
      }
    }

    /**
     * The `offer` listener: reuse or make the entry; once the remote description is
     * applied, install candidate forwarding and answer if the answer could be made.
     */
    method OnOffer(from: PeerId, sdp: Sdp, applied: bool, answer: Option<Sdp>)
      requires Valid()
      modifies this
      ensures State() == Negotiation.OnOffer(old(State()), from, sdp, applied, answer)
      ensures Valid()
    {
      OnOfferKeepsInv(State(), from, sdp, applied, answer);
      if from !in peers {
        AddPeer(from);
      }
      if applied {
        AcceptOffer(from, sdp);
        SendAnswer(from, answer);
      }
    }

    /** The `answer` listener: an unknown sender is ignored. */
    method OnAnswer(from: PeerId, sdp: Sdp, applied: bool)
      requires Valid()
      modifies this
      ensures State() == Negotiation.OnAnswer(old(State()), from, sdp, applied)
      ensures Valid()
    {
      OnAnswerKeepsInv(State(), from, sdp, applied);
      if from !in peers {
        return;
      }
      if applied {
        peers := peers[from := peers[from].(remote := Some(sdp))];
      }
    }

    /** The `icecandidate` listener: an unknown sender is ignored. */
    method OnIceCandidate(from: PeerId, candidate: Candidate, added: bool)
      requires Valid()
      modifies this
      ensures State() == Negotiation.OnIceCandidate(old(State()), from, candidate, added)
      ensures Valid()
    {
      OnIceCandidateKeepsInv(State(), from, candidate, added);
      if from !in peers {
        return;
      }
      if added {
        peers := peers[from := peers[from].(candidates := peers[from].candidates + [candidate])];
      }
    }

    /** `onnegotiationneeded` of the connection recorded under `id`. */
    method OnNegotiationNeeded(id: PeerId, offer: Option<Sdp>)
      requires Valid() && id in peers
      modifies this
      ensures State() == Negotiation.OnNegotiationNeeded(old(State()), id, offer)
      ensures Valid()
    {
      SendOffer(id, offer);
    }

    /** `onicecandidate` of the connection recorded under `id`, once installed. */
    method OnLocalIceCandidate(id: PeerId, candidate: Option<Candidate>)
      requires Valid() && id in peers
      modifies this
      ensures State() == Negotiation.OnLocalIceCandidate(old(State()), id, candidate)
      ensures Valid()
    {
      OnLocalIceCandidateKeepsInv(State(), id, candidate);
      if peers[id].forwardIce && candidate.Some? {
        sent := sent + [EmitTo(signaler, id, "icecandidate", IceCandidate(candidate.value))];
      }
    }
  }
}
