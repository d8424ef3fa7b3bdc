/**
 * Runs of a WebRTCConnection: any interleaving of calls, inbound signaling events and
 * events raised by the peer connections, each with the outcome of its asynchronous step.
 * An event that no listener is registered for, or that names a connection that does not
 * exist, reaches no code of the coordinator and changes nothing.
 */
module Traces {

  import opened Wrappers
  import opened Listeners
  import opened Signaling
  import opened Negotiation

  datatype Event =
    | CallJoin(room: string)
    | CallCreateRoom
    | RoomCreatedArrives(call: nat, room: string)
    | ClientJoinArrives(id: PeerId, offer: Option<Sdp>)
    | OfferArrives(from: PeerId, sdp: Sdp, applied: bool, answer: Option<Sdp>)
    | AnswerArrives(from: PeerId, sdp: Sdp, applied: bool)
    | CandidateArrives(from: PeerId, candidate: Candidate, added: bool)
    | NegotiationNeeded(id: PeerId, offer: Option<Sdp>)
    | LocalCandidate(id: PeerId, found: Option<Candidate>)

  /** The one registry entry an event may touch, if any. */
  function Subject(e: Event): Option<PeerId>
  {
    match e
    case ClientJoinArrives(id, _) => Some(id)
    case OfferArrives(from, _, _, _) => Some(from)
    case AnswerArrives(from, _, _) => Some(from)
    case CandidateArrives(from, _, _) => Some(from)
    case NegotiationNeeded(id, _) => Some(id)
    case LocalCandidate(id, _) => Some(id)
    case _ => None
  }

  /** `join`, `createRoom` and the server's `roomCreated` are about the room, not about one peer. */
  predicate IsRoomEvent(e: Event)
  {
    e.CallJoin? || e.CallCreateRoom? || e.RoomCreatedArrives?
  }

  /**
   * One event, handled by the listener registered for it, if any. Room-level events never
   * touch the registry; events about one peer never touch the registrations or the flag.
   */
  function Step(c: Conn, e: Event): (r: Conn)
    ensures r.signaler == c.signaler && r.stream == c.stream
    ensures Subject(e).None? ==> r.peers == c.peers && r.current == c.current
    ensures Subject(e).Some? ==> r.listeners == c.listeners && r.bound == c.bound && r.roomRequests == c.roomRequests
  {
    if IsRoomEvent(e) then RoomStep(c, e) else PeerStep(c, e)
  }

  /** A room-level event: the call itself, or the `roomCreated` listener of that call if registered. */
  function RoomStep(c: Conn, e: Event): (r: Conn)
    requires IsRoomEvent(e)
    ensures r.signaler == c.signaler && r.stream == c.stream && r.peers == c.peers && r.current == c.current
  {
    match e
    case CallJoin(room) => JoinRoom(c, room).0
    case CallCreateRoom => CreateRoom(c)
    case RoomCreatedArrives(call, room) =>
      if Registered(c, "roomCreated", RoomCreatedHandler(call)) then OnRoomCreated(c, call, room).0 else c
  }

  /** An event about one peer, handled only if its listener is registered or its connection exists. */
  function PeerStep(c: Conn, e: Event): (r: Conn)
    requires !IsRoomEvent(e)
    ensures r.signaler == c.signaler && r.stream == c.stream
    ensures r.listeners == c.listeners && r.bound == c.bound && r.roomRequests == c.roomRequests
  {
    match e
    case ClientJoinArrives(id, offer) =>
      if Registered(c, "client-join", ClientJoinHandler) then OnClientJoin(c, id, offer) else c
    case OfferArrives(from, sdp, applied, answer) =>
      if Registered(c, "offer", OfferHandler) then OnOffer(c, from, sdp, applied, answer) else c
    case AnswerArrives(from, sdp, applied) =>
      if Registered(c, "answer", AnswerHandler) then OnAnswer(c, from, sdp, applied) else c
    case CandidateArrives(from, candidate, added) =>
      if Registered(c, "icecandidate", IceCandidateHandler) then OnIceCandidate(c, from, candidate, added) else c
    case NegotiationNeeded(id, offer) =>
      if id in c.peers then OnNegotiationNeeded(c, id, offer) else c
    case LocalCandidate(id, candidate) =>
      if id in c.peers then OnLocalIceCandidate(c, id, candidate) else c
  }

  /** Every event keeps the invariant. */
  lemma StepKeepsInv(c: Conn, e: Event)
    requires Inv(c)
    ensures Inv(Step(c, e))
  {
    if IsRoomEvent(e) {
      RoomStepKeepsInv(c, e);
    } else {
      PeerStepKeepsInv(c, e);
    }
  }

  /** The room-level events: `join`, `createRoom` and the server's `roomCreated`. */
  lemma RoomStepKeepsInv(c: Conn, e: Event)
    requires Inv(c) && IsRoomEvent(e)
    ensures Inv(Step(c, e))
  {
    match e
    case CallJoin(room) => JoinRoomKeepsInv(c, room);
    case CallCreateRoom => CreateRoomKeepsInv(c);
    case RoomCreatedArrives(call, room) =>
      if Registered(c, "roomCreated", RoomCreatedHandler(call)) { OnRoomCreatedKeepsInv(c, call, room); }
  }

  /** The events about one peer, from the server or from that peer's connection. */
  lemma PeerStepKeepsInv(c: Conn, e: Event)
    requires Inv(c) && !IsRoomEvent(e)
    ensures Inv(Step(c, e))
  {
    match e
    case ClientJoinArrives(id, offer) => OnClientJoinKeepsInv(c, id, offer);
    case OfferArrives(from, sdp, applied, answer) => OnOfferKeepsInv(c, from, sdp, applied, answer);
    case AnswerArrives(from, sdp, applied) => OnAnswerKeepsInv(c, from, sdp, applied);
    case CandidateArrives(from, candidate, added) => OnIceCandidateKeepsInv(c, from, candidate, added);
    case NegotiationNeeded(id, offer) => if id in c.peers { SendOfferKeepsInv(c, id, offer); }
    case LocalCandidate(id, candidate) => if id in c.peers { OnLocalIceCandidateKeepsInv(c, id, candidate); }
  }

  /**
   * Every event only lets the state grow and leaves every registry entry other than its
   * own subject's exactly as it was: what happens on one peer never touches another.
   */
  lemma StepGrows(c: Conn, e: Event)
    ensures Grows(c, Step(c, e))
    ensures forall k :: k in c.peers && Some(k) != Subject(e) ==> Step(c, e).peers[k] == c.peers[k]
  {
    match e
    case CallJoin(room) =>
    case CallCreateRoom =>
    case RoomCreatedArrives(call, room) =>
    case ClientJoinArrives(id, offer) =>
    case OfferArrives(from, sdp, applied, answer) =>
    case AnswerArrives(from, sdp, applied) =>
    case CandidateArrives(from, candidate, added) =>
    case NegotiationNeeded(id, offer) =>
    case LocalCandidate(id, candidate) =>
  }

  function Run(c: Conn, evs: seq<Event>): Conn
    decreases |evs|
  {
    if evs == [] then c else Run(Step(c, evs[0]), evs[1..])
  }

  /** The invariant holds after any run from a state where it holds. */
  lemma {:induction false} RunKeepsInv(c: Conn, evs: seq<Event>)
    requires Inv(c)
    ensures Inv(Run(c, evs))
    decreases |evs|
  {
    if evs != [] {
      StepKeepsInv(c, evs[0]);
      RunKeepsInv(Step(c, evs[0]), evs[1..]);
    }
  }

  /** Over any run, no entry is dropped, no forwarding is withdrawn and no sent message is taken back. */
  lemma {:induction false} RunGrows(c: Conn, evs: seq<Event>)
    ensures Grows(c, Run(c, evs))
    decreases |evs|
  {
    if evs != [] {
      StepGrows(c, evs[0]);
      RunGrows(Step(c, evs[0]), evs[1..]);
    }
  }

  /**
   * From a fresh connection, whatever happens: every message carries the socket's id,
   * only `join` and `create` go undirected, every answer and candidate goes to a peer
   * whose offer was applied, every listener is registered only once (so a socket event
   * runs each handler at most once; `_joinRoom`'s listeners included).
   */
  lemma {:induction false} Reachable(s: Signaler, stream: MediaStream, evs: seq<Event>)
    ensures var c := Run(Init(s, stream), evs);
      && (forall m :: m in c.outbox ==> m.envelope.senderId == GetId(s))
      && (forall m :: m in c.outbox ==> (m.envelope.receiverId.None? <==> IsBroadcast(m.event)))
      && (forall m :: m in c.outbox && m.event in {"answer", "icecandidate"} ==>
            m.envelope.receiverId.Some? && m.envelope.receiverId.value in c.peers &&
            c.peers[m.envelope.receiverId.value].remote.Some?)
      && Distinct(c.listeners)
  {
    var c := Run(Init(s, stream), evs);
    InitSatisfiesInv(s, stream);
    RunKeepsInv(Init(s, stream), evs);
    assert Run(Init(s, stream), evs).signaler == s by { RunGrows(Init(s, stream), evs); }
    forall m | m in c.outbox ensures MessageOk(c.signaler, c.peers, m) { }
  }

  /** `client-join` from each id in turn, with the outcome of each offer chain. */
  function ClientJoins(c: Conn, ids: seq<PeerId>, offers: seq<Option<Sdp>>): Conn
    requires |ids| == |offers|
    decreases |ids|
  {
    if ids == [] then c else ClientJoins(OnClientJoin(c, ids[0], offers[0]), ids[1..], offers[1..])
  }

  /** The offers those events should send, in the same order: one per offer that could be made. */
  function Offers(s: Signaler, ids: seq<PeerId>, offers: seq<Option<Sdp>>): seq<Message<Payload>>
    requires |ids| == |offers|
  {
    if ids == [] then [] else OfferMessages(s, ids[0], offers[0]) + Offers(s, ids[1..], offers[1..])
  }

  /** No id repeats in `ids`. */
  predicate NoRepeats(ids: seq<PeerId>)
  {
    forall i, j :: 0 <= i < j < |ids| ==> ids[i] != ids[j]
  }

  /** After the first id is entered, the remaining ids are still distinct and unseen. */
  lemma {:induction false} RestFresh(keys: set<PeerId>, ids: seq<PeerId>)
    requires ids != [] && NoRepeats(ids)
    requires forall id :: id in ids ==> id !in keys
    ensures NoRepeats(ids[1..])
    ensures forall id :: id in ids[1..] ==> id !in keys + {ids[0]}
  {
    forall id | id in ids[1..] ensures id !in keys + {ids[0]} {
      var j :| 0 <= j < |ids[1..]| && ids[1..][j] == id;
      assert ids[j + 1] == id;
    }
    forall i, j | 0 <= i < j < |ids[1..]| ensures ids[1..][i] != ids[1..][j] {
      assert ids[i + 1] != ids[j + 1];
    }
  }

  /**
   * `client-join` for distinct unseen ids: exactly one offer per id whose offer could be
   * made, addressed to it, in arrival order, and none for the others; no listener changes.
   */
  lemma {:induction false} ClientJoinsSendOffers(c: Conn, ids: seq<PeerId>, offers: seq<Option<Sdp>>)
    requires |ids| == |offers|
    requires NoRepeats(ids)
    requires forall id :: id in ids ==> id !in c.peers
    ensures ClientJoins(c, ids, offers).outbox == c.outbox + Offers(c.signaler, ids, offers)
    ensures ClientJoins(c, ids, offers).listeners == c.listeners
    decreases |ids|
  {
    if ids != [] {
      var c1 := OnClientJoin(c, ids[0], offers[0]);
      var m := OfferMessages(c.signaler, ids[0], offers[0]);
      assert c1.outbox == c.outbox + m && c1.signaler == c.signaler;
      RestFresh(c.peers.Keys, ids);
      ClientJoinsSendOffers(c1, ids[1..], offers[1..]);
      AppendAssoc(c.outbox, m, Offers(c.signaler, ids[1..], offers[1..]));
    }
  }

  lemma AppendAssoc<T>(a: seq<T>, b: seq<T>, d: seq<T>)
    ensures (a + b) + d == a + (b + d)
  {
  }

  /**
   * The same run makes an entry for exactly the given ids and leaves every earlier entry
   * as it was.
   */
  lemma {:induction false} ClientJoinsMakeEntries(c: Conn, ids: seq<PeerId>, offers: seq<Option<Sdp>>)
    requires |ids| == |offers|
    requires NoRepeats(ids)
    requires forall id :: id in ids ==> id !in c.peers
    ensures var r := ClientJoins(c, ids, offers);
      && (forall id :: id in r.peers <==> id in c.peers || id in ids)
      && (forall k :: k in c.peers ==> r.peers[k] == c.peers[k])
    decreases |ids|
  {
    if ids != [] {
      var c1 := OnClientJoin(c, ids[0], offers[0]);
      RestFresh(c.peers.Keys, ids);
      ClientJoinsMakeEntries(c1, ids[1..], offers[1..]);
      var r := ClientJoins(c, ids, offers);
      forall id | id in r.peers ensures id in c.peers || id in ids {
        if id !in c1.peers { assert id in ids[1..]; }
      }
    }
  }

  /**
   * Each new entry exists whatever its offer's outcome; it holds the offer made for its id as
   * local description (none if the offer failed), with candidate forwarding off.
   */
  lemma {:induction false} ClientJoinsNewEntries(c: Conn, ids: seq<PeerId>, offers: seq<Option<Sdp>>)
    requires |ids| == |offers|
    requires NoRepeats(ids)
    requires forall id :: id in ids ==> id !in c.peers
    ensures var r := ClientJoins(c, ids, offers);
      forall i :: 0 <= i < |ids| ==> ids[i] in r.peers && r.peers[ids[i]] == NewPeer(c.stream).(local := offers[i])
    decreases |ids|
  {
    if ids != [] {
      var c1 := OnClientJoin(c, ids[0], offers[0]);
      RestFresh(c.peers.Keys, ids);
      ClientJoinsMakeEntries(c1, ids[1..], offers[1..]);
      ClientJoinsNewEntries(c1, ids[1..], offers[1..]);
      var r := ClientJoins(c, ids, offers);
      forall i | 1 <= i < |ids| ensures ids[i] in r.peers && r.peers[ids[i]] == NewPeer(c.stream).(local := offers[i]) {
        assert ids[1..][i - 1] == ids[i] && offers[1..][i - 1] == offers[i];
      }
    }
  }

  /** While `client-join` is registered, the events of that run are handled exactly as above. */
  lemma {:induction false} ClientJoinEvents(c: Conn, ids: seq<PeerId>, offers: seq<Option<Sdp>>)
    requires |ids| == |offers|
    requires Registered(c, "client-join", ClientJoinHandler)
    ensures Run(c, ClientJoinArrivals(ids, offers)) == ClientJoins(c, ids, offers)
    decreases |ids|
  {
    if ids != [] {
      var e := ClientJoinArrives(ids[0], offers[0]);
      assert Step(c, e) == OnClientJoin(c, ids[0], offers[0]);
      ClientJoinEvents(Step(c, e), ids[1..], offers[1..]);
    }
  }

  /** The `client-join` events of that run, one per id. */
  function ClientJoinArrivals(ids: seq<PeerId>, offers: seq<Option<Sdp>>): seq<Event>
    requires |ids| == |offers|
  {
    if ids == [] then [] else [ClientJoinArrives(ids[0], offers[0])] + ClientJoinArrivals(ids[1..], offers[1..])
  }

  /**
   * A second `join` throws "Connection has already started" and leaves everything as the
   * first one left it, so each of `_joinRoom`'s listeners is registered exactly once.
   */
  lemma JoinTwice(c: Conn, room1: string, room2: string)
    requires Inv(c) && !c.bound
    ensures var (c1, o1) := JoinRoom(c, room1);
      var (c2, o2) := JoinRoom(c1, room2);
      && o1 == Joined && o2 == Thrown(AlreadyStarted) && c2 == c1
      && forall l :: l in JoinListeners() ==> multiset(c2.listeners)[l] == 1
  {
    JoinRoomKeepsInv(c, room1);
    var c1 := JoinRoom(c, room1).0;
    assert Inv(c1);
  }

  /** Both sides have set a local and applied a remote description, each the other's. */
  predicate Negotiated(p: Peer, q: Peer)
  {
    p.local.Some? && p.remote.Some? && p.local == q.remote && p.remote == q.local
  }

  /** A creates a room: a fresh `roomCreated` listener follows the three lifecycle ones. */
  lemma CreatorAsks(a: Signaler, stream: MediaStream)
    ensures var a1 := CreateRoom(Init(a, stream));
      && a1.listeners == Init(a, stream).listeners + [Listener("roomCreated", RoomCreatedHandler(0))]
      && |Init(a, stream).listeners| == 3
      && Listener("roomCreated", RoomCreatedHandler(0)) !in Init(a, stream).listeners
      && a1.outbox == [Emit(a, "create", NoData)] && !a1.bound && a1.peers == map[]
  {
  }

  /**
   * Before `join`, `roomCreated` takes out exactly the first registration of its listener,
   * then appends `_joinRoom`'s four and broadcasts `join`.
   */
  lemma RoomCreatedUnbound(c: Conn, call: nat, room: string, i: nat)
    requires !c.bound && i < |c.listeners|
    requires c.listeners[i] == Listener("roomCreated", RoomCreatedHandler(call))
    requires Listener("roomCreated", RoomCreatedHandler(call)) !in c.listeners[..i]
    ensures var r := OnRoomCreated(c, call, room).0;
      && r.listeners == c.listeners[..i] + c.listeners[i + 1..] + JoinListeners()
      && r.outbox == c.outbox + [Emit(c.signaler, "join", Room(room))]
      && r.peers == c.peers
  {
    UnsubscribeRemovesFirst(c.listeners, "roomCreated", RoomCreatedHandler(call), i);
  }

  /** The server's `roomCreated` makes A drop that listener and join the room. */
  lemma {:induction false} CreatorJoins(a: Signaler, stream: MediaStream, room: string)
    ensures var a1 := CreateRoom(Init(a, stream));
      var a2 := OnRoomCreated(a1, 0, room).0;
      && Registered(a1, "roomCreated", RoomCreatedHandler(0))
      && a2.peers == map[] && a2.signaler == a && a2.stream == stream
      && a2.outbox == [Emit(a, "create", NoData), Emit(a, "join", Room(room))]
      && a2.listeners == Init(a, stream).listeners + JoinListeners()
  {
    var a1 := CreateRoom(Init(a, stream));
    CreatorAsks(a, stream);
    assert a1.listeners[3] == Listener("roomCreated", RoomCreatedHandler(0));
    RoomCreatedUnbound(a1, 0, room, 3);
    assert a1.listeners[..3] + a1.listeners[4..] == Init(a, stream).listeners;
  }

  /** B joins the room by name. */
  lemma {:induction false} JoinerJoins(b: Signaler, stream: MediaStream, room: string)
    ensures var b1 := JoinRoom(Init(b, stream), room).0;
      && b1.peers == map[] && b1.signaler == b && b1.stream == stream
      && b1.outbox == [Emit(b, "join", Room(room))]
      && Registered(b1, "offer", OfferHandler)
  {
    var b1 := JoinRoom(Init(b, stream), room).0;
    assert b1.listeners[4] == Listener("offer", OfferHandler);
  }

  /**
   * A learns that B joined and offers, B answers, A applies the answer: each side then holds
   * one entry for the other, the two descriptions are crossed, only B forwards candidates,
   * and each side has sent exactly its share of the exchange.
   */
  lemma {:induction false} OfferAnswer(a2: Conn, b1: Conn, offer: Sdp, answer: Sdp)
    requires a2.peers == map[] && b1.peers == map[]
    ensures var a3 := OnClientJoin(a2, GetId(b1.signaler), Some(offer));
      var b2 := OnOffer(b1, GetId(a2.signaler), offer, true, Some(answer));
      var a4 := OnAnswer(a3, GetId(b1.signaler), answer, true);
      && a3.listeners == a2.listeners
      && a4.outbox == a2.outbox + [EmitTo(a2.signaler, GetId(b1.signaler), "offer", Description(offer))]
      && b2.outbox == b1.outbox + [EmitTo(b1.signaler, GetId(a2.signaler), "answer", Description(answer))]
      && a4.peers.Keys == {GetId(b1.signaler)} && b2.peers.Keys == {GetId(a2.signaler)}
      && Negotiated(a4.peers[GetId(b1.signaler)], b2.peers[GetId(a2.signaler)])
      && b2.peers[GetId(a2.signaler)].forwardIce && !a4.peers[GetId(b1.signaler)].forwardIce
  {
  }

  /** A run of four events is those four steps, one after another. */
  lemma RunFour(c: Conn, e1: Event, e2: Event, e3: Event, e4: Event)
    ensures Run(c, [e1, e2, e3, e4]) == Step(Step(Step(Step(c, e1), e2), e3), e4)
  {
    assert [e1, e2, e3, e4][1..] == [e2, e3, e4] && [e2, e3, e4][1..] == [e3, e4] && [e3, e4][1..] == [e4];
    var c1 := Step(c, e1);
    var c2 := Step(c1, e2);
    var c3 := Step(c2, e3);
    assert Run(c3, [e4]) == Run(Step(c3, e4), []);
    assert Run(c2, [e3, e4]) == Run(c3, [e4]);
    assert Run(c1, [e2, e3, e4]) == Run(c2, [e3, e4]);
  }

  /** A run of two events is those two steps, one after another. */
  lemma RunTwo(c: Conn, e1: Event, e2: Event)
    ensures Run(c, [e1, e2]) == Step(Step(c, e1), e2)
  {
    assert [e1, e2][1..] == [e2];
    assert Run(Step(c, e1), [e2]) == Run(Step(Step(c, e1), e2), []);
  }

  /** Once bound, `client-join` and then `answer` reach the listeners registered for them. */
  lemma ClientJoinThenAnswer(c: Conn, bid: PeerId, offer: Sdp, answer: Sdp)
    requires Registered(c, "client-join", ClientJoinHandler) && Registered(c, "answer", AnswerHandler)
    ensures Step(Step(c, ClientJoinArrives(bid, Some(offer))), AnswerArrives(bid, answer, true))
         == OnAnswer(OnClientJoin(c, bid, Some(offer)), bid, answer, true)
  {
  }

  /** A's side of the exchange: each event reaches the listener registered for it. */
  lemma {:induction false} CreatorRun(a: Signaler, sa: MediaStream, room: string, bid: PeerId, offer: Sdp, answer: Sdp)
    ensures var a2 := OnRoomCreated(CreateRoom(Init(a, sa)), 0, room).0;
      && Run(Init(a, sa), [CallCreateRoom, RoomCreatedArrives(0, room), ClientJoinArrives(bid, Some(offer)),
                          AnswerArrives(bid, answer, true)])
         == OnAnswer(OnClientJoin(a2, bid, Some(offer)), bid, answer, true)
      && a2.peers == map[] && a2.signaler == a
      && a2.outbox == [Emit(a, "create", NoData), Emit(a, "join", Room(room))]
  {
    var a1 := CreateRoom(Init(a, sa));
    var a2 := OnRoomCreated(a1, 0, room).0;
    CreatorJoins(a, sa, room);
    assert Step(Step(Init(a, sa), CallCreateRoom), RoomCreatedArrives(0, room)) == a2;
    assert a2.listeners[3] == Listener("client-join", ClientJoinHandler);
    assert a2.listeners[5] == Listener("answer", AnswerHandler);
    ClientJoinThenAnswer(a2, bid, offer, answer);
    RunFour(Init(a, sa), CallCreateRoom, RoomCreatedArrives(0, room), ClientJoinArrives(bid, Some(offer)),
            AnswerArrives(bid, answer, true));
  }

  /** B's side of the exchange: `join`, then the offer reaches its `offer` listener. */
  lemma {:induction false} JoinerRun(b: Signaler, sb: MediaStream, room: string, aid: PeerId, offer: Sdp, answer: Sdp)
    ensures var b1 := JoinRoom(Init(b, sb), room).0;
      && Run(Init(b, sb), [CallJoin(room), OfferArrives(aid, offer, true, Some(answer))])
         == OnOffer(b1, aid, offer, true, Some(answer))
      && b1.peers == map[] && b1.signaler == b && b1.outbox == [Emit(b, "join", Room(room))]
  {
    JoinerJoins(b, sb, room);
    RunTwo(Init(b, sb), CallJoin(room), OfferArrives(aid, offer, true, Some(answer)));
  }

  /** The exchange between a bound A and a bound B, neither yet with a peer. */
  lemma {:induction false} Exchange(a2: Conn, b1: Conn, a: Signaler, b: Signaler, room: string, offer: Sdp, answer: Sdp)
    requires a2.peers == map[] && a2.signaler == a && a2.outbox == [Emit(a, "create", NoData), Emit(a, "join", Room(room))]
    requires b1.peers == map[] && b1.signaler == b && b1.outbox == [Emit(b, "join", Room(room))]
    ensures var A := OnAnswer(OnClientJoin(a2, GetId(b), Some(offer)), GetId(b), answer, true);
      var B := OnOffer(b1, GetId(a), offer, true, Some(answer));
      && A.outbox == [Emit(a, "create", NoData), Emit(a, "join", Room(room)),
                      EmitTo(a, GetId(b), "offer", Description(offer))]
      && B.outbox == [Emit(b, "join", Room(room)), EmitTo(b, GetId(a), "answer", Description(answer))]
      && A.peers.Keys == {GetId(b)} && B.peers.Keys == {GetId(a)}
      && Negotiated(A.peers[GetId(b)], B.peers[GetId(a)])
      && B.peers[GetId(a)].forwardIce && !A.peers[GetId(b)].forwardIce
  {
    OfferAnswer(a2, b1, offer, answer);
  }

  /**
   * The whole exchange as runs from fresh connections: A creates a room, the server answers
   * with `roomCreated`, B's `client-join` reaches A and A offers; B joins and answers the
   * offer; A applies the answer. Each side then holds one entry for the other, the two
   * descriptions are crossed, only B forwards candidates, and each side sent exactly its
   * share of the exchange, in order.
   */
  lemma {:induction false} RoundTrip(a: Signaler, b: Signaler, sa: MediaStream, sb: MediaStream,
                                     room: string, offer: Sdp, answer: Sdp)
    ensures var A := Run(Init(a, sa), [CallCreateRoom, RoomCreatedArrives(0, room),
                                       ClientJoinArrives(GetId(b), Some(offer)), AnswerArrives(GetId(b), answer, true)]);
      var B := Run(Init(b, sb), [CallJoin(room), OfferArrives(GetId(a), offer, true, Some(answer))]);
      && A.outbox == [Emit(a, "create", NoData), Emit(a, "join", Room(room)),
                      EmitTo(a, GetId(b), "offer", Description(offer))]
      && B.outbox == [Emit(b, "join", Room(room)), EmitTo(b, GetId(a), "answer", Description(answer))]
      && A.peers.Keys == {GetId(b)} && B.peers.Keys == {GetId(a)}
      && Negotiated(A.peers[GetId(b)], B.peers[GetId(a)])
      && B.peers[GetId(a)].forwardIce && !A.peers[GetId(b)].forwardIce
  {
    CreatorRun(a, sa, room, GetId(b), offer, answer);
    JoinerRun(b, sb, room, GetId(a), offer, answer);
    Exchange(OnRoomCreated(CreateRoom(Init(a, sa)), 0, room).0, JoinRoom(Init(b, sb), room).0, a, b, room, offer, answer);
  }
}
