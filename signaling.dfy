/**
 * The Signaler: a thin wrapper around a socket.io client socket. Every outgoing payload
 * is wrapped in an envelope that names the sender (the socket's id) and, for a directed
 * send, the receiver; listener registration is handed to the socket unchanged.
 */
module Signaling {

  import opened Wrappers
  import opened Listeners

  /** A socket identifier: the local participant's, or a remote one's. */
  type PeerId = string

  /** `{senderId, data}` from `emit`, `{senderId, receiverId, data}` from `emitTo`. */
  datatype Envelope<D> = Envelope(senderId: PeerId, receiverId: Option<PeerId>, data: D)

  /** What is handed to the socket: the event name and the envelope. */
  datatype Message<D> = Message(event: string, envelope: Envelope<D>)

  /** A signaler over a connected socket whose id is `socketId`. */
  datatype Signaler = Signaler(socketId: PeerId)

  /** `getId()`: the socket's id, the same at every call. */
  function GetId(s: Signaler): (id: PeerId)
    ensures id == s.socketId
  {
    s.socketId
  }

  /** `emit(event, data)`: an undirected message stamped with the local id. */
  function Emit<D>(s: Signaler, event: string, data: D): (m: Message<D>)
    ensures m.event == event
    ensures m.envelope.senderId == GetId(s) && m.envelope.receiverId == None
    ensures m.envelope.data == data
  {
    Message(event, Envelope(s.socketId, None, data))
  }

  /** `emitTo(receiverId, event, data)`: a message addressed to `receiverId`, stamped with the local id. */
  function EmitTo<D>(s: Signaler, receiverId: PeerId, event: string, data: D): (m: Message<D>)
    ensures m.event == event
    ensures m.envelope.senderId == GetId(s) && m.envelope.receiverId == Some(receiverId)
    ensures m.envelope.data == data
  {
    Message(event, Envelope(s.socketId, Some(receiverId), data))
  }

  /** `on(event, fn)` on the socket's listener list: one registration of exactly that pair is added, nothing else changes. */
  function On<H>(socket: seq<Listener<H>>, event: string, fn: H): (r: seq<Listener<H>>)
    ensures |r| == |socket| + 1 && r[..|socket|] == socket && r[|socket|] == Listener(event, fn)
  {
    Subscribe(socket, event, fn)
  }

  /** `removeListener(event, fn)` on the socket's listener list: one registration of exactly that pair is removed, if any. */
  function RemoveListener<H(==)>(socket: seq<Listener<H>>, event: string, fn: H): (r: seq<Listener<H>>)
    ensures multiset(r) == multiset(socket) - multiset{Listener(event, fn)}
    ensures Listener(event, fn) !in socket ==> r == socket
  {
    Unsubscribe(socket, event, fn)
  }
}
