/** The Socket.IO relay of `backend/server.js`: the `connectedUsers`
    registry, room membership, and the events each inbound event causes.
    Every handler is a transition of one `Relay` state; the socket the event
    arrived on is a parameter, and so are the id Mongo assigns, the clock
    reading and whether `save()` succeeds. */
module Relay {
  import opened Common
  import opened UserModel
  import opened MessageModel

  type SocketId = string

  /** One entry of the `connectedUsers` Map. A JavaScript `Map` iterates in
      insertion order, and overwriting a key keeps its place. */
  datatype Entry = Entry(userId: Id, socketId: SocketId)

  /** A socket's membership of a room, as `socket.join` records it. */
  datatype Membership = Membership(room: string, socketId: SocketId)

  /** The payloads the relay emits. */
  datatype Event =
    | UserJoined(userId: Id)
    | ReceiveMessage(messageId: Id, senderId: Id, message: string, timestamp: int,
                     messageType: string, imageUrl: Option<string>)
    | UserTyping(userId: Id, isTyping: bool)
    | MessageRead(userId: Id)

  /** `socket.to(room).emit(...)`: the event goes to every socket in the
      room except the one it came from. */
  datatype Delivery = Delivery(recipients: set<SocketId>, event: Event)

  /** The `send_message` payload. An absent field is `None`. */
  datatype SendData = SendData(senderId: Id, message: string, room: string,
                               messageType: Option<string>, imageUrl: Option<string>)

  datatype Inbound =
    | RegisterUser(userId: Id)
    | JoinRoom(room: string, joiner: Id)
    | Send(data: SendData)
    | Typing(room: string, typist: Id, isTyping: bool)
    | MessagesRead(room: string, reader: Id)
    | Disconnected

  datatype Relay = Relay(
    registry: seq<Entry>,
    rooms: set<Membership>,
    messages: seq<Message>,
    outbox: seq<Delivery>)

  /** A `Map` never holds a key twice. */
  predicate UniqueKeys(registry: seq<Entry>)
  {
    forall i, j :: 0 <= i < j < |registry| ==> registry[i].userId != registry[j].userId
  }

  function Keys(registry: seq<Entry>): (r: seq<Id>)
    ensures |r| == |registry|
    ensures forall i :: 0 <= i < |r| ==> r[i] == registry[i].userId
  {
    if |registry| == 0 then [] else [registry[0].userId] + Keys(registry[1..])
  }

  /** Some entry maps `u` to `s`. */
  predicate Holds(registry: seq<Entry>, u: Id, s: SocketId)
  {
    exists i :: 0 <= i < |registry| && registry[i] == Entry(u, s)
  }

  /** `connectedUsers.get(userId)`. */
  function Lookup(registry: seq<Entry>, userId: Id): (r: Option<SocketId>)
    ensures r.None? <==> forall i :: 0 <= i < |registry| ==> registry[i].userId != userId
    ensures r.None? ==> forall s :: !Holds(registry, userId, s)
    ensures r.Some? ==> Holds(registry, userId, r.value)
  {
    match FirstIndex(registry, (e: Entry) => e.userId == userId)
    case None => None
    case Some(i) => Some(registry[i].socketId)
  }

  /** With distinct keys, `get` returns the socket of the one entry holding
      the key. */
  lemma LookupHolds(registry: seq<Entry>, u: Id, s: SocketId)
    requires UniqueKeys(registry)
    requires Holds(registry, u, s)
    ensures Lookup(registry, u) == Some(s)
  {
    var i :| 0 <= i < |registry| && registry[i] == Entry(u, s);
    var j := FirstIndex(registry, (e: Entry) => e.userId == u).value;
    assert j == i;
  }

  /** Two registries with distinct keys that hold the same entries for `u`
      answer the same for `u`. */
  lemma LookupSame(a: seq<Entry>, b: seq<Entry>, u: Id)
    requires UniqueKeys(a) && UniqueKeys(b)
    requires forall s :: Holds(a, u, s) <==> Holds(b, u, s)
    ensures Lookup(a, u) == Lookup(b, u)
  {
    if Lookup(a, u).Some? {
      LookupHolds(b, u, Lookup(a, u).value);
    }
  }

  /** Overwriting the entry at `i` in place changes no other key's socket. */
  lemma UpdateKeepsOthers(registry: seq<Entry>, i: nat, e: Entry, u: Id)
    requires UniqueKeys(registry)
    requires i < |registry| && registry[i].userId == e.userId && u != e.userId
    ensures UniqueKeys(registry[i := e])
    ensures Lookup(registry[i := e], u) == Lookup(registry, u)
  {
    var r := registry[i := e];
    forall s | Holds(r, u, s)
      ensures Holds(registry, u, s)
    {
      var k :| 0 <= k < |r| && r[k] == Entry(u, s);
      assert registry[k] == r[k];
    }
    forall s | Holds(registry, u, s)
      ensures Holds(r, u, s)
    {
      var k :| 0 <= k < |registry| && registry[k] == Entry(u, s);
      assert registry[k] == r[k];
    }
    LookupSame(registry, r, u);
  }

  /** Appending an entry for a new key changes no other key's socket. */
  lemma AppendKeepsOthers(registry: seq<Entry>, e: Entry, u: Id)
    requires UniqueKeys(registry)
    requires Lookup(registry, e.userId).None? && u != e.userId
    ensures UniqueKeys(registry + [e])
    ensures Lookup(registry + [e], u) == Lookup(registry, u)
  {
    var r := registry + [e];
    forall s | Holds(r, u, s)
      ensures Holds(registry, u, s)
    {
      var k :| 0 <= k < |r| && r[k] == Entry(u, s);
      assert registry[k] == r[k];
    }
    forall s | Holds(registry, u, s)
      ensures Holds(r, u, s)
    {
      var k :| 0 <= k < |registry| && registry[k] == Entry(u, s);
      assert registry[k] == r[k];
    }
    LookupSame(registry, r, u);
  }

  /** `connectedUsers.set(userId, socketId)`: the key now maps to the socket,
      every other key keeps its socket, and the keys keep their order, a new
      key going last. */
  function SetEntry(registry: seq<Entry>, userId: Id, socketId: SocketId): (r: seq<Entry>)
    requires UniqueKeys(registry)
    ensures UniqueKeys(r)
    ensures Lookup(r, userId) == Some(socketId)
    ensures forall u :: u != userId ==> Lookup(r, u) == Lookup(registry, u)
    ensures Lookup(registry, userId).Some? ==> Keys(r) == Keys(registry)
    ensures Lookup(registry, userId).None? ==> Keys(r) == Keys(registry) + [userId]
  {
    var e := Entry(userId, socketId);
    match FirstIndex(registry, (x: Entry) => x.userId == userId)
    case Some(i) =>
      OverwriteEntry(registry, i, e);
      registry[i := e]
    case None =>
      AppendEntry(registry, e);
      registry + [e]
  }

  /** Overwriting the entry of an existing key in place. */
  lemma OverwriteEntry(registry: seq<Entry>, i: nat, e: Entry)
    requires UniqueKeys(registry)
    requires i < |registry| && registry[i].userId == e.userId
    ensures UniqueKeys(registry[i := e])
    ensures Lookup(registry[i := e], e.userId) == Some(e.socketId)
    ensures forall u :: u != e.userId ==> Lookup(registry[i := e], u) == Lookup(registry, u)
    ensures Keys(registry[i := e]) == Keys(registry)
  {
    var r := registry[i := e];
    forall u | u != e.userId
      ensures Lookup(r, u) == Lookup(registry, u)
    {
      UpdateKeepsOthers(registry, i, e, u);
    }
    assert r[i] == e;
    LookupHolds(r, e.userId, e.socketId);
  }

  /** Appending the entry of a new key. */
  lemma AppendEntry(registry: seq<Entry>, e: Entry)
    requires UniqueKeys(registry)
    requires Lookup(registry, e.userId).None?
    ensures UniqueKeys(registry + [e])
    ensures Lookup(registry + [e], e.userId) == Some(e.socketId)
    ensures forall u :: u != e.userId ==> Lookup(registry + [e], u) == Lookup(registry, u)
    ensures Keys(registry + [e]) == Keys(registry) + [e.userId]
  {
    var r := registry + [e];
    forall u | u != e.userId
      ensures Lookup(r, u) == Lookup(registry, u)
    {
      AppendKeepsOthers(registry, e, u);
    }
    assert r[|registry|] == e;
    LookupHolds(r, e.userId, e.socketId);
  }

  /** The disconnect loop: walks the entries in insertion order and deletes
      the first one held by the socket, then stops. */
  function RemoveSocket(registry: seq<Entry>, socketId: SocketId): (r: seq<Entry>)
    ensures (forall i :: 0 <= i < |registry| ==> registry[i].socketId != socketId) ==> r == registry
    ensures (exists i :: 0 <= i < |registry| && registry[i].socketId == socketId) ==>
              exists i :: && 0 <= i < |registry|
                          && registry[i].socketId == socketId
                          && (forall j :: 0 <= j < i ==> registry[j].socketId != socketId)
                          && r == registry[..i] + registry[i + 1..]
  {
    match FirstIndex(registry, (e: Entry) => e.socketId == socketId)
    case None => registry
    case Some(i) => registry[..i] + registry[i + 1..]
  }

  /** Removing an entry keeps the keys distinct, forgets exactly the user that
      held the socket first, and leaves every other user's socket alone. */
  lemma RemoveSocketForgetsOneUser(registry: seq<Entry>, socketId: SocketId, i: nat)
    requires UniqueKeys(registry)
    requires i < |registry| && registry[i].socketId == socketId
    requires forall j :: 0 <= j < i ==> registry[j].socketId != socketId
    ensures UniqueKeys(RemoveSocket(registry, socketId))
    ensures Lookup(RemoveSocket(registry, socketId), registry[i].userId).None?
    ensures forall u :: u != registry[i].userId ==>
              Lookup(RemoveSocket(registry, socketId), u) == Lookup(registry, u)
  {
    assert RemoveSocket(registry, socketId) == registry[..i] + registry[i + 1..];
    forall u | u != registry[i].userId
      ensures Lookup(registry[..i] + registry[i + 1..], u) == Lookup(registry, u)
    {
      DeleteKeepsOthers(registry, i, u);
    }
    DeleteForgets(registry, i);
  }

  /** The entries left once the one at `i` is deleted, by position. */
  lemma DeleteShifts(registry: seq<Entry>, i: nat)
    requires i < |registry|
    ensures var r := registry[..i] + registry[i + 1..];
            && |r| == |registry| - 1
            && forall m :: 0 <= m < |r| ==> r[m] == registry[if m < i then m else m + 1]
  {
  }

  /** Deleting the entry at `i` keeps the keys distinct and forgets its key. */
  lemma DeleteForgets(registry: seq<Entry>, i: nat)
    requires UniqueKeys(registry) && i < |registry|
    ensures UniqueKeys(registry[..i] + registry[i + 1..])
    ensures Lookup(registry[..i] + registry[i + 1..], registry[i].userId).None?
  {
    DeleteShifts(registry, i);
  }

  /** Deleting the entry at `i` leaves every other key's socket alone. */
  lemma DeleteKeepsOthers(registry: seq<Entry>, i: nat, u: Id)
    requires UniqueKeys(registry) && i < |registry| && u != registry[i].userId
    ensures Lookup(registry[..i] + registry[i + 1..], u) == Lookup(registry, u)
  {
    var r := registry[..i] + registry[i + 1..];
    DeleteShifts(registry, i);
    DeleteForgets(registry, i);
    forall s | Holds(registry, u, s)
      ensures Holds(r, u, s)
    {
      var k :| 0 <= k < |registry| && registry[k] == Entry(u, s);
      var m := if k < i then k else k - 1;
      assert r[m] == registry[k];
    }
    LookupSame(registry, r, u);
  }

  /** When one socket registered two users, a disconnect forgets only the
      earlier registration: the later one stays in the registry. */
  lemma RemoveSocketKeepsLaterRegistration(u1: Id, u2: Id, s: SocketId)
    requires u1 != u2
    ensures var reg := SetEntry(SetEntry([], u1, s), u2, s);
            RemoveSocket(reg, s) == [Entry(u2, s)]
  {
    var reg := SetEntry(SetEntry([], u1, s), u2, s);
    assert reg == [Entry(u1, s), Entry(u2, s)];
    assert FirstIndex(reg, (e: Entry) => e.socketId == s) == Some(0);
  }

  /** `data.messageType || 'text'`: absent and empty both fall back. */
  function TypeOrText(v: Option<string>): (r: string)
    ensures r != ""
    ensures v.Some? && v.value != "" ==> r == v.value
  {
    if v.Some? && v.value != "" then v.value else "text"
  }

  /** `data.imageUrl || null`: the empty string becomes `null` too. */
  function UrlOrNull(v: Option<string>): (r: Option<string>)
    ensures r.Some? <==> v.Some? && v.value != ""
    ensures r.Some? ==> r == v
  {
    if v.Some? && v.value != "" then v else None
  }

  /** Everyone in the room except the socket the event came from. */
  function Others(rooms: set<Membership>, room: string, from: SocketId): (r: set<SocketId>)
    ensures forall s :: s in r <==> s != from && Membership(room, s) in rooms
  {
    set m | m in rooms && m.room == room && m.socketId != from :: m.socketId
  }

  /** The relay's reaction to one inbound event on socket `from`. */
  function Handle(st: Relay, from: SocketId, ev: Inbound, newId: Id, now: int, saved: bool): (r: Relay)
    requires UniqueKeys(st.registry)
    ensures UniqueKeys(r.registry)
    // Only registration and disconnection touch the registry.
    ensures !ev.RegisterUser? && !ev.Disconnected? ==> r.registry == st.registry
    ensures ev.RegisterUser? ==> r.registry == SetEntry(st.registry, ev.userId, from)
    ensures ev.RegisterUser? ==> Lookup(r.registry, ev.userId) == Some(from)
    ensures ev.RegisterUser? ==> forall u :: u != ev.userId ==> Lookup(r.registry, u) == Lookup(st.registry, u)
    // A disconnect deletes the first entry on the socket, and only that one.
    ensures ev.Disconnected? ==> r.registry == RemoveSocket(st.registry, from)
    ensures ev.Disconnected? && (forall i :: 0 <= i < |st.registry| ==> st.registry[i].socketId != from) ==>
              r.registry == st.registry
    ensures ev.Disconnected? && (exists i :: 0 <= i < |st.registry| && st.registry[i].socketId == from) ==>
              exists i :: && 0 <= i < |st.registry|
                          && st.registry[i].socketId == from
                          && (forall j :: 0 <= j < i ==> st.registry[j].socketId != from)
                          && r.registry == st.registry[..i] + st.registry[i + 1..]
    // Only joining and disconnection touch room membership.
    ensures !ev.JoinRoom? && !ev.Disconnected? ==> r.rooms == st.rooms
    ensures ev.JoinRoom? ==> r.rooms == st.rooms + {Membership(ev.room, from)}
    ensures ev.Disconnected? ==> forall m :: m in r.rooms <==> m in st.rooms && m.socketId != from
    // Only a saved message reaches the message store, and nothing is removed.
    ensures !(ev.Send? && saved) ==> r.messages == st.messages
    ensures ev.Send? && saved ==>
              r.messages == st.messages + [Message(newId, ev.data.senderId, None, ev.data.message,
                                                   Some(TypeOrText(ev.data.messageType)),
                                                   UrlOrNull(ev.data.imageUrl), false)]
    // At most one delivery, sent to the room minus the sender.
    ensures |st.outbox| <= |r.outbox| <= |st.outbox| + 1 && r.outbox[..|st.outbox|] == st.outbox
    ensures |r.outbox| > |st.outbox| <==> ev.JoinRoom? || ev.Typing? || ev.MessagesRead? || (ev.Send? && saved)
    ensures ev.JoinRoom? ==> r.outbox[|st.outbox|] == Delivery(Others(r.rooms, ev.room, from), UserJoined(ev.joiner))
    ensures ev.Send? && saved ==>
              r.outbox[|st.outbox|] ==
                Delivery(Others(st.rooms, ev.data.room, from),
                         ReceiveMessage(newId, ev.data.senderId, ev.data.message, now,
                                        TypeOrText(ev.data.messageType), UrlOrNull(ev.data.imageUrl)))
    ensures ev.Typing? ==> r.outbox[|st.outbox|] == Delivery(Others(st.rooms, ev.room, from), UserTyping(ev.typist, ev.isTyping))
    ensures ev.MessagesRead? ==> r.outbox[|st.outbox|] == Delivery(Others(st.rooms, ev.room, from), MessageRead(ev.reader))
  {
    match ev
    case RegisterUser(u) => st.(registry := SetEntry(st.registry, u, from))
    case JoinRoom(room, joiner) =>
      var rooms := st.rooms + {Membership(room, from)};
      st.(rooms := rooms, outbox := st.outbox + [Delivery(Others(rooms, room, from), UserJoined(joiner))])
    case Send(data) =>
      if !saved then st
      else
        var m := Message(newId, data.senderId, None, data.message, Some(TypeOrText(data.messageType)),
                         UrlOrNull(data.imageUrl), false);
        var e := ReceiveMessage(newId, data.senderId, data.message, now,
                                TypeOrText(data.messageType), UrlOrNull(data.imageUrl));
        st.(messages := st.messages + [m], outbox := st.outbox + [Delivery(Others(st.rooms, data.room, from), e)])
    case Typing(room, u, isTyping) =>
      st.(outbox := st.outbox + [Delivery(Others(st.rooms, room, from), UserTyping(u, isTyping))])
    case MessagesRead(room, u) =>
      st.(outbox := st.outbox + [Delivery(Others(st.rooms, room, from), MessageRead(u))])
    case Disconnected =>
      RemoveSocketForgets(st.registry, from);
      st.(registry := RemoveSocket(st.registry, from),
          rooms := set m | m in st.rooms && m.socketId != from)
  }

  lemma RemoveSocketForgets(registry: seq<Entry>, socketId: SocketId)
    requires UniqueKeys(registry)
    ensures UniqueKeys(RemoveSocket(registry, socketId))
  {
    match FirstIndex(registry, (e: Entry) => e.socketId == socketId)
    case None =>
    case Some(i) => RemoveSocketForgetsOneUser(registry, socketId, i);
  }

  /** Nothing the relay does reaches the sender's own socket. */
  lemma SenderNeverEchoed(st: Relay, from: SocketId, ev: Inbound, newId: Id, now: int, saved: bool)
    requires UniqueKeys(st.registry)
    ensures var r := Handle(st, from, ev, newId, now, saved);
            forall k :: |st.outbox| <= k < |r.outbox| ==> from !in r.outbox[k].recipients
  {
  }

  /** A user alone on a socket is forgotten when that socket disconnects,
      and so are its memberships. */
  lemma DisconnectForgetsOnlyUser(u: Id, sock: SocketId, room: string, newId: Id, now: int, saved: bool)
    ensures var r := Handle(Relay([Entry(u, sock)], {Membership(room, sock)}, [], []), sock, Disconnected,
                            newId, now, saved);
            && r.registry == []
            && Lookup(r.registry, u).None?
            && r.rooms == {}
  {
    var st := Relay([Entry(u, sock)], {Membership(room, sock)}, [], []);
    assert st.registry[0].socketId == sock;
    var r := Handle(st, sock, Disconnected, newId, now, saved);
    assert r.registry == st.registry[..0] + st.registry[1..];
    assert forall m :: m in r.rooms ==> m in st.rooms && m.socketId != sock;
  }
}
