/**
 * The signalling server's room registry and relay (server/server.js): the
 * `rooms` table from room id to host, participant list and message log, and
 * the socket.io handlers that read and update it.  Each handler runs to
 * completion before the next event is taken, so each is one method.  What a
 * handler sends is appended to `outbox` as a delivery to a socket.io address.
 */
module Server {
  import opened Protocol
  import opened Keys

  /** One `rooms[roomId]` entry. */
  datatype Room = Room(host: SocketId, participants: seq<SocketId>, messages: seq<Message>)

  /**
   * Where socket.io delivers: `socket.emit` to the caller alone, `io.to(x)` to
   * every socket in the socket.io room x (every socket is in the room named by
   * its own id), `socket.to(x)` to the same sockets except the caller.
   */
  datatype Dest =
    | ToCaller(id: SocketId)
    | To(address: string)
    | ToOthers(address: string, except: SocketId)

  /** The events the server emits, with their payloads. */
  datatype Event =
    | RoomCreated(roomId: RoomId)
    | RoomJoined(roomId: RoomId)
    | Error(text: string)
    | UserConnected(userId: SocketId)
    | RoomUsers(users: seq<SocketId>)
    | Offer(sdp: string, sender: SocketId)
    | Answer(sdp: string, sender: SocketId)
    | IceCandidate(candidate: string, sender: SocketId)
    | NewMessage(message: Message)
    | FileStart(sender: SocketId, fileInfo: FileInfo)
    | FileChunk(sender: SocketId, fileId: FileId, chunk: string, chunkIndex: int, totalChunks: int)
    | FileComplete(sender: SocketId, fileId: FileId)
    | FileReject(sender: SocketId, fileId: FileId, reason: string)
    | UserDisconnected(userId: SocketId)

  datatype Delivery = Delivery(dest: Dest, event: Event)

  const NoSuchRoom := "Room does not exist"
  const SystemSender := "system"

  // ---------------------------------------------------------------- specification functions

  /** `participants.filter(id => id !== sid)`. */
  function Without(ids: seq<SocketId>, sid: SocketId): (r: seq<SocketId>)
    ensures |r| <= |ids|
  {
    if ids == [] then []
    else Without(ids[..|ids| - 1], sid) + (if ids[|ids| - 1] == sid then [] else [ids[|ids| - 1]])
  }

  /** `s.substring(0, 4)`: the first four characters, or all of a shorter string. */
  function Prefix4(s: string): string {
    if |s| <= 4 then s else s[..4]
  }

  function SharingText(sid: SocketId, fileName: string): string {
    Prefix4(sid) + " is sharing file: " + fileName
  }

  function LeftText(sid: SocketId): string {
    "User " + Prefix4(sid) + " has left the room"
  }

  /** The room after `sid` leaves it: filtered out of the participants, one system message logged. */
  function Left(room: Room, sid: SocketId, now: Timestamp): Room {
    room.(participants := Without(room.participants, sid),
          messages := room.messages + [Message(SystemSender, LeftText(sid), now)])
  }

  /** A room that `sid` leaves and that nobody is left in. */
  predicate Emptied(room: Room, sid: SocketId) {
    sid in room.participants && Without(room.participants, sid) == []
  }

  /** The table after the disconnect loop has visited the rooms in `done`. */
  function Disconnected(rooms: map<RoomId, Room>, sid: SocketId, now: Timestamp, done: set<RoomId>): map<RoomId, Room> {
    map r | r in rooms && !(r in done && Emptied(rooms[r], sid))
      :: if r in done && sid in rooms[r].participants then Left(rooms[r], sid, now) else rooms[r]
  }

  /** The table after `disconnect`: every room is visited. */
  function AfterDisconnect(rooms: map<RoomId, Room>, sid: SocketId, now: Timestamp): map<RoomId, Room> {
    Disconnected(rooms, sid, now, rooms.Keys)
  }

  /** What the disconnect loop sends for one room: nothing unless `sid` is among its participants. */
  function RoomEmits(room: Room, roomId: RoomId, sid: SocketId, now: Timestamp): seq<Delivery> {
    if sid in room.participants
    then [Delivery(To(roomId), UserDisconnected(sid)), Delivery(To(roomId), NewMessage(Message(SystemSender, LeftText(sid), now)))]
    else []
  }

  /** What `disconnect` sends for the rooms in `order`, visited in that order. */
  function DisconnectEmits(rooms: map<RoomId, Room>, sid: SocketId, now: Timestamp, order: seq<RoomId>): seq<Delivery>
    requires forall j :: 0 <= j < |order| ==> order[j] in rooms
  {
    if order == [] then []
    else
      var r := order[|order| - 1];
      DisconnectEmits(rooms, sid, now, order[..|order| - 1]) + RoomEmits(rooms[r], r, sid, now)
  }

  /** Every room has at least one participant: a room is deleted as soon as its last participant leaves. */
  ghost predicate NoEmptyRoom(rooms: map<RoomId, Room>) {
    forall r :: r in rooms ==> rooms[r].participants != []
  }

  // ---------------------------------------------------------------- the server

  class RoomServer {
    var rooms: map<RoomId, Room>
    var outbox: seq<Delivery>

    ghost predicate Valid()
      reads this
    {
      NoEmptyRoom(rooms)
    }

    constructor ()
      ensures Valid() && rooms == map[] && outbox == []
    {
      rooms := map[];
      outbox := [];
    }

    /** 'create-room': `roomId` is the value `uuidv4()` produced. */
    method CreateRoom(sid: SocketId, roomId: RoomId)
      requires Valid()
      modifies this
      ensures Valid()
      ensures rooms == old(rooms)[roomId := Room(sid, [sid], [])]
      ensures outbox == old(outbox) + [Delivery(ToCaller(sid), RoomCreated(roomId))]
    {
      rooms := rooms[roomId := Room(sid, [sid], [])];
      outbox := outbox + [Delivery(ToCaller(sid), RoomCreated(roomId))];
    }

    /**
     * 'join-room': the joiner is appended even if already present; an unknown
     * id is answered with an error, but an inherited name passes the guard
     * and throws at `participants.push` before anything is sent.
     */
    method JoinRoom(sid: SocketId, roomId: RoomId) returns (r: Outcome)
      requires Valid()
      modifies this
      ensures Valid()
      ensures Get(old(rooms), roomId).Undefined? ==>
        r == Returned && rooms == old(rooms) && outbox == old(outbox) + [Delivery(ToCaller(sid), Error(NoSuchRoom))]
      ensures Get(old(rooms), roomId).Inherited? ==> r == Threw && rooms == old(rooms) && outbox == old(outbox)
      ensures roomId in old(rooms) ==>
        && r == Returned
        && rooms == old(rooms)[roomId := old(rooms)[roomId].(participants := old(rooms)[roomId].participants + [sid])]
        && outbox == old(outbox) + [Delivery(ToCaller(sid), RoomJoined(roomId)), Delivery(ToOthers(roomId, sid), UserConnected(sid))]
    {
      match Get(rooms, roomId)
      case Own(room) =>
        rooms := rooms[roomId := room.(participants := room.participants + [sid])];
        outbox := outbox + [Delivery(ToCaller(sid), RoomJoined(roomId)), Delivery(ToOthers(roomId, sid), UserConnected(sid))];
        r := Returned;
      case Inherited =>
        r := Threw;
      case Undefined =>
        outbox := outbox + [Delivery(ToCaller(sid), Error(NoSuchRoom))];
        r := Returned;
    }

    /**
     * 'get-users': the other participants in join order; an unknown room gets
     * no reply, and an inherited name throws at `participants.filter`.
     */
    method GetUsers(sid: SocketId, roomId: RoomId) returns (r: Outcome)
      modifies this`outbox
      ensures Get(rooms, roomId).Undefined? ==> r == Returned && outbox == old(outbox)
      ensures Get(rooms, roomId).Inherited? ==> r == Threw && outbox == old(outbox)
      ensures roomId in rooms ==>
        r == Returned && outbox == old(outbox) + [Delivery(ToCaller(sid), RoomUsers(Without(rooms[roomId].participants, sid)))]
    {
      match Get(rooms, roomId)
      case Own(room) =>
        outbox := outbox + [Delivery(ToCaller(sid), RoomUsers(Without(room.participants, sid)))];
        r := Returned;
      case Inherited =>
        r := Threw;
      case Undefined =>
        r := Returned;
    }

    /** 'offer': relayed to the target's address with the caller's id as sender. */
    method RelayOffer(sid: SocketId, target: string, sdp: string)
      modifies this`outbox
      ensures outbox == old(outbox) + [Delivery(To(target), Offer(sdp, sid))]
    {
      outbox := outbox + [Delivery(To(target), Offer(sdp, sid))];
    }

    /** 'answer': relayed to the target's address with the caller's id as sender. */
    method RelayAnswer(sid: SocketId, target: string, sdp: string)
      modifies this`outbox
      ensures outbox == old(outbox) + [Delivery(To(target), Answer(sdp, sid))]
    {
      outbox := outbox + [Delivery(To(target), Answer(sdp, sid))];
    }

    /** 'ice-candidate': relayed to the target's address with the caller's id as sender. */
    method RelayIceCandidate(sid: SocketId, target: string, candidate: string)
      modifies this`outbox
      ensures outbox == old(outbox) + [Delivery(To(target), IceCandidate(candidate, sid))]
    {
      outbox := outbox + [Delivery(To(target), IceCandidate(candidate, sid))];
    }

    /**
     * 'send-message': logged in the room and delivered to every member, the
     * caller included; an inherited name throws at `messages.push`.
     */
    method SendMessage(sid: SocketId, roomId: RoomId, text: string, now: Timestamp) returns (r: Outcome)
      requires Valid()
      modifies this
      ensures Valid()
      ensures Get(old(rooms), roomId).Undefined? ==> r == Returned && rooms == old(rooms) && outbox == old(outbox)
      ensures Get(old(rooms), roomId).Inherited? ==> r == Threw && rooms == old(rooms) && outbox == old(outbox)
      ensures roomId in old(rooms) ==>
        var m := Message(sid, text, now);
        && r == Returned
        && rooms == old(rooms)[roomId := old(rooms)[roomId].(messages := old(rooms)[roomId].messages + [m])]
        && outbox == old(outbox) + [Delivery(To(roomId), NewMessage(m))]
    {
      match Get(rooms, roomId)
      case Own(room) =>
        var messageObj := Message(sid, text, now);
        rooms := rooms[roomId := room.(messages := room.messages + [messageObj])];
        outbox := outbox + [Delivery(To(roomId), NewMessage(messageObj))];
        r := Returned;
      case Inherited =>
        r := Threw;
      case Undefined =>
        r := Returned;
    }

    /**
     * 'file-start': relayed to the other members, and a system message is
     * logged and delivered to all; an inherited name is relayed too, then
     * throws at `messages.push`.
     */
    method RelayFileStart(sid: SocketId, roomId: RoomId, fileInfo: FileInfo, now: Timestamp) returns (r: Outcome)
      requires Valid()
      modifies this
      ensures Valid()
      ensures Get(old(rooms), roomId).Undefined? ==> r == Returned && rooms == old(rooms) && outbox == old(outbox)
      ensures Get(old(rooms), roomId).Inherited? ==>
        && r == Threw && rooms == old(rooms)
        && outbox == old(outbox) + [Delivery(ToOthers(roomId, sid), FileStart(sid, fileInfo))]
      ensures roomId in old(rooms) ==>
        var m := Message(SystemSender, SharingText(sid, fileInfo.fileName), now);
        && r == Returned
        && rooms == old(rooms)[roomId := old(rooms)[roomId].(messages := old(rooms)[roomId].messages + [m])]
        && outbox == old(outbox) + [Delivery(ToOthers(roomId, sid), FileStart(sid, fileInfo)), Delivery(To(roomId), NewMessage(m))]
    {
      var slot := Get(rooms, roomId);
      if slot.Undefined? {
        return Returned;
      }
      outbox := outbox + [Delivery(ToOthers(roomId, sid), FileStart(sid, fileInfo))];
      var messageObj := Message(SystemSender, SharingText(sid, fileInfo.fileName), now);
      match slot
      case Own(room) =>
        rooms := rooms[roomId := room.(messages := room.messages + [messageObj])];
        outbox := outbox + [Delivery(To(roomId), NewMessage(messageObj))];
        r := Returned;
      case Inherited =>
        r := Threw;
    }

    /** 'file-chunk': relayed unchanged to the other members whenever the guard passes, an inherited name included. */
    method RelayFileChunk(sid: SocketId, roomId: RoomId, fileId: FileId, chunk: string, chunkIndex: int, totalChunks: int)
      modifies this`outbox
      ensures Get(rooms, roomId).Undefined? ==> outbox == old(outbox)
      ensures !Get(rooms, roomId).Undefined? ==>
        outbox == old(outbox) + [Delivery(ToOthers(roomId, sid), FileChunk(sid, fileId, chunk, chunkIndex, totalChunks))]
    {
      if !Get(rooms, roomId).Undefined? {
        outbox := outbox + [Delivery(ToOthers(roomId, sid), FileChunk(sid, fileId, chunk, chunkIndex, totalChunks))];
      }
    }

    /** 'file-complete': relayed to the other members whenever the guard passes, an inherited name included. */
    method RelayFileComplete(sid: SocketId, roomId: RoomId, fileId: FileId)
      modifies this`outbox
      ensures Get(rooms, roomId).Undefined? ==> outbox == old(outbox)
      ensures !Get(rooms, roomId).Undefined? ==> outbox == old(outbox) + [Delivery(ToOthers(roomId, sid), FileComplete(sid, fileId))]
    {
      if !Get(rooms, roomId).Undefined? {
        outbox := outbox + [Delivery(ToOthers(roomId, sid), FileComplete(sid, fileId))];
      }
    }

    /** 'file-reject': relayed to the target's address with the caller's id as sender. */
    method RelayFileReject(sid: SocketId, target: string, fileId: FileId, reason: string)
      modifies this`outbox
      ensures outbox == old(outbox) + [Delivery(To(target), FileReject(sid, fileId, reason))]
    {
      outbox := outbox + [Delivery(To(target), FileReject(sid, fileId, reason))];
    }

    /**
     * 'disconnect': every room is visited once, in the order `visited` that
     * the `for ... in` loop took; a room holding the caller loses every copy
     * of its id, logs and broadcasts one system message, and is deleted when
     * left empty.
     */
    method Disconnect(sid: SocketId, now: Timestamp) returns (visited: seq<RoomId>)
      requires Valid()
      modifies this
      ensures Valid()
      ensures rooms == AfterDisconnect(old(rooms), sid, now)
      ensures (forall r :: r in visited <==> r in old(rooms))
      ensures forall i, j :: 0 <= i < j < |visited| ==> visited[i] != visited[j]
      ensures outbox == old(outbox) + DisconnectEmits(old(rooms), sid, now, visited)
    {
      visited := KeyOrder(rooms.Keys);
      ghost var start := rooms;
      VisitRooms(sid, now, visited);
      VisitAllIsDisconnected(start, sid, now, visited);
      ElemsMembers(visited);
      assert Elems(visited) == start.Keys;
      DisconnectedNonEmpty(start, sid, now, start.Keys);
    }

    /** The loop of 'disconnect' over the rooms in `order`, each one not yet visited when reached. */
    method VisitRooms(sid: SocketId, now: Timestamp, order: seq<RoomId>)
      requires forall j :: 0 <= j < |order| ==> order[j] in rooms
      requires forall i, j :: 0 <= i < j < |order| ==> order[i] != order[j]
      modifies this
      ensures rooms == VisitAll(old(rooms), sid, now, order)
      ensures outbox == old(outbox) + DisconnectEmits(old(rooms), sid, now, order)
    {
      ghost var start := rooms;
      for i := 0 to |order|
        invariant rooms == VisitAll(start, sid, now, order[..i])
        invariant outbox == old(outbox) + DisconnectEmits(start, sid, now, order[..i])
      {
        var roomId := order[i];
        VisitAllUnvisited(start, sid, now, order[..i], roomId);
        assert order[..i + 1] == order[..i] + [roomId];
        DisconnectEmitsAppend(start, sid, now, order[..i], roomId);
        VisitRoom(sid, now, roomId);
      }
      assert order[..|order|] == order;
    }

    /** One iteration of the disconnect loop, for the room `roomId` of the current table. */
    method VisitRoom(sid: SocketId, now: Timestamp, roomId: RoomId)
      requires roomId in rooms
      modifies this
      ensures rooms == Visit(old(rooms), sid, now, roomId)
      ensures outbox == old(outbox) + RoomEmits(old(rooms)[roomId], roomId, sid, now)
    {
      var room := rooms[roomId];
      if sid in room.participants {
        room := room.(participants := Without(room.participants, sid));
        outbox := outbox + [Delivery(To(roomId), UserDisconnected(sid))];
        var messageObj := Message(SystemSender, LeftText(sid), now);
        room := room.(messages := room.messages + [messageObj]);
        outbox := outbox + [Delivery(To(roomId), NewMessage(messageObj))];
        rooms := rooms[roomId := room];
        if |room.participants| == 0 {
          rooms := rooms - {roomId};
        }
      }
    }
  }

  /** One visit of the disconnect loop to a room of the current table. */
  function Visit(rooms: map<RoomId, Room>, sid: SocketId, now: Timestamp, r: RoomId): map<RoomId, Room> {
    if r !in rooms || sid !in rooms[r].participants then rooms
    else if Emptied(rooms[r], sid) then rooms - {r}
    else rooms[r := Left(rooms[r], sid, now)]
  }

  /** The table after the loop has visited the rooms in `order`, one after the other. */
  function VisitAll(rooms: map<RoomId, Room>, sid: SocketId, now: Timestamp, order: seq<RoomId>): map<RoomId, Room> {
    if order == [] then rooms
    else Visit(VisitAll(rooms, sid, now, order[..|order| - 1]), sid, now, order[|order| - 1])
  }

  /** A room the loop has not reached yet is as it was. */
  lemma {:induction false} VisitAllUnvisited(rooms: map<RoomId, Room>, sid: SocketId, now: Timestamp, order: seq<RoomId>, r: RoomId)
    requires r in rooms && r !in order
    ensures r in VisitAll(rooms, sid, now, order) && VisitAll(rooms, sid, now, order)[r] == rooms[r]
  {
    if order != [] {
      VisitAllUnvisited(rooms, sid, now, order[..|order| - 1], r);
    }
  }

  /**
   * Visiting distinct rooms one after the other gives the same table as the
   * order-free description: the visiting order does not matter.
   */
  lemma {:induction false} VisitAllIsDisconnected(rooms: map<RoomId, Room>, sid: SocketId, now: Timestamp, order: seq<RoomId>)
    requires forall j :: 0 <= j < |order| ==> order[j] in rooms
    requires forall i, j :: 0 <= i < j < |order| ==> order[i] != order[j]
    ensures VisitAll(rooms, sid, now, order) == Disconnected(rooms, sid, now, Elems(order))
  {
    if order != [] {
      var prefix := order[..|order| - 1];
      var r := order[|order| - 1];
      VisitAllIsDisconnected(rooms, sid, now, prefix);
      ElemsMembers(prefix);
      DisconnectedStep(rooms, sid, now, Elems(prefix), r);
    }
  }

  /** Visiting one more room changes that room alone: it is left, deleted when emptied, or kept as it is. */
  lemma DisconnectedStep(start: map<RoomId, Room>, sid: SocketId, now: Timestamp, done: set<RoomId>, r: RoomId)
    requires r in start && r !in done
    ensures var before := Disconnected(start, sid, now, done);
      && r in before && before[r] == start[r]
      && Disconnected(start, sid, now, done + {r}) == Visit(before, sid, now, r)
  {
    var before := Disconnected(start, sid, now, done);
    var after := Disconnected(start, sid, now, done + {r});
    if sid !in start[r].participants {
      assert after == before;
    } else if Emptied(start[r], sid) {
      assert after == before - {r};
    } else {
      assert after == before[r := Left(start[r], sid, now)];
    }
  }

  lemma DisconnectEmitsAppend(rooms: map<RoomId, Room>, sid: SocketId, now: Timestamp, order: seq<RoomId>, r: RoomId)
    requires forall j :: 0 <= j < |order| ==> order[j] in rooms
    requires r in rooms
    ensures DisconnectEmits(rooms, sid, now, order + [r]) == DisconnectEmits(rooms, sid, now, order) + RoomEmits(rooms[r], r, sid, now)
  {
    assert (order + [r])[..|order|] == order;
  }

  lemma DisconnectedNonEmpty(start: map<RoomId, Room>, sid: SocketId, now: Timestamp, done: set<RoomId>)
    requires NoEmptyRoom(start)
    ensures NoEmptyRoom(Disconnected(start, sid, now, done))
  {
  }

  // ---------------------------------------------------------------- properties

  /** The filter keeps exactly the ids other than `sid`. */
  lemma {:induction false} WithoutMembers(ids: seq<SocketId>, sid: SocketId)
    ensures forall x :: x in Without(ids, sid) <==> x in ids && x != sid
  {
    if ids != [] {
      WithoutMembers(ids[..|ids| - 1], sid);
      assert ids == ids[..|ids| - 1] + [ids[|ids| - 1]];
    }
  }

  /** The filter keeps join order: filtering a concatenation filters each part. */
  lemma {:induction false} WithoutAppend(a: seq<SocketId>, b: seq<SocketId>, sid: SocketId)
    ensures Without(a + b, sid) == Without(a, sid) + Without(b, sid)
    decreases |b|
  {
    if b != [] {
      assert (a + b)[..|a + b| - 1] == a + b[..|b| - 1];
      WithoutAppend(a, b[..|b| - 1], sid);
    } else {
      assert a + b == a;
    }
  }

  /** A list without `sid` is left as it is. */
  lemma {:induction false} WithoutAbsent(ids: seq<SocketId>, sid: SocketId)
    requires sid !in ids
    ensures Without(ids, sid) == ids
  {
    if ids != [] {
      WithoutAbsent(ids[..|ids| - 1], sid);
      assert ids == ids[..|ids| - 1] + [ids[|ids| - 1]];
    }
  }

  /**
   * After `j` joins, 'get-users' by `s` lists what it listed before, followed
   * by `j` unless `j` is `s`.
   */
  lemma JoinThenGetUsers(participants: seq<SocketId>, j: SocketId, s: SocketId)
    ensures Without(participants + [j], s) == Without(participants, s) + (if j == s then [] else [j])
  {
    WithoutAppend(participants, [j], s);
  }

  /** After 'disconnect' the id is in no room, and every deleted room was one the id emptied. */
  lemma DisconnectRemovesId(rooms: map<RoomId, Room>, sid: SocketId, now: Timestamp)
    ensures var after := AfterDisconnect(rooms, sid, now);
      && (forall r :: r in after ==> sid !in after[r].participants)
      && (forall r :: r in rooms ==> (r !in after <==> Emptied(rooms[r], sid)))
  {
    var after := AfterDisconnect(rooms, sid, now);
    forall r | r in after ensures sid !in after[r].participants {
      WithoutMembers(rooms[r].participants, sid);
    }
  }

  /** A room that does not hold the id keeps its participants and its log. */
  lemma DisconnectUnaffected(rooms: map<RoomId, Room>, sid: SocketId, now: Timestamp, r: RoomId)
    requires r in rooms && sid !in rooms[r].participants
    ensures r in AfterDisconnect(rooms, sid, now) && AfterDisconnect(rooms, sid, now)[r] == rooms[r]
  {
  }

  /** A room that held the id and keeps members gains exactly the one system message. */
  lemma DisconnectAffected(rooms: map<RoomId, Room>, sid: SocketId, now: Timestamp, r: RoomId)
    requires r in rooms && sid in rooms[r].participants && !Emptied(rooms[r], sid)
    ensures var after := AfterDisconnect(rooms, sid, now);
      && r in after
      && after[r].host == rooms[r].host
      && after[r].participants == Without(rooms[r].participants, sid)
      && after[r].messages == rooms[r].messages + [Message(SystemSender, LeftText(sid), now)]
  {
  }

  /** Disconnecting a socket that is in no room changes nothing and sends nothing. */
  lemma DisconnectInNoRoom(rooms: map<RoomId, Room>, sid: SocketId, now: Timestamp, order: seq<RoomId>)
    requires forall r :: r in rooms ==> sid !in rooms[r].participants
    requires forall j :: 0 <= j < |order| ==> order[j] in rooms
    ensures AfterDisconnect(rooms, sid, now) == rooms
    ensures DisconnectEmits(rooms, sid, now, order) == []
  {
    DisconnectNoEmits(rooms, sid, now, order);
  }

  lemma {:induction false} DisconnectNoEmits(rooms: map<RoomId, Room>, sid: SocketId, now: Timestamp, order: seq<RoomId>)
    requires forall r :: r in rooms ==> sid !in rooms[r].participants
    requires forall j :: 0 <= j < |order| ==> order[j] in rooms
    ensures DisconnectEmits(rooms, sid, now, order) == []
  {
    if order != [] {
      DisconnectNoEmits(rooms, sid, now, order[..|order| - 1]);
    }
  }

  /** A second 'disconnect' for the same id finds it in no room, so it changes nothing. */
  lemma DisconnectIdempotent(rooms: map<RoomId, Room>, sid: SocketId, now: Timestamp, later: Timestamp)
    ensures AfterDisconnect(AfterDisconnect(rooms, sid, now), sid, later) == AfterDisconnect(rooms, sid, now)
  {
    DisconnectRemovesId(rooms, sid, now);
  }

}
