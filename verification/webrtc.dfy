/**
 * The browser's peer-connection bookkeeping (public/js/webrtc.js): the
 * `peerConnections` object keyed by remote user id, and the signalling
 * handlers that create, reuse, ignore or delete its entries.  An
 * `RTCPeerConnection` is an opaque handle; what the code asks of it is
 * recorded in `connOps` in call order, and what it emits on the socket in
 * `outbox`.
 */
module WebRTC {
  import opened Wrappers
  import opened Protocol
  import opened Keys

  type UserId = SocketId

  /** An opaque media stream from `getUserMedia`. */
  type StreamId = nat

  /** A `new RTCPeerConnection(...)`: a fresh serial number and the user id its handlers were created for. */
  datatype Conn = Conn(serial: nat, peer: UserId)

  /** A session description made by a connection's `createOffer` or `createAnswer`. */
  datatype Sdp = OfferSdp(maker: Conn) | AnswerSdp(maker: Conn) | RemoteSdp(text: string)

  /** The calls made on the opaque browser objects. */
  datatype ConnOp =
    | AddTracks(conn: Conn, stream: StreamId)
    | SetRemoteDescription(conn: Conn, sdp: Sdp)
    | SetLocalDescription(conn: Conn, sdp: Sdp)
    | AddIceCandidate(conn: Conn, candidate: string)
    | Close(conn: Conn)
    | StopTracks(stream: StreamId)

  /** What this client emits on its socket. */
  datatype Emit =
    | GetUsers(roomId: RoomId)
    | SendOffer(target: UserId, sdp: Sdp)
    | SendAnswer(target: UserId, sdp: Sdp)
    | SendIceCandidate(target: UserId, candidate: string)

  // ---------------------------------------------------------------- specification functions

  /** The ids of `users` other than the local one, in list order. */
  function Others(users: seq<UserId>, self: Option<UserId>): seq<UserId> {
    if users == [] then []
    else Others(users[..|users| - 1], self) + (if Some(users[|users| - 1]) == self then [] else [users[|users| - 1]])
  }

  /** The table after connections numbered `serial`, `serial`+1, ... are created for `targets` in order. */
  function Connected(pcs: map<UserId, Conn>, serial: nat, targets: seq<UserId>): map<UserId, Conn> {
    if targets == [] then pcs
    else
      var last := targets[|targets| - 1];
      Connected(pcs, serial, targets[..|targets| - 1])[last := Conn(serial + |targets| - 1, last)]
  }

  /** The offers sent to `targets`, one each, from the connections numbered from `serial`. */
  function Offers(serial: nat, targets: seq<UserId>): seq<Emit> {
    if targets == [] then []
    else
      var last := targets[|targets| - 1];
      Offers(serial, targets[..|targets| - 1]) + [SendOffer(last, OfferSdp(Conn(serial + |targets| - 1, last)))]
  }

  /** The calls made on each new connection: its tracks are added, then its offer set as local description. */
  function OfferOps(serial: nat, stream: StreamId, targets: seq<UserId>): seq<ConnOp> {
    if targets == [] then []
    else
      var c := Conn(serial + |targets| - 1, targets[|targets| - 1]);
      OfferOps(serial, stream, targets[..|targets| - 1]) + [AddTracks(c, stream), SetLocalDescription(c, OfferSdp(c))]
  }

  /** One `close()` per connection, in the order the keys are visited. */
  function Closes(pcs: map<UserId, Conn>, order: seq<UserId>): seq<ConnOp>
    requires forall j :: 0 <= j < |order| ==> order[j] in pcs
  {
    if order == [] then [] else Closes(pcs, order[..|order| - 1]) + [Close(pcs[order[|order| - 1]])]
  }

  /** Every entry holds a connection made for that very user, numbered below the next serial. */
  ghost predicate WellKeyed(pcs: map<UserId, Conn>, nextSerial: nat) {
    forall u :: u in pcs ==> pcs[u].peer == u && pcs[u].serial < nextSerial
  }

  // ---------------------------------------------------------------- the client

  class WebRTCConnection {
    var peerConnections: map<UserId, Conn>
    var localStream: Option<StreamId>
    var roomId: Option<RoomId>
    var userId: Option<UserId>
    var onUserDisconnected: bool
    var nextSerial: nat
    var connOps: seq<ConnOp>
    var outbox: seq<Emit>

    ghost predicate Valid()
      reads this
    {
      WellKeyed(peerConnections, nextSerial)
    }

    constructor ()
      ensures Valid()
      ensures peerConnections == map[] && localStream == None && roomId == None && userId == None
      ensures !onUserDisconnected && connOps == [] && outbox == []
    {
      peerConnections := map[];
      localStream := None;
      roomId := None;
      userId := None;
      onUserDisconnected := false;
      nextSerial := 0;
      connOps := [];
      outbox := [];
    }

    /**
     * `initialize`: `media` is what `getUserMedia` gave, None when it was
     * refused; then the error propagates (the result is None) and nothing is
     * emitted.  Otherwise the stream is kept and 'get-users' is emitted.
     */
    method Initialize(socketId: SocketId, room: RoomId, media: Option<StreamId>) returns (r: Option<StreamId>)
      requires Valid()
      modifies this
      ensures Valid()
      ensures roomId == Some(room) && userId == Some(socketId) && r == media
      ensures peerConnections == old(peerConnections) && nextSerial == old(nextSerial) && connOps == old(connOps)
      ensures onUserDisconnected == old(onUserDisconnected)
      ensures media.None? ==> localStream == old(localStream) && outbox == old(outbox)
      ensures media.Some? ==> localStream == media && outbox == old(outbox) + [GetUsers(room)]
    {
      roomId := Some(room);
      userId := Some(socketId);
      if media.None? {
        return None;
      }
      localStream := media;
      outbox := outbox + [GetUsers(room)];
      r := localStream;
    }

    method SetOnUserDisconnected(present: bool)
      modifies this`onUserDisconnected
      ensures onUserDisconnected == present
    {
      onUserDisconnected := present;
    }

    /**
     * `createPeerConnection`: without a local stream `getTracks` throws and
     * nothing is stored; otherwise a fresh connection gets the local tracks
     * and is stored under `user`, replacing any earlier entry.
     */
    method CreatePeerConnection(user: UserId) returns (ok: bool)
      requires Valid()
      modifies this`peerConnections, this`nextSerial, this`connOps
      ensures Valid()
      ensures ok <==> old(localStream).Some?
      ensures !ok ==> peerConnections == old(peerConnections) && nextSerial == old(nextSerial) && connOps == old(connOps)
      ensures ok ==>
        var c := Conn(old(nextSerial), user);
        && peerConnections == old(peerConnections)[user := c]
        && nextSerial == old(nextSerial) + 1
        && connOps == old(connOps) + [AddTracks(c, localStream.value)]
    {
      if localStream.None? {
        return false;
      }
      var peerConnection := Conn(nextSerial, user);
      nextSerial := nextSerial + 1;
      connOps := connOps + [AddTracks(peerConnection, localStream.value)];
      peerConnections := peerConnections[user := peerConnection];
      ok := true;
    }

    /**
     * `createOffer`: the entry's offer becomes its local description and is
     * sent to `user`; with no entry the call on `undefined` throws.
     */
    method CreateOffer(user: UserId) returns (ok: bool)
      modifies this`connOps, this`outbox
      ensures ok <==> user in peerConnections
      ensures !ok ==> connOps == old(connOps) && outbox == old(outbox)
      ensures ok ==>
        var c := peerConnections[user];
        && connOps == old(connOps) + [SetLocalDescription(c, OfferSdp(c))]
        && outbox == old(outbox) + [SendOffer(user, OfferSdp(c))]
    {
      if user !in peerConnections {
        return false;
      }
      var peerConnection := peerConnections[user];
      var offer := OfferSdp(peerConnection);
      connOps := connOps + [SetLocalDescription(peerConnection, offer)];
      outbox := outbox + [SendOffer(user, offer)];
      ok := true;
    }

    /**
     * 'room-users': a connection and an offer for every listed id except the
     * local one, in list order.  Without a local stream the first connection
     * attempt throws and the handler stops there, having changed nothing.
     */
    method OnRoomUsers(users: seq<UserId>)
      requires Valid()
      modifies this`peerConnections, this`nextSerial, this`connOps, this`outbox
      ensures Valid()
      ensures old(localStream).None? ==>
        peerConnections == old(peerConnections) && nextSerial == old(nextSerial)
        && connOps == old(connOps) && outbox == old(outbox)
      ensures old(localStream).Some? ==>
        var targets := Others(users, userId);
        && peerConnections == Connected(old(peerConnections), old(nextSerial), targets)
        && nextSerial == old(nextSerial) + |targets|
        && connOps == old(connOps) + OfferOps(old(nextSerial), localStream.value, targets)
        && outbox == old(outbox) + Offers(old(nextSerial), targets)
    {
      ghost var stream := if localStream.Some? then localStream.value else 0;
      ghost var targets: seq<UserId> := [];
      for i := 0 to |users|
        invariant Valid()
        invariant targets == Others(users[..i], userId)
        invariant localStream.None? ==> targets == []
        invariant peerConnections == Connected(old(peerConnections), old(nextSerial), targets)
        invariant nextSerial == old(nextSerial) + |targets|
        invariant connOps == old(connOps) + OfferOps(old(nextSerial), stream, targets)
        invariant outbox == old(outbox) + Offers(old(nextSerial), targets)
      {
        assert users[..i + 1] == users[..i] + [users[i]];
        if Some(users[i]) != userId {
          var ok := ConnectNext(users[i], old(nextSerial), stream, old(peerConnections), old(connOps), old(outbox), targets);
          if !ok {
            assert old(localStream).None? && targets == [];
            return;
          }
          targets := targets + [users[i]];
        }
      }
      assert users[..|users|] == users;
      assert targets == Others(users, userId);
    }

    /**
     * One iteration of the 'room-users' loop, for a listed user other than
     * the local one; `targets` are the users the loop has connected to so far.
     */
    method ConnectNext(user: UserId, ghost serial: nat, ghost stream: StreamId, ghost pcs: map<UserId, Conn>,
                       ghost ops: seq<ConnOp>, ghost sent: seq<Emit>, ghost targets: seq<UserId>) returns (ok: bool)
      requires Valid()
      requires localStream.Some? ==> localStream.value == stream
      requires peerConnections == Connected(pcs, serial, targets) && nextSerial == serial + |targets|
      requires connOps == ops + OfferOps(serial, stream, targets) && outbox == sent + Offers(serial, targets)
      modifies this`peerConnections, this`nextSerial, this`connOps, this`outbox
      ensures Valid()
      ensures ok <==> localStream.Some?
      ensures !ok ==>
        peerConnections == old(peerConnections) && nextSerial == old(nextSerial)
        && connOps == old(connOps) && outbox == old(outbox)
      ensures ok ==>
        && peerConnections == Connected(pcs, serial, targets + [user]) && nextSerial == serial + |targets| + 1
        && connOps == ops + OfferOps(serial, stream, targets + [user]) && outbox == sent + Offers(serial, targets + [user])
    {
      ok := Connect(user);
      assert (targets + [user])[..|targets|] == targets;
    }

    /** 'user-connected': a fresh connection for the newcomer and an offer to it. */
    method OnUserConnected(user: UserId)
      requires Valid()
      modifies this`peerConnections, this`nextSerial, this`connOps, this`outbox
      ensures Valid()
      ensures old(localStream).None? ==>
        peerConnections == old(peerConnections) && nextSerial == old(nextSerial)
        && connOps == old(connOps) && outbox == old(outbox)
      ensures old(localStream).Some? ==>
        var c := Conn(old(nextSerial), user);
        && peerConnections == old(peerConnections)[user := c]
        && nextSerial == old(nextSerial) + 1
        && connOps == old(connOps) + [AddTracks(c, localStream.value), SetLocalDescription(c, OfferSdp(c))]
        && outbox == old(outbox) + [SendOffer(user, OfferSdp(c))]
    {
      var ok := Connect(user);
    }

    /** `await createPeerConnection(user); await createOffer(user)`; false when the first call throws. */
    method Connect(user: UserId) returns (ok: bool)
      requires Valid()
      modifies this`peerConnections, this`nextSerial, this`connOps, this`outbox
      ensures Valid()
      ensures ok <==> old(localStream).Some?
      ensures !ok ==>
        peerConnections == old(peerConnections) && nextSerial == old(nextSerial)
        && connOps == old(connOps) && outbox == old(outbox)
      ensures ok ==>
        var c := Conn(old(nextSerial), user);
        && peerConnections == old(peerConnections)[user := c]
        && nextSerial == old(nextSerial) + 1
        && connOps == old(connOps) + [AddTracks(c, localStream.value), SetLocalDescription(c, OfferSdp(c))]
        && outbox == old(outbox) + [SendOffer(user, OfferSdp(c))]
    {
      ok := CreatePeerConnection(user);
      if ok {
        var offered := CreateOffer(user);
      }
    }

    /**
     * 'offer': the sender's entry is reused, or created when missing; the
     * offer becomes its remote description and exactly one answer goes back
     * to the sender.
     */
    method OnOffer(sender: UserId, sdp: Sdp)
      requires Valid()
      modifies this`peerConnections, this`nextSerial, this`connOps, this`outbox
      ensures Valid()
      ensures sender in old(peerConnections) ==>
        var c := old(peerConnections)[sender];
        && peerConnections == old(peerConnections) && nextSerial == old(nextSerial)
        && connOps == old(connOps) + [SetRemoteDescription(c, sdp), SetLocalDescription(c, AnswerSdp(c))]
        && outbox == old(outbox) + [SendAnswer(sender, AnswerSdp(c))]
      ensures sender !in old(peerConnections) && old(localStream).None? ==>
        peerConnections == old(peerConnections) && nextSerial == old(nextSerial)
        && connOps == old(connOps) && outbox == old(outbox)
      ensures sender !in old(peerConnections) && old(localStream).Some? ==>
        var c := Conn(old(nextSerial), sender);
        && peerConnections == old(peerConnections)[sender := c] && nextSerial == old(nextSerial) + 1
        && connOps == old(connOps) + [AddTracks(c, localStream.value), SetRemoteDescription(c, sdp), SetLocalDescription(c, AnswerSdp(c))]
        && outbox == old(outbox) + [SendAnswer(sender, AnswerSdp(c))]
    {
      if sender !in peerConnections {
        var created := CreatePeerConnection(sender);
        if !created {
          return;
        }
      }
      var peerConnection := peerConnections[sender];
      connOps := connOps + [SetRemoteDescription(peerConnection, sdp)];
      var answer := AnswerSdp(peerConnection);
      connOps := connOps + [SetLocalDescription(peerConnection, answer)];
      outbox := outbox + [SendAnswer(sender, answer)];
    }

    /** 'answer': applied to the sender's entry; a sender without one is ignored. */
    method OnAnswer(sender: UserId, sdp: Sdp)
      modifies this`connOps
      ensures sender !in peerConnections ==> connOps == old(connOps)
      ensures sender in peerConnections ==> connOps == old(connOps) + [SetRemoteDescription(peerConnections[sender], sdp)]
    {
      if sender in peerConnections {
        connOps := connOps + [SetRemoteDescription(peerConnections[sender], sdp)];
      }
    }

    /** 'ice-candidate': added to the sender's entry; a sender without one is ignored. */
    method OnIceCandidate(sender: UserId, candidate: string)
      modifies this`connOps
      ensures sender !in peerConnections ==> connOps == old(connOps)
      ensures sender in peerConnections ==> connOps == old(connOps) + [AddIceCandidate(peerConnections[sender], candidate)]
    {
      if sender in peerConnections {
        connOps := connOps + [AddIceCandidate(peerConnections[sender], candidate)];
      }
    }

    /**
     * 'user-disconnected': that user's entry alone is closed and deleted; the
     * result says whether the disconnect callback was called.
     */
    method OnUserDisconnected(user: UserId) returns (notified: bool)
      requires Valid()
      modifies this`peerConnections, this`connOps
      ensures Valid()
      ensures notified == onUserDisconnected
      ensures user !in old(peerConnections) ==> peerConnections == old(peerConnections) && connOps == old(connOps)
      ensures user in old(peerConnections) ==>
        peerConnections == old(peerConnections) - {user} && connOps == old(connOps) + [Close(old(peerConnections)[user])]
    {
      if user in peerConnections {
        connOps := connOps + [Close(peerConnections[user])];
        peerConnections := peerConnections - {user};
      }
      notified := onUserDisconnected;
    }

    /**
     * A connection's `onicecandidate` handler: a gathered candidate is sent
     * to the user the connection was made for; the end-of-candidates event
     * (a null candidate) sends nothing.
     */
    method OnLocalIceCandidate(conn: Conn, candidate: Option<string>)
      modifies this`outbox
      ensures candidate.None? ==> outbox == old(outbox)
      ensures candidate.Some? ==> outbox == old(outbox) + [SendIceCandidate(conn.peer, candidate.value)]
    {
      if candidate.Some? {
        outbox := outbox + [SendIceCandidate(conn.peer, candidate.value)];
      }
    }

    /**
     * `disconnect`: every connection is closed (`order` is the order the loop
     * took), the local tracks are stopped, and the table and the stream are
     * cleared.
     */
    method Disconnect() returns (order: seq<UserId>)
      requires Valid()
      modifies this
      ensures Valid()
      ensures peerConnections == map[] && localStream == None
      ensures forall u :: u in order <==> u in old(peerConnections)
      ensures forall i, j :: 0 <= i < j < |order| ==> order[i] != order[j]
      ensures connOps == old(connOps) + Closes(old(peerConnections), order)
                         + (if old(localStream).Some? then [StopTracks(old(localStream).value)] else [])
      ensures outbox == old(outbox) && nextSerial == old(nextSerial)
      ensures userId == old(userId) && roomId == old(roomId) && onUserDisconnected == old(onUserDisconnected)
    {
      order := KeyOrder(peerConnections.Keys);
      CloseAll(order);
      if localStream.Some? {
        connOps := connOps + [StopTracks(localStream.value)];
      }
      peerConnections := map[];
      localStream := None;
    }

    /** The loop of `disconnect`: `close()` on each entry, in `order`. */
    method CloseAll(order: seq<UserId>)
      requires forall j :: 0 <= j < |order| ==> order[j] in peerConnections
      modifies this`connOps
      ensures connOps == old(connOps) + Closes(peerConnections, order)
    {
      for i := 0 to |order|
        invariant connOps == old(connOps) + Closes(peerConnections, order[..i])
      {
        assert order[..i + 1][..i] == order[..i];
        connOps := connOps + [Close(peerConnections[order[i]])];
      }
      assert order[..|order|] == order;
    }
  }

  // ---------------------------------------------------------------- properties

  /** The local id is never offered to; every other listed id is. */
  lemma {:induction false} OthersMembers(users: seq<UserId>, self: Option<UserId>)
    ensures forall u :: u in Others(users, self) <==> u in users && Some(u) != self
  {
    if users != [] {
      OthersMembers(users[..|users| - 1], self);
      assert users == users[..|users| - 1] + [users[|users| - 1]];
    }
  }

  /**
   * After 'room-users' the table holds the old entries and one for each
   * target; each target's entry is the connection made for it last, and
   * entries of other users are untouched.
   */
  lemma {:induction false} ConnectedEntries(pcs: map<UserId, Conn>, serial: nat, targets: seq<UserId>)
    ensures var after := Connected(pcs, serial, targets);
      && (forall u :: u in after <==> u in pcs || u in targets)
      && (forall u :: u in after && u !in targets ==> after[u] == pcs[u])
      && (forall u :: u in targets ==> after[u].peer == u && serial <= after[u].serial < serial + |targets|)
  {
    if targets != [] {
      ConnectedEntries(pcs, serial, targets[..|targets| - 1]);
      assert targets == targets[..|targets| - 1] + [targets[|targets| - 1]];
    }
  }

  /** The entry of a target is the connection made at its last place in the list. */
  lemma {:induction false} ConnectedLastWins(pcs: map<UserId, Conn>, serial: nat, targets: seq<UserId>, k: nat)
    requires k < |targets| && targets[k] !in targets[k + 1..]
    ensures var after := Connected(pcs, serial, targets);
      targets[k] in after && after[targets[k]] == Conn(serial + k, targets[k])
  {
    var init := targets[..|targets| - 1];
    var last := targets[|targets| - 1];
    if k < |init| {
      assert targets[k + 1..] == init[k + 1..] + [last];
      assert targets[k] == init[k] && targets[k] != last;
      ConnectedLastWins(pcs, serial, init, k);
    }
  }

  /** The k-th offer sent by 'room-users' goes to the k-th target and carries that target's new connection. */
  lemma {:induction false} OffersInOrder(serial: nat, targets: seq<UserId>)
    ensures |Offers(serial, targets)| == |targets|
    ensures forall k :: 0 <= k < |targets| ==>
      Offers(serial, targets)[k] == SendOffer(targets[k], OfferSdp(Conn(serial + k, targets[k])))
  {
    if targets != [] {
      OffersInOrder(serial, targets[..|targets| - 1]);
    }
  }

  /**
   * `disconnect` makes one `close()` per visited key, in visiting order; when
   * the order lists distinct keys of a table whose entries belong to their
   * keys, no connection is closed twice.
   */
  lemma {:induction false} ClosesEvery(pcs: map<UserId, Conn>, order: seq<UserId>)
    requires forall j :: 0 <= j < |order| ==> order[j] in pcs
    ensures |Closes(pcs, order)| == |order|
    ensures forall j :: 0 <= j < |order| ==> Closes(pcs, order)[j] == Close(pcs[order[j]])
    ensures (forall i, j :: 0 <= i < j < |order| ==> order[i] != order[j]) && (forall u :: u in pcs ==> pcs[u].peer == u) ==>
      forall i, j :: 0 <= i < j < |order| ==> Closes(pcs, order)[i] != Closes(pcs, order)[j]
  {
    if order != [] {
      ClosesEvery(pcs, order[..|order| - 1]);
    }
  }
}
