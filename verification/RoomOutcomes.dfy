/**
 What a relay does with one thing that happens at a socket, outcome by outcome: who is told what, and when
 a socket is rejected (apps/remote-relay/src/remote-pair-room.ts, packages/remote-control/src/fake-relay.ts).
 */
module RoomOutcomes {
  import opened Results
  import opened RemoteCrypto
  import opened RemoteConnection
  import opened FakeRelay
  import opened RemotePairRoom

  // The deployed room

  // The socket that frames for a role go to.
  predicate Reaches(sockets: Sockets, role: Role, k: nat) {
    k < |sockets| && sockets[k].open && sockets[k].role == role && sockets[k].authenticated
  }

  predicate Reachable(sockets: Sockets, role: Role) {
    exists k | 0 <= k < |sockets| :: Reaches(sockets, role, k)
  }

  lemma ReachedSocket(sockets: Sockets, role: Role, k: nat)
    requires RoomInv(sockets) && Reaches(sockets, role, k)
    ensures Authenticated(sockets, role) == [k]
  {
    OnlyAuthenticated(sockets, role, 0, k);
  }

  lemma {:induction false} NoneReached(sockets: Sockets, role: Role, i: nat)
    requires i <= |sockets| && !Reachable(sockets, role)
    ensures AuthenticatedFrom(sockets, role, i) == []
    decreases |sockets| - i
  {
    if i < |sockets| {
      assert !Reaches(sockets, role, i);
      NoneReached(sockets, role, i + 1);
    }
  }

  // A line that a socket must not send: what is no frame, anything but a hello of its role before it has
  // said one, and afterwards anything but a sealed frame.
  predicate Forbidden(socket: Socket, line: Line) {
    match line
    case Keepalive => false
    case Unparseable => true
    case Parsed(frame) =>
      if socket.authenticated then !frame.SealedFrame? else !(frame.Hello? && frame.hello.role == socket.role)
  }

  // A socket is rejected exactly for a forbidden line; it is closed, and nothing else happens.
  lemma RejectedExactly(sockets: Sockets, i: nat, line: Line)
    requires i < |sockets|
    ensures
      var result := AfterLine(sockets, i, line);
      && (result.rejected <==> Forbidden(sockets[i], line))
      && (result.rejected ==> result.sockets == sockets[i := sockets[i].(open := false)])
      && (line.Keepalive? ==> result.sockets == sockets)
  {
    hide AfterAcceptHello, AfterForward;
  }

  // A sealed frame goes to the socket of the other role, or its sender is told that there is none.
  lemma ForwardOutcome(sockets: Sockets, i: nat, sealed: Sealed)
    requires RoomInv(sockets) && i < |sockets| && sockets[i].authenticated
    ensures
      var after, other := AfterLine(sockets, i, Parsed(SealedFrame(sealed))).sockets, Opposite(sockets[i].role);
      && (forall k: nat | Reaches(sockets, other, k) ::
            after == sockets[k := sockets[k].(sent := sockets[k].sent + [SealedFrame(sealed)])])
      && (!Reachable(sockets, other) ==> after == sockets[i := sockets[i].(sent := sockets[i].sent + [PeerStatus(false)])])
  {
    hide RoomInv, Authenticated;
    var other := Opposite(sockets[i].role);
    forall k: nat | Reaches(sockets, other, k)
      ensures Authenticated(sockets, other) == [k]
    {
      ReachedSocket(sockets, other, k);
    }
    if !Reachable(sockets, other) {
      NoneReached(sockets, other, 0);
      NoneAtAll(sockets, other);
    }
  }

  lemma NoneAtAll(sockets: Sockets, role: Role)
    requires AuthenticatedFrom(sockets, role, 0) == []
    ensures Authenticated(sockets, role) == []
  {
  }

  predicate Whole(hello: Option<HelloInfo>) {
    hello.Some? && hello.value.connectionId != "" && hello.value.identityKey != [] && hello.value.ephemeralKey != []
  }

  // `told` is `sockets` with one frame more for socket `k`.
  predicate OneMoreFor(sockets: Sockets, told: Sockets, k: nat, frame: Frame) {
    |told| == |sockets| && k < |sockets| && told[k].sent == sockets[k].sent + [frame]
  }

  // A first hello is stored. When each role then has a socket with a whole hello, each of these is sent
  // the acknowledgement of its own connection with the keys of the other; otherwise nobody is sent anything.
  lemma HelloOutcome(sockets: Sockets, i: nat, hello: HelloInfo, m: nat, d: nat)
    requires RoomInv(sockets) && i < |sockets| && !sockets[i].authenticated && hello.role == sockets[i].role
    ensures
      var after := AfterLine(sockets, i, Parsed(Hello(hello))).sockets;
      var stored := sockets[i := sockets[i].(authenticated := true, hello := Some(hello))];
      && OnlySent(stored, after)
      && (Reaches(stored, Mobile, m) && Reaches(stored, Desktop, d) && Whole(stored[m].hello) && Whole(stored[d].hello) ==>
            var mobile, desktop := stored[m].hello.value, stored[d].hello.value;
            && OneMoreFor(stored, after, m, HelloAck(AckInfo(mobile.connectionId, desktop.identityKey, desktop.ephemeralKey)))
            && OneMoreFor(stored, after, d, HelloAck(AckInfo(desktop.connectionId, mobile.identityKey, mobile.ephemeralKey)))
            && forall k | 0 <= k < |stored| && k != m && k != d :: after[k] == stored[k])
      && (Reaches(stored, Mobile, m) && Reaches(stored, Desktop, d) && !(Whole(stored[m].hello) && Whole(stored[d].hello)) ==>
            after == stored)
      && (!Reachable(stored, Mobile) || !Reachable(stored, Desktop) ==> after == stored)
  {
    hide RoomInv, Authenticated;
    var stored := sockets[i := sockets[i].(authenticated := true, hello := Some(hello))];
    HelloKeepsInv(sockets, i, hello);
    AcknowledgeOnlySends(stored);
    forall role | role == Mobile || role == Desktop
      ensures forall k: nat | Reaches(stored, role, k) :: Authenticated(stored, role) == [k]
      ensures !Reachable(stored, role) ==> Authenticated(stored, role) == []
    {
      forall k: nat | Reaches(stored, role, k)
        ensures Authenticated(stored, role) == [k]
      {
        ReachedSocket(stored, role, k);
      }
      if !Reachable(stored, role) {
        NoneReached(stored, role, 0);
        NoneAtAll(stored, role);
      }
    }
  }

  // A message is handled line by line up to the first forbidden one, for which the socket is closed; so it
  // is for a message without a line or of the wrong shape.
  lemma MessageOutcome(sockets: Sockets, i: nat, wellShaped: bool, lines: seq<Line>)
    requires i < |sockets|
    ensures
      var after := AfterMessage(sockets, i, wellShaped, lines);
      if !wellShaped || lines == [] then after == sockets[i := sockets[i].(open := false)]
      else if Forbidden(sockets[i], lines[0]) then after == sockets[i := sockets[i].(open := false)]
      else if |lines| == 1 then after == AfterLine(sockets, i, lines[0]).sockets
      else after == AfterMessage(AfterLine(sockets, i, lines[0]).sockets, i, true, lines[1..])
  {
    hide AfterLine;
    if lines != [] {
      RejectedExactly(sockets, i, lines[0]);
      var after := AfterLine(sockets, i, lines[0]).sockets;
      assert AfterLines(after, i, []) == after;
      assert |lines| == 1 ==> lines[1..] == [];
    }
  }

  // A new socket takes the place of those of its role; they are closed, and all others stay.
  lemma AcceptOutcome(sockets: Sockets, role: Role)
    ensures
      var after := AfterAccept(sockets, role);
      && |after| == |sockets| + 1
      && after[|sockets|] == Socket(role, true, true, false, false, None, [])
      && forall k | 0 <= k < |sockets| ::
           after[k] == if sockets[k].listed && sockets[k].role == role then sockets[k].(open := false, superseded := true) else sockets[k]
  {
  }

  // The other role is told that its peer went away exactly if the socket that closes had said hello and
  // had not been superseded; nobody else notices.
  lemma CloseOutcome(sockets: Sockets, i: nat)
    requires RoomInv(sockets) && i < |sockets|
    ensures
      var after, gone := AfterSocketClose(sockets, i), sockets[i := sockets[i].(open := false, listed := false)];
      var other := Opposite(sockets[i].role);
      && (sockets[i].authenticated && !sockets[i].superseded ==>
            && (forall k: nat | Reaches(gone, other, k) ::
                  after == gone[k := gone[k].(sent := gone[k].sent + [PeerStatus(false)])])
            && (!Reachable(gone, other) ==> after == gone))
      && (!sockets[i].authenticated || sockets[i].superseded ==> after == gone)
  {
    hide Authenticated;
    var gone, other := sockets[i := sockets[i].(open := false, listed := false)], Opposite(sockets[i].role);
    assert RoomInv(gone);
    hide RoomInv;
    forall k: nat | Reaches(gone, other, k)
      ensures Authenticated(gone, other) == [k]
      ensures AllSent(gone, [k], PeerStatus(false)) == Sent(gone, k, PeerStatus(false))
    {
      ReachedSocket(gone, other, k);
      SentToOne(gone, k, PeerStatus(false));
    }
    if !Reachable(gone, other) {
      NoneReached(gone, other, 0);
      NoneAtAll(gone, other);
    }
  }

  // The relay in memory

  // A frame is accepted exactly from the registered transport of the role, and only a hello or a sealed one.
  lemma AcceptedExactly(room: Room, transport: nat, role: Role, frame: Frame)
    ensures AfterSend(room, transport, role, frame).Some? <==>
            && transport in room.connected && SlotOf(room, role).Some? && SlotOf(room, role).value.transport == transport
            && (frame.Hello? || frame.SealedFrame?)
  {
  }

  // A transport that joins is registered without a hello, and whoever held its role is cut off.
  lemma JoinOutcome(room: Room, transport: nat, role: Role)
    ensures
      var after := AfterJoin(room, transport, role);
      && SlotOf(after, role) == Some(Slot(transport, None)) && SlotOf(after, Opposite(role)) == SlotOf(room, Opposite(role))
      && after.inboxes == room.inboxes
      && forall t :: t in after.connected <==>
           t == transport || (t in room.connected && !(SlotOf(room, role).Some? && SlotOf(room, role).value.transport == t))
  {
  }

  // A transport that leaves gives up its role if it holds it, and then the other role is told.
  lemma LeaveOutcome(room: Room, transport: nat, role: Role)
    requires transport in room.connected
    ensures
      var after, other := AfterLeave(room, transport, role), SlotOf(room, Opposite(role));
      && after.connected == room.connected - {transport}
      && SlotOf(after, Opposite(role)) == other
      && SlotOf(after, role) == (if Occupies(room, transport, role) then None else SlotOf(room, role))
      && forall t: nat ::
           InboxOf(after, t) == InboxOf(room, t) +
             if Occupies(room, transport, role) && other.Some? && other.value.transport == t && t in after.connected
             then [PeerStatus(false)] else []
  {
  }
}
