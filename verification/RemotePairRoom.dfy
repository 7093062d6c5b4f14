/**
 The deployed relay room (apps/remote-relay/src/remote-pair-room.ts): it keeps one socket per role,
 remembers each side's `hello` in the socket's attachment, and forwards sealed frames.

 Sockets are numbered in the order in which they were accepted. `listed` sockets are those that the
 runtime still returns, `open` those whose state is OPEN; `sent` is everything sent to the socket.
 Authorization of the upgrade request and the expiry alarm are not modelled.
 */
module RemotePairRoom {
  import opened Results
  import opened RemoteCrypto
  import opened RemoteConnection
  import opened FakeRelay

  datatype Socket = Socket(
    role: Role,
    open: bool,
    listed: bool,
    authenticated: bool,
    superseded: bool,
    hello: Option<HelloInfo>,
    sent: seq<Frame>)

  type Sockets = seq<Socket>

  datatype Line = Keepalive | Unparseable | Parsed(frame: Frame)

  function Sent(sockets: Sockets, i: nat, frame: Frame): Sockets
    requires i < |sockets|
  {
    sockets[i := sockets[i].(sent := sockets[i].sent + [frame])]
  }

  predicate IsAuthenticated(socket: Socket, role: Role) {
    socket.listed && socket.role == role && socket.open && socket.authenticated
  }

  function AuthenticatedFrom(sockets: Sockets, role: Role, i: nat): (found: seq<nat>)
    requires i <= |sockets|
    ensures forall n | 0 <= n < |found| :: i <= found[n] < |sockets| && IsAuthenticated(sockets[found[n]], role)
    decreases |sockets| - i
  {
    if i == |sockets| then []
    else (if IsAuthenticated(sockets[i], role) then [i] else []) + AuthenticatedFrom(sockets, role, i + 1)
  }

  function Authenticated(sockets: Sockets, role: Role): (found: seq<nat>)
    ensures forall n | 0 <= n < |found| :: found[n] < |sockets| && IsAuthenticated(sockets[found[n]], role)
  {
    AuthenticatedFrom(sockets, role, 0)
  }

  function Superseded(sockets: Sockets, role: Role): Sockets {
    seq(|sockets|, i requires 0 <= i < |sockets| =>
      if sockets[i].listed && sockets[i].role == role then sockets[i].(superseded := true, open := false) else sockets[i])
  }

  function AfterAccept(sockets: Sockets, role: Role): Sockets {
    Superseded(sockets, role) + [Socket(role, true, true, false, false, None, [])]
  }

  function Rejected(sockets: Sockets, i: nat): Sockets
    requires i < |sockets|
  {
    sockets[i := sockets[i].(open := false)]
  }

  predicate IsComplete(hello: HelloInfo) {
    hello.connectionId != "" && hello.identityKey != [] && hello.ephemeralKey != []
  }

  function AfterAcknowledgePair(sockets: Sockets): Sockets {
    var mobiles, desktops := Authenticated(sockets, Mobile), Authenticated(sockets, Desktop);
    if mobiles == [] || desktops == [] || sockets[mobiles[0]].hello.None? || sockets[desktops[0]].hello.None? then sockets
    else
      var m, d := sockets[mobiles[0]].hello.value, sockets[desktops[0]].hello.value;
      if !IsComplete(m) || !IsComplete(d) then sockets
      else Sent(Sent(sockets, mobiles[0], HelloAck(AckFor(m, d))), desktops[0], HelloAck(AckFor(d, m)))
  }

  function AfterAcceptHello(sockets: Sockets, i: nat, hello: HelloInfo): Sockets
    requires i < |sockets|
  {
    AfterAcknowledgePair(sockets[i := sockets[i].(authenticated := true, hello := Some(hello))])
  }

  function AfterForward(sockets: Sockets, i: nat, frame: Frame): Sockets
    requires i < |sockets|
  {
    var peers := Authenticated(sockets, Opposite(sockets[i].role));
    if peers == [] then Sent(sockets, i, PeerStatus(false)) else Sent(sockets, peers[0], frame)
  }

  datatype LineResult = LineResult(sockets: Sockets, rejected: bool)

  function AfterLine(sockets: Sockets, i: nat, line: Line): (result: LineResult)
    requires i < |sockets|
    ensures |result.sockets| == |sockets|
  {
    match line
    case Keepalive => LineResult(sockets, false)
    case Unparseable => LineResult(Rejected(sockets, i), true)
    case Parsed(frame) =>
      if !sockets[i].authenticated then
        if frame.Hello? && frame.hello.role == sockets[i].role then LineResult(AfterAcceptHello(sockets, i, frame.hello), false)
        else LineResult(Rejected(sockets, i), true)
      else if !frame.SealedFrame? then LineResult(Rejected(sockets, i), true)
      else LineResult(AfterForward(sockets, i, frame), false)
  }

  function AfterLines(sockets: Sockets, i: nat, lines: seq<Line>): (after: Sockets)
    requires i < |sockets|
    ensures |after| == |sockets|
    decreases |lines|
  {
    if lines == [] then sockets
    else
      var result := AfterLine(sockets, i, lines[0]);
      if result.rejected then result.sockets else AfterLines(result.sockets, i, lines[1..])
  }

  // A message that is too long, not a text, or has no line.
  function AfterMessage(sockets: Sockets, i: nat, wellShaped: bool, lines: seq<Line>): Sockets
    requires i < |sockets|
  {
    if !wellShaped || lines == [] then Rejected(sockets, i) else AfterLines(sockets, i, lines)
  }

  function AllSent(sockets: Sockets, to: seq<nat>, frame: Frame): (after: Sockets)
    requires forall n | 0 <= n < |to| :: to[n] < |sockets|
    ensures |after| == |sockets|
    decreases |to|
  {
    if to == [] then sockets else AllSent(Sent(sockets, to[0], frame), to[1..], frame)
  }

  // The close event, when the socket is gone.
  function AfterSocketClose(sockets: Sockets, i: nat): Sockets
    requires i < |sockets|
  {
    var gone := sockets[i := sockets[i].(open := false, listed := false)];
    if !sockets[i].superseded && sockets[i].authenticated
    then AllSent(gone, Authenticated(gone, Opposite(sockets[i].role)), PeerStatus(false))
    else gone
  }

  class PairRoom {
    var sockets: Sockets

    constructor ()
      ensures sockets == []
    {
      sockets := [];
    }

    method Send(i: nat, frame: Frame)
      requires i < |sockets|
      modifies this
      ensures sockets == Sent(old(sockets), i, frame)
    {
      sockets := sockets[i := sockets[i].(sent := sockets[i].sent + [frame])];
    }

    method AuthenticatedSockets(role: Role) returns (found: seq<nat>)
      ensures found == Authenticated(sockets, role)
    {
      found := [];
      var i := |sockets|;
      while i > 0
        invariant 0 <= i <= |sockets|
        invariant found == AuthenticatedFrom(sockets, role, i)
      {
        i := i - 1;
        if IsAuthenticated(sockets[i], role) {
          found := [i] + found;
        } else {
          assert [] + found == found;
        }
      }
    }

    // Returns the number of the new socket.
    method Accept(role: Role) returns (number: nat)
      modifies this
      ensures sockets == AfterAccept(old(sockets), role)
      ensures number == |old(sockets)|
    {
      for i := 0 to |sockets|
        invariant |sockets| == |old(sockets)|
        invariant forall k | 0 <= k < |sockets| ::
          sockets[k] == if k < i then Superseded(old(sockets), role)[k] else old(sockets)[k]
      {
        if sockets[i].listed && sockets[i].role == role {
          sockets := sockets[i := sockets[i].(superseded := true, open := false)];
        }
      }
      assert sockets == Superseded(old(sockets), role);
      number := |sockets|;
      sockets := sockets + [Socket(role, true, true, false, false, None, [])];
    }

    method RejectSocket(i: nat)
      requires i < |sockets|
      modifies this
      ensures sockets == Rejected(old(sockets), i)
    {
      sockets := sockets[i := sockets[i].(open := false)];
    }

    method AcknowledgePair()
      modifies this
      ensures sockets == AfterAcknowledgePair(old(sockets))
    {
      var mobiles := AuthenticatedSockets(Mobile);
      var desktops := AuthenticatedSockets(Desktop);
      if mobiles == [] || desktops == [] {
        return;
      }
      var mobile, desktop := sockets[mobiles[0]].hello, sockets[desktops[0]].hello;
      if mobile.None? || desktop.None? || !IsComplete(mobile.value) || !IsComplete(desktop.value) {
        return;
      }
      Send(mobiles[0], HelloAck(AckFor(mobile.value, desktop.value)));
      Send(desktops[0], HelloAck(AckFor(desktop.value, mobile.value)));
    }

    method AcceptHello(i: nat, hello: HelloInfo)
      requires i < |sockets|
      modifies this
      ensures sockets == AfterAcceptHello(old(sockets), i, hello)
    {
      sockets := sockets[i := sockets[i].(authenticated := true, hello := Some(hello))];
      AcknowledgePair();
    }

    method ForwardSealed(i: nat, frame: Frame)
      requires i < |sockets|
      modifies this
      ensures sockets == AfterForward(old(sockets), i, frame)
    {
      var peers := AuthenticatedSockets(Opposite(sockets[i].role));
      if peers == [] {
        Send(i, PeerStatus(false));
        return;
      }
      Send(peers[0], frame);
    }

    method WebSocketMessage(i: nat, wellShaped: bool, lines: seq<Line>)
      requires i < |sockets|
      modifies this
      ensures sockets == AfterMessage(old(sockets), i, wellShaped, lines)
    {
      hide AfterAcceptHello, AfterForward;
      if !wellShaped || lines == [] {
        RejectSocket(i);
        return;
      }
      for n := 0 to |lines|
        invariant |sockets| == |old(sockets)|
        invariant AfterLines(old(sockets), i, lines) == AfterLines(sockets, i, lines[n..])
      {
        var line := lines[n];
        assert lines[n..][1..] == lines[n + 1..];
        if line == Keepalive {
          continue;
        }
        if line == Unparseable {
          RejectSocket(i);
          return;
        }
        if !sockets[i].authenticated {
          if !line.frame.Hello? || line.frame.hello.role != sockets[i].role {
            RejectSocket(i);
            return;
          }
          ghost var result := AfterLine(sockets, i, line);
          AcceptHello(i, line.frame.hello);
          assert sockets == result.sockets;
          continue;
        }
        if !line.frame.SealedFrame? {
          RejectSocket(i);
          return;
        }
        ghost var result := AfterLine(sockets, i, line);
        ForwardSealed(i, line.frame);
        assert sockets == result.sockets;
      }
    }

    method WebSocketClose(i: nat)
      requires i < |sockets|
      modifies this
      ensures sockets == AfterSocketClose(old(sockets), i)
    {
      var socket := sockets[i];
      sockets := sockets[i := socket.(open := false, listed := false)];
      if !socket.superseded && socket.authenticated {
        var peers := AuthenticatedSockets(Opposite(socket.role));
        ghost var gone := sockets;
        for n := 0 to |peers|
          invariant |sockets| == |gone|
          invariant AllSent(gone, peers, PeerStatus(false)) == AllSent(sockets, peers[n..], PeerStatus(false))
        {
          Send(peers[n], PeerStatus(false));
        }
      }
    }

    method WebSocketError(i: nat)
      requires i < |sockets|
      modifies this
      ensures sockets == Rejected(old(sockets), i)
    {
      sockets := sockets[i := sockets[i].(open := false)];
    }
  }

  // What every run keeps

  datatype RoomEvent =
    | Accepted(role: Role)
    | Message(socket: nat, wellShaped: bool, lines: seq<Line>)
    | SocketClosed(socket: nat)
    | SocketError(socket: nat)

  function Step(sockets: Sockets, e: RoomEvent): Sockets {
    match e
    case Accepted(role) => AfterAccept(sockets, role)
    case Message(i, wellShaped, lines) =>
      if i < |sockets| && sockets[i].listed then AfterMessage(sockets, i, wellShaped, lines) else sockets
    case SocketClosed(i) => if i < |sockets| && sockets[i].listed then AfterSocketClose(sockets, i) else sockets
    case SocketError(i) => if i < |sockets| && sockets[i].listed then Rejected(sockets, i) else sockets
  }

  function RunRoom(events: seq<RoomEvent>): Sockets {
    if events == [] then [] else Step(RunRoom(events[..|events| - 1]), events[|events| - 1])
  }

  // At most one socket of each role is open; it has not been replaced; its hello names its role.
  ghost predicate RoomInv(sockets: Sockets) {
    && (forall i | 0 <= i < |sockets| ::
          && (sockets[i].open ==> sockets[i].listed && !sockets[i].superseded)
          && (sockets[i].authenticated <==> sockets[i].hello.Some?)
          && (sockets[i].hello.Some? ==> sockets[i].hello.value.role == sockets[i].role))
    && forall i, j | 0 <= i < j < |sockets| :: sockets[i].open && sockets[j].open ==> sockets[i].role != sockets[j].role
  }

  // Everything but what was sent is as before.
  predicate OnlySent(before: Sockets, after: Sockets) {
    |before| == |after| && forall i | 0 <= i < |before| :: after[i].(sent := before[i].sent) == before[i]
  }

  lemma OnlySentKeepsInv(before: Sockets, after: Sockets)
    requires RoomInv(before) && OnlySent(before, after)
    ensures RoomInv(after)
  {
    forall i | 0 <= i < |after|
      ensures after[i].open == before[i].open && after[i].role == before[i].role && after[i].listed == before[i].listed
      ensures after[i].superseded == before[i].superseded && after[i].authenticated == before[i].authenticated
      ensures after[i].hello == before[i].hello
    {
      assert after[i].(sent := before[i].sent) == before[i];
    }
  }

  lemma {:induction false} AllSentOnlySends(sockets: Sockets, to: seq<nat>, frame: Frame)
    requires forall n | 0 <= n < |to| :: to[n] < |sockets|
    ensures OnlySent(sockets, AllSent(sockets, to, frame))
    decreases |to|
  {
    if to != [] {
      AllSentOnlySends(Sent(sockets, to[0], frame), to[1..], frame);
    }
  }

  lemma AcknowledgeOnlySends(sockets: Sockets)
    ensures OnlySent(sockets, AfterAcknowledgePair(sockets))
  {
  }

  lemma ForwardOnlySends(sockets: Sockets, i: nat, frame: Frame)
    requires i < |sockets|
    ensures OnlySent(sockets, AfterForward(sockets, i, frame))
  {
  }

  lemma HelloKeepsInv(sockets: Sockets, i: nat, hello: HelloInfo)
    requires RoomInv(sockets) && i < |sockets| && hello.role == sockets[i].role
    ensures RoomInv(sockets[i := sockets[i].(authenticated := true, hello := Some(hello))])
  {
  }

  lemma LineKeepsInv(sockets: Sockets, i: nat, line: Line)
    requires RoomInv(sockets) && i < |sockets|
    ensures RoomInv(AfterLine(sockets, i, line).sockets)
  {
    hide RoomInv, AfterAcknowledgePair, AfterForward, Rejected;
    RejectKeepsInv(sockets, i);
    if line.Parsed? && !sockets[i].authenticated && line.frame.Hello? && line.frame.hello.role == sockets[i].role {
      var registered := sockets[i := sockets[i].(authenticated := true, hello := Some(line.frame.hello))];
      HelloKeepsInv(sockets, i, line.frame.hello);
      AcknowledgeOnlySends(registered);
      OnlySentKeepsInv(registered, AfterAcknowledgePair(registered));
    } else if line.Parsed? && sockets[i].authenticated && line.frame.SealedFrame? {
      ForwardOnlySends(sockets, i, line.frame);
      OnlySentKeepsInv(sockets, AfterForward(sockets, i, line.frame));
    }
  }

  lemma {:induction false} LinesKeepInv(sockets: Sockets, i: nat, lines: seq<Line>)
    requires RoomInv(sockets) && i < |sockets|
    ensures RoomInv(AfterLines(sockets, i, lines))
    decreases |lines|
  {
    hide RoomInv, AfterLine;
    if lines != [] {
      LineKeepsInv(sockets, i, lines[0]);
      if !AfterLine(sockets, i, lines[0]).rejected {
        LinesKeepInv(AfterLine(sockets, i, lines[0]).sockets, i, lines[1..]);
      }
    }
  }

  lemma AcceptKeepsInv(sockets: Sockets, role: Role)
    requires RoomInv(sockets)
    ensures RoomInv(AfterAccept(sockets, role))
  {
  }

  lemma CloseKeepsInv(sockets: Sockets, i: nat)
    requires RoomInv(sockets) && i < |sockets|
    ensures RoomInv(AfterSocketClose(sockets, i))
  {
    var gone := sockets[i := sockets[i].(open := false, listed := false)];
    assert RoomInv(gone);
    AllSentOnlySends(gone, Authenticated(gone, Opposite(sockets[i].role)), PeerStatus(false));
    if !sockets[i].superseded && sockets[i].authenticated {
      OnlySentKeepsInv(gone, AfterSocketClose(sockets, i));
    }
  }

  // In every run at most one socket of each role is open, and it is the latest one.
  lemma {:induction false} RunKeepsRoomInv(events: seq<RoomEvent>)
    ensures RoomInv(RunRoom(events))
  {
    hide RoomInv, AfterAccept, AfterLines, AfterSocketClose;
    if events == [] {
      EmptyRoom();
    } else {
      var before, e := RunRoom(events[..|events| - 1]), events[|events| - 1];
      RunKeepsRoomInv(events[..|events| - 1]);
      match e
      case Accepted(role) => AcceptKeepsInv(before, role);
      case Message(i, _, lines) =>
        if i < |before| {
          LinesKeepInv(before, i, lines);
          RejectKeepsInv(before, i);
        }
      case SocketClosed(i) =>
        if i < |before| {
          CloseKeepsInv(before, i);
        }
      case SocketError(i) =>
        if i < |before| {
          RejectKeepsInv(before, i);
        }
    }
  }

  lemma EmptyRoom()
    ensures RoomInv([])
  {
  }

  lemma RejectKeepsInv(sockets: Sockets, i: nat)
    requires RoomInv(sockets) && i < |sockets|
    ensures RoomInv(Rejected(sockets, i))
  {
  }

  // The room as the in-memory relay sees it

  // The slot of a role is its open socket.
  ghost predicate SlotIs(sockets: Sockets, role: Role, slot: Option<Slot>) {
    match slot
    case None => forall i | 0 <= i < |sockets| :: sockets[i].role == role ==> !sockets[i].open
    case Some(s) => s.transport < |sockets| && sockets[s.transport].open && sockets[s.transport].role == role
                    && sockets[s.transport].hello == s.hello
  }

  ghost predicate Abstracts(sockets: Sockets, room: Room) {
    && SlotIs(sockets, Mobile, room.mobile) && SlotIs(sockets, Desktop, room.desktop)
    && (forall t :: t in room.connected <==> 0 <= t < |sockets| && sockets[t].open)
    && (forall t: nat :: InboxOf(room, t) == SentTo(sockets, t))
  }

  function SentTo(sockets: Sockets, t: nat): seq<Frame> {
    if t < |sockets| then sockets[t].sent else []
  }

  lemma {:induction false} OnlyAuthenticated(sockets: Sockets, role: Role, i: nat, k: nat)
    requires RoomInv(sockets) && i <= |sockets|
    requires k < |sockets| && sockets[k].open && sockets[k].role == role
    ensures AuthenticatedFrom(sockets, role, i) == if i <= k && sockets[k].authenticated then [k] else []
    decreases |sockets| - i
  {
    if i < |sockets| {
      OnlyAuthenticated(sockets, role, i + 1, k);
      if i < k {
        assert sockets[i].open ==> sockets[i].role != sockets[k].role;
      } else if k < i {
        assert sockets[i].open ==> sockets[k].role != sockets[i].role;
      }
    }
  }

  lemma {:induction false} NoneAuthenticated(sockets: Sockets, role: Role, i: nat)
    requires i <= |sockets|
    requires forall k | 0 <= k < |sockets| :: sockets[k].role == role ==> !sockets[k].open
    ensures AuthenticatedFrom(sockets, role, i) == []
    decreases |sockets| - i
  {
    if i < |sockets| {
      NoneAuthenticated(sockets, role, i + 1);
    }
  }

  // The authenticated sockets of a role are the one that the relay has a hello of.
  lemma AuthenticatedIsHello(sockets: Sockets, room: Room, role: Role)
    requires RoomInv(sockets) && Abstracts(sockets, room)
    ensures Authenticated(sockets, role) == if HasHello(room, role) then [SlotOf(room, role).value.transport] else []
  {
    var slot := SlotOf(room, role);
    assert SlotIs(sockets, role, slot);
    if slot.Some? {
      OnlyAuthenticated(sockets, role, 0, slot.value.transport);
    } else {
      NoneAuthenticated(sockets, role, 0);
    }
  }

  lemma SentIsEnqueued(sockets: Sockets, room: Room, i: nat, frame: Frame)
    requires Abstracts(sockets, room) && i < |sockets| && sockets[i].open
    ensures Abstracts(Sent(sockets, i, frame), Enqueued(room, i, frame))
  {
    var after := Sent(sockets, i, frame);
    forall t | 0 <= t < |sockets|
      ensures after[t].open == sockets[t].open && after[t].role == sockets[t].role && after[t].hello == sockets[t].hello
    {
    }
    assert i in room.connected;
    forall t: nat
      ensures InboxOf(Enqueued(room, i, frame), t) == SentTo(after, t)
    {
      assert InboxOf(room, t) == SentTo(sockets, t);
    }
  }

  // A new socket takes over its role as a new transport does in the in-memory relay.
  lemma AcceptMatchesJoin(sockets: Sockets, room: Room, role: Role)
    requires RoomInv(sockets) && Abstracts(sockets, room)
    ensures Abstracts(AfterAccept(sockets, role), AfterJoin(room, |sockets|, role))
  {
    var after, joined := AfterAccept(sockets, role), AfterJoin(room, |sockets|, role);
    assert |sockets| !in room.connected;
    assert SlotIs(sockets, role, SlotOf(room, role)) && SlotIs(sockets, Opposite(role), SlotOf(room, Opposite(role)));
    forall t
      ensures t in joined.connected <==> 0 <= t < |after| && after[t].open
    {
      if 0 <= t < |sockets| && sockets[t].open && sockets[t].role == role {
        SlotIsOnly(sockets, room, role, t);
      }
    }
    forall t: nat
      ensures SentTo(after, t) == SentTo(sockets, t) && InboxOf(joined, t) == InboxOf(room, t)
    {
    }
  }

  lemma SlotIsOnly(sockets: Sockets, room: Room, role: Role, t: nat)
    requires RoomInv(sockets) && Abstracts(sockets, room) && t < |sockets| && sockets[t].open && sockets[t].role == role
    ensures Occupies(room, t, role)
  {
    assert SlotIs(sockets, role, SlotOf(room, role));
  }

  // The first hello of an open socket is answered as in the in-memory relay: both sides are told the
  // other's keys, whichever of them came last.
  lemma HelloMatchesSend(sockets: Sockets, room: Room, i: nat, hello: HelloInfo)
    requires RoomInv(sockets) && Abstracts(sockets, room)
    requires i < |sockets| && sockets[i].open && !sockets[i].authenticated && hello.role == sockets[i].role
    requires forall role | HasHello(room, role) :: IsComplete(HelloAt(room, role))
    requires IsComplete(hello)
    ensures AfterSend(room, i, hello.role, Hello(hello)).Some?
    ensures Abstracts(AfterLine(sockets, i, Parsed(Hello(hello))).sockets, AfterSend(room, i, hello.role, Hello(hello)).value)
  {
    hide Enqueued, Sent, Authenticated, InboxOf;
    SlotIsOnly(sockets, room, hello.role, i);
    var registered := sockets[i := sockets[i].(authenticated := true, hello := Some(hello))];
    var known := WithSlot(room, hello.role, Some(Slot(i, Some(hello))));
    RegisteredAbstracts(sockets, room, i, hello);
    AuthenticatedIsHello(registered, known, Mobile);
    AuthenticatedIsHello(registered, known, Desktop);
    assert SlotIs(registered, Mobile, known.mobile) && SlotIs(registered, Desktop, known.desktop);
    if HasHello(known, Mobile) && HasHello(known, Desktop) {
      var m, d := HelloAt(known, Mobile), HelloAt(known, Desktop);
      assert IsComplete(m) && IsComplete(d) by {
        assert HelloAt(known, hello.role) == hello;
        assert HelloAt(known, Opposite(hello.role)) == HelloAt(room, Opposite(hello.role));
      }
      var mobile, desktop := known.mobile.value.transport, known.desktop.value.transport;
      SentIsEnqueued(registered, known, mobile, HelloAck(AckFor(m, d)));
      SentKeepsOpen(registered, mobile, HelloAck(AckFor(m, d)));
      SentIsEnqueued(Sent(registered, mobile, HelloAck(AckFor(m, d))), Enqueued(known, mobile, HelloAck(AckFor(m, d))),
                     desktop, HelloAck(AckFor(d, m)));
    }
  }

  lemma SentKeepsOpen(sockets: Sockets, i: nat, frame: Frame)
    requires i < |sockets|
    ensures |Sent(sockets, i, frame)| == |sockets|
    ensures forall k | 0 <= k < |sockets| :: Sent(sockets, i, frame)[k].open == sockets[k].open
  {
  }

  lemma RegisteredAbstracts(sockets: Sockets, room: Room, i: nat, hello: HelloInfo)
    requires RoomInv(sockets) && Abstracts(sockets, room)
    requires i < |sockets| && sockets[i].open && hello.role == sockets[i].role && Occupies(room, i, hello.role)
    ensures
      var registered := sockets[i := sockets[i].(authenticated := true, hello := Some(hello))];
      RoomInv(registered) && Abstracts(registered, WithSlot(room, hello.role, Some(Slot(i, Some(hello)))))
  {
    assert SlotIs(sockets, Opposite(hello.role), SlotOf(room, Opposite(hello.role)));
    var registered := sockets[i := sockets[i].(authenticated := true, hello := Some(hello))];
    forall t: nat
      ensures SentTo(registered, t) == SentTo(sockets, t)
    {
    }
  }

  // A sealed frame of an open, authenticated socket is forwarded unchanged, or answered, as in the
  // in-memory relay.
  lemma ForwardMatchesSend(sockets: Sockets, room: Room, i: nat, frame: Frame)
    requires RoomInv(sockets) && Abstracts(sockets, room) && frame.SealedFrame?
    requires i < |sockets| && sockets[i].open && sockets[i].authenticated
    ensures AfterSend(room, i, sockets[i].role, frame).Some?
    ensures Abstracts(AfterLine(sockets, i, Parsed(frame)).sockets, AfterSend(room, i, sockets[i].role, frame).value)
  {
    hide Enqueued, Sent, Authenticated, InboxOf;
    var role := sockets[i].role;
    SlotIsOnly(sockets, room, role, i);
    AuthenticatedIsHello(sockets, room, Opposite(role));
    assert SlotIs(sockets, Opposite(role), SlotOf(room, Opposite(role)));
    if HasHello(room, Opposite(role)) {
      SentIsEnqueued(sockets, room, SlotOf(room, Opposite(role)).value.transport, frame);
    } else {
      SentIsEnqueued(sockets, room, i, PeerStatus(false));
    }
  }

  // When an open socket closes, the in-memory relay's room loses that transport: its peer is told if
  // both had said hello, and otherwise nobody is.
  lemma CloseVacates(sockets: Sockets, room: Room, i: nat)
    requires RoomInv(sockets) && Abstracts(sockets, room) && i < |sockets| && sockets[i].open
    ensures
      var role := sockets[i].role;
      var left := WithSlot(room.(connected := room.connected - {i}), role, None);
      var bothKnown := HasHello(room, Mobile) && HasHello(room, Desktop);
      Abstracts(AfterSocketClose(sockets, i), if bothKnown then AfterLeave(room, i, role) else left)
  {
    hide Enqueued, Sent, Authenticated, InboxOf, AllSent;
    var role := sockets[i].role;
    SlotIsOnly(sockets, room, role, i);
    var gone := sockets[i := sockets[i].(open := false, listed := false)];
    var left := WithSlot(room.(connected := room.connected - {i}), role, None);
    GoneAbstracts(sockets, room, i);
    AuthenticatedIsHello(gone, left, Opposite(role));
    assert SlotIs(sockets, role, SlotOf(room, role)) && SlotIs(gone, Opposite(role), SlotOf(left, Opposite(role)));
    if HasHello(room, Opposite(role)) {
      var peer := SlotOf(room, Opposite(role)).value.transport;
      SentToOne(gone, peer, PeerStatus(false));
      SentIsEnqueued(gone, left, peer, PeerStatus(false));
    } else {
      SentToNone(gone, PeerStatus(false));
    }
  }

  // That is what the in-memory relay does exactly if both had said hello or the peer's slot is empty:
  // it also tells a peer when only one of the two has said hello.
  lemma CloseMatchesLeaveExactly(sockets: Sockets, room: Room, i: nat)
    requires RoomInv(sockets) && Abstracts(sockets, room) && i < |sockets| && sockets[i].open
    ensures
      var role := sockets[i].role;
      Abstracts(AfterSocketClose(sockets, i), AfterLeave(room, i, role))
      <==> (HasHello(room, Mobile) && HasHello(room, Desktop)) || SlotOf(room, Opposite(role)).None?
  {
    hide AfterSocketClose;
    var role := sockets[i].role;
    CloseVacates(sockets, room, i);
    SlotIsOnly(sockets, room, role, i);
    assert SlotIs(sockets, role, SlotOf(room, role)) && SlotIs(sockets, Opposite(role), SlotOf(room, Opposite(role)));
    var after, left := AfterSocketClose(sockets, i), WithSlot(room.(connected := room.connected - {i}), role, None);
    var peer := SlotOf(room, Opposite(role));
    if peer.Some? && !(HasHello(room, Mobile) && HasHello(room, Desktop)) {
      assert InboxOf(left, peer.value.transport) == SentTo(after, peer.value.transport);
      assert InboxOf(AfterLeave(room, i, role), peer.value.transport) == InboxOf(left, peer.value.transport) + [PeerStatus(false)];
    }
  }

  lemma SentToOne(sockets: Sockets, i: nat, frame: Frame)
    requires i < |sockets|
    ensures AllSent(sockets, [i], frame) == Sent(sockets, i, frame)
  {
    assert [i][1..] == [];
  }

  lemma SentToNone(sockets: Sockets, frame: Frame)
    ensures AllSent(sockets, [], frame) == sockets
  {
  }

  lemma GoneAbstracts(sockets: Sockets, room: Room, i: nat)
    requires RoomInv(sockets) && Abstracts(sockets, room) && i < |sockets| && sockets[i].open
    ensures
      var gone := sockets[i := sockets[i].(open := false, listed := false)];
      RoomInv(gone) && Abstracts(gone, WithSlot(room.(connected := room.connected - {i}), sockets[i].role, None))
  {
    var role := sockets[i].role;
    var gone := sockets[i := sockets[i].(open := false, listed := false)];
    assert SlotIs(sockets, Opposite(role), SlotOf(room, Opposite(role)));
    forall k | 0 <= k < |gone| && gone[k].role == role
      ensures !gone[k].open
    {
      if k != i {
        assert !sockets[k].open;
      }
    }
    forall t: nat
      ensures SentTo(gone, t) == SentTo(sockets, t)
    {
    }
  }

  // A socket that was replaced or rejected can no longer take part: whatever it still sends, every
  // other socket keeps its state and its hello, and it stays closed.
  lemma ClosedSocketCannotPair(sockets: Sockets, i: nat, line: Line)
    requires RoomInv(sockets) && i < |sockets| && !sockets[i].open
    ensures
      var after := AfterLine(sockets, i, line).sockets;
      && !after[i].open
      && forall k | 0 <= k < |sockets| && k != i :: after[k].(sent := sockets[k].sent) == sockets[k]
  {
    hide AfterAcknowledgePair, AfterForward;
    if line.Parsed? && !sockets[i].authenticated && line.frame.Hello? && line.frame.hello.role == sockets[i].role {
      AcknowledgeOnlySends(sockets[i := sockets[i].(authenticated := true, hello := Some(line.frame.hello))]);
    } else if line.Parsed? && sockets[i].authenticated && line.frame.SealedFrame? {
      ForwardOnlySends(sockets, i, line.frame);
    }
  }
}
