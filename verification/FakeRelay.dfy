/**
 One room of the relay (packages/remote-control/src/fake-relay.ts): at most one transport per
 role is registered; a `hello` is remembered and, once both sides have sent one, answered with
 the other side's public keys. Every transport has its own first-in-first-out inbox, which
 outlives a disconnection of that transport.
 */
module FakeRelay {
  import opened Results
  import opened RemoteCrypto
  import opened RemoteConnection

  datatype Slot = Slot(transport: nat, hello: Option<HelloInfo>)

  datatype Room = Room(mobile: Option<Slot>, desktop: Option<Slot>, connected: set<nat>, inboxes: map<nat, seq<Frame>>)

  const EMPTY_ROOM := Room(None, None, {}, map[])

  function SlotOf(room: Room, role: Role): Option<Slot> {
    if role == Mobile then room.mobile else room.desktop
  }

  function WithSlot(room: Room, role: Role, slot: Option<Slot>): Room {
    if role == Mobile then room.(mobile := slot) else room.(desktop := slot)
  }

  function InboxOf(room: Room, transport: nat): seq<Frame> {
    if transport in room.inboxes then room.inboxes[transport] else []
  }

  function Enqueued(room: Room, transport: nat, frame: Frame): Room {
    if transport in room.connected
    then room.(inboxes := room.inboxes[transport := InboxOf(room, transport) + [frame]])
    else room
  }

  function Popped(room: Room, transport: nat): Room
    requires InboxOf(room, transport) != []
  {
    room.(inboxes := room.inboxes[transport := InboxOf(room, transport)[1..]])
  }

  predicate Occupies(room: Room, transport: nat, role: Role) {
    SlotOf(room, role).Some? && SlotOf(room, role).value.transport == transport
  }

  // The transport that a connection by `transport` in `role` throws out.
  function Displaced(room: Room, transport: nat, role: Role): set<nat> {
    if SlotOf(room, role).Some? && SlotOf(room, role).value.transport != transport
    then {SlotOf(room, role).value.transport} * room.connected
    else {}
  }

  function AfterJoin(room: Room, transport: nat, role: Role): Room {
    WithSlot(room, role, Some(Slot(transport, None)))
    .(connected := room.connected - Displaced(room, transport, role) + {transport})
  }

  predicate HasHello(room: Room, role: Role) {
    SlotOf(room, role).Some? && SlotOf(room, role).value.hello.Some?
  }

  function HelloAt(room: Room, role: Role): HelloInfo
    requires HasHello(room, role)
  {
    SlotOf(room, role).value.hello.value
  }

  // The acknowledgement `mine` is answered with when paired with `peer`.
  function AckFor(mine: HelloInfo, peer: HelloInfo): AckInfo {
    AckInfo(mine.connectionId, peer.identityKey, peer.ephemeralKey)
  }

  function AcknowledgedPair(room: Room): Room {
    if HasHello(room, Mobile) && HasHello(room, Desktop) then
      var m, d := HelloAt(room, Mobile), HelloAt(room, Desktop);
      var told := Enqueued(room, room.mobile.value.transport, HelloAck(AckFor(m, d)));
      Enqueued(told, room.desktop.value.transport, HelloAck(AckFor(d, m)))
    else room
  }

  // A send is refused for a transport that is not the registered one, and for any plaintext
  // frame but `hello`.
  function AfterSend(room: Room, transport: nat, role: Role, frame: Frame): Option<Room> {
    if transport !in room.connected || !Occupies(room, transport, role) then None
    else match frame
      case Hello(hello) => Some(AcknowledgedPair(WithSlot(room, role, Some(Slot(transport, Some(hello))))))
      case SealedFrame(_) =>
        if HasHello(room, Opposite(role))
        then Some(Enqueued(room, SlotOf(room, Opposite(role)).value.transport, frame))
        else Some(Enqueued(room, transport, PeerStatus(false)))
      case _ => None
  }

  // `transport.close()`
  function AfterLeave(room: Room, transport: nat, role: Role): Room {
    if transport !in room.connected then room
    else
      var closed := room.(connected := room.connected - {transport});
      if !Occupies(room, transport, role) then closed
      else
        var left := WithSlot(closed, role, None);
        var peer := SlotOf(left, Opposite(role));
        if peer.Some? then Enqueued(left, peer.value.transport, PeerStatus(false)) else left
  }

  class Relay {
    var mobile: Option<Slot>
    var desktop: Option<Slot>
    var connected: set<nat>
    var inboxes: map<nat, seq<Frame>>

    ghost function View(): Room
      reads this
    {
      Room(mobile, desktop, connected, inboxes)
    }

    constructor ()
      ensures View() == EMPTY_ROOM
    {
      mobile, desktop, connected, inboxes := None, None, {}, map[];
    }

    method Registered(role: Role) returns (slot: Option<Slot>)
      ensures slot == SlotOf(View(), role)
    {
      slot := if role == Mobile then mobile else desktop;
    }

    method Register(role: Role, slot: Option<Slot>)
      modifies this`mobile, this`desktop
      ensures View() == WithSlot(old(View()), role, slot)
    {
      if role == Mobile {
        mobile := slot;
      } else {
        desktop := slot;
      }
    }

    method Deliver(transport: nat, frame: Frame)
      modifies this`inboxes
      ensures View() == Enqueued(old(View()), transport, frame)
    {
      if transport !in connected {
        return;
      }
      var inbox := if transport in inboxes then inboxes[transport] else [];
      inboxes := inboxes[transport := inbox + [frame]];
    }

    // Returns the transport whose `onClose` handler must run.
    method Connect(transport: nat, role: Role) returns (closed: Option<nat>)
      modifies this
      ensures View() == AfterJoin(old(View()), transport, role)
      ensures forall t :: closed == Some(t) <==> t in Displaced(old(View()), transport, role)
    {
      var existing := Registered(role);
      closed := None;
      if existing.Some? && existing.value.transport != transport && existing.value.transport in connected {
        closed := Some(existing.value.transport);
        connected := connected - {existing.value.transport};
      }
      connected := connected + {transport};
      Register(role, Some(Slot(transport, None)));
    }

    // Returns false where the source throws.
    method Send(transport: nat, role: Role, frame: Frame) returns (accepted: bool)
      modifies this
      ensures accepted == AfterSend(old(View()), transport, role, frame).Some?
      ensures View() == if accepted then AfterSend(old(View()), transport, role, frame).value else old(View())
    {
      var endpoint := Registered(role);
      if transport !in connected || endpoint.None? || endpoint.value.transport != transport {
        return false;
      }
      if frame.Hello? {
        Register(role, Some(Slot(transport, Some(frame.hello))));
        AcknowledgePair();
        return true;
      }
      if !frame.SealedFrame? {
        return false;
      }
      var peer := Registered(Opposite(role));
      if peer.None? || peer.value.hello.None? {
        Deliver(transport, PeerStatus(false));
      } else {
        Deliver(peer.value.transport, frame);
      }
      accepted := true;
    }

    method AcknowledgePair()
      modifies this`inboxes
      ensures View() == AcknowledgedPair(old(View()))
    {
      if mobile.None? || desktop.None? || mobile.value.hello.None? || desktop.value.hello.None? {
        return;
      }
      var m, d := mobile.value.hello.value, desktop.value.hello.value;
      Deliver(mobile.value.transport, HelloAck(AckFor(m, d)));
      Deliver(desktop.value.transport, HelloAck(AckFor(d, m)));
    }

    method Close(transport: nat, role: Role)
      modifies this
      ensures View() == AfterLeave(old(View()), transport, role)
    {
      if transport !in connected {
        return;
      }
      connected := connected - {transport};
      var endpoint := Registered(role);
      if endpoint.None? || endpoint.value.transport != transport {
        return;
      }
      Register(role, None);
      var peer := Registered(Opposite(role));
      if peer.Some? {
        Deliver(peer.value.transport, PeerStatus(false));
      }
    }
  }
}
