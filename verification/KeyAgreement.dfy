/**
 Every run of the relay keeps its invariants; hence the two registered parties agree on
 their keys whenever both are up and nothing is left to read.
 */
module KeyAgreement {
  import opened Results
  import opened RemoteCrypto
  import opened EventJournal
  import opened RemoteConnection
  import opened FakeRelay
  import opened KeyEffects
  import opened RelayPairing

  predicate BothHellos(room: Room) {
    HasHello(room, Mobile) && HasHello(room, Desktop)
  }

  // A frame without keys in it arrives somewhere.

  function WithFrame(w: World, t: nat, frame: Frame): World {
    w.(room := Enqueued(w.room, t, frame))
  }

  lemma FramedInboxes(w: World, t: nat, frame: Frame)
    ensures var w' := WithFrame(w, t, frame);
            && w'.room.mobile == w.room.mobile && w'.room.desktop == w.room.desktop
            && w'.room.connected == w.room.connected
            && forall u :: InboxOf(w'.room, u) ==
                           if u == t && t in w.room.connected then InboxOf(w.room, u) + [frame] else InboxOf(w.room, u)
  {
  }

  lemma FrameKeepsBase(w: World, p: Primitives, t: nat, frame: Frame)
    requires Base(w, p) && FromRelay(frame) && (frame.HelloAck? ==> frame.ack.peerEphemeralKey in w.announced)
    ensures Base(WithFrame(w, t, frame), p)
  {
    FramedInboxes(w, t, frame);
    var w' := WithFrame(w, t, frame);
    forall u | u in w'.room.connected
      ensures ConnectedFits(w', u)
    {
      assert ConnectedFits(w, u);
    }
    forall u
      ensures InboxFits(InboxOf(w'.room, u), w'.announced)
    {
      assert InboxFits(InboxOf(w.room, u), w.announced);
    }
  }

  lemma FrameKeepsPaired(w: World, t: nat, frame: Frame, role: Role)
    requires Paired(w, role) && !frame.HelloAck? && FromRelay(frame)
    requires frame.PeerStatus? ==> !BothHellos(w.room)
    ensures Paired(WithFrame(w, t, frame), role)
  {
    hide LastWord, Enqueued, DerivedFrom;
    FramedInboxes(w, t, frame);
    if Occupied(w, role) {
      AppendedWord(InboxAt(w, role), frame, []);
    }
  }

  lemma FrameKeepsGuarded(w: World, t: nat, frame: Frame, role: Role)
    requires Guarded(w, role) && !frame.HelloAck? && FromRelay(frame)
    ensures Guarded(WithFrame(w, t, frame), role)
  {
    hide LastWord, WaitsUnder, Enqueued;
    FramedInboxes(w, t, frame);
    if Occupied(w, role) && Occupied(w, Opposite(role)) {
      var keys := PartyAt(w, role).conn.keys;
      var key := if keys.Some? then keys.value.sendKey else [];
      AppendedWord(InboxAt(w, role), frame, key);
      AppendedWord(InboxAt(w, Opposite(role)), frame, key);
    }
  }

  lemma FrameKeepsSane(w: World, p: Primitives, t: nat, frame: Frame)
    requires Sane(w, p) && !frame.HelloAck? && FromRelay(frame)
    requires frame.PeerStatus? ==> !BothHellos(w.room)
    ensures Sane(WithFrame(w, t, frame), p)
  {
    FrameKeepsBase(w, p, t, frame);
    FrameKeepsPaired(w, t, frame, Mobile);
    FrameKeepsPaired(w, t, frame, Desktop);
  }

  // Sending sealed frames keeps everything.

  function WithSend(w: World, t: nat, role: Role, frame: Frame): World {
    var next := AfterSend(w.room, t, role, frame);
    if next.Some? then w.(room := next.value) else w
  }

  lemma SendIsFrame(w: World, t: nat, role: Role, frame: Frame)
    requires frame.SealedFrame?
    ensures var w' := WithSend(w, t, role, frame);
            || w' == w
            || (HasHello(w.room, Opposite(role)) && w' == WithFrame(w, SlotOf(w.room, Opposite(role)).value.transport, frame))
            || (!HasHello(w.room, Opposite(role)) && w' == WithFrame(w, t, PeerStatus(false)))
  {
  }

  lemma SendKeepsInv(w: World, p: Primitives, t: nat, role: Role, frame: Frame)
    requires Sane(w, p) && frame.SealedFrame?
    ensures var w' := WithSend(w, t, role, frame);
            && Sane(w', p)
            && (Guarded(w, Mobile) && Guarded(w, Desktop) ==> Guarded(w', Mobile) && Guarded(w', Desktop))
  {
    SendIsFrame(w, t, role, frame);
    if HasHello(w.room, Opposite(role)) {
      var to := SlotOf(w.room, Opposite(role)).value.transport;
      FrameKeepsSane(w, p, to, frame);
      if Guarded(w, Mobile) && Guarded(w, Desktop) {
        FrameKeepsGuarded(w, to, frame, Mobile);
        FrameKeepsGuarded(w, to, frame, Desktop);
      }
    } else {
      FrameKeepsSane(w, p, t, PeerStatus(false));
      if Guarded(w, Mobile) && Guarded(w, Desktop) {
        FrameKeepsGuarded(w, t, PeerStatus(false), Mobile);
        FrameKeepsGuarded(w, t, PeerStatus(false), Desktop);
      }
    }
  }

  lemma {:induction false} RouteKeepsInv(w: World, p: Primitives, t: nat, role: Role, frames: seq<Frame>)
    requires Inv(w, p) && AllSealed(frames)
    ensures Inv(w.(room := Routed(w.room, t, role, frames)), p)
    decreases |frames|
  {
    if frames == [] {
      assert w.(room := Routed(w.room, t, role, frames)) == w;
    } else {
      assert frames[0] in frames;
      SendKeepsInv(w, p, t, role, frames[0]);
      var w' := WithSend(w, t, role, frames[0]);
      RouteKeepsInv(w', p, t, role, frames[1..]);
      assert w.(room := Routed(w.room, t, role, frames)) == w'.(room := Routed(w'.room, t, role, frames[1..]));
    }
  }

  // The first frame a party sends after coming up guards it: without the other's hello it is
  // told so; without its own hello the other is left with a frame it cannot open.
  lemma FirstSendGuards(w: World, p: Primitives, t: nat, frame: Frame)
    requires Sane(w, p) && t in w.room.connected && t < |w.parties|
    requires frame.SealedFrame? && w.parties[t].conn.keys.Some? && frame.sealed.key == w.parties[t].conn.keys.value.sendKey
    ensures Inv(WithSend(w, t, RoleOf(w, t), frame), p)
  {
    hide LastWord, WaitsUnder, Enqueued, DerivedFrom, PartyFits, DistinctEphemerals, InboxFits, Paired;
    var role := RoleOf(w, t);
    assert ConnectedFits(w, t);
    var w' := WithSend(w, t, role, frame);
    SendKeepsInv(w, p, t, role, frame);
    SendIsFrame(w, t, role, frame);
    if HasHello(w.room, Opposite(role)) {
      var to := SlotOf(w.room, Opposite(role)).value.transport;
      FramedInboxes(w, to, frame);
      AppendedWord(InboxOf(w.room, to), frame, frame.sealed.key);
      assert SlotFits(w, Opposite(role));
    } else {
      FramedInboxes(w, t, PeerStatus(false));
      AppendedWord(InboxOf(w.room, t), PeerStatus(false), []);
    }
    assert Guarded(w', role) && Guarded(w', Opposite(role));
  }

  // A party whose hello is outstanding seals under a key that nobody can have derived.
  lemma NobodyCanOpen(w: World, p: Primitives, role: Role)
    requires Base(w, p) && CollisionFree(p) && FixedLength(p)
    requires Occupied(w, role) && Occupied(w, Opposite(role)) && !HasHello(w.room, role)
    requires PartyAt(w, role).conn.keys.Some? && PartyAt(w, Opposite(role)).conn.keys.Some?
    ensures PartyAt(w, role).conn.keys.value.sendKey != PartyAt(w, Opposite(role)).conn.keys.value.receiveKey
  {
    var mine, other := PartyAt(w, role), PartyAt(w, Opposite(role));
    assert SlotFits(w, role) && SlotFits(w, Opposite(role));
    assert ConnectedFits(w, SlotOf(w.room, role).value.transport);
    assert ConnectedFits(w, SlotOf(w.room, Opposite(role)).value.transport);
    var myId, myPeer :| DerivedFrom(mine, myId, myPeer) && myPeer in w.announced;
    var otherId, otherPeer :| DerivedFrom(other, otherId, otherPeer) && otherPeer in w.announced;
    if mine.conn.keys.value.sendKey == other.conn.keys.value.receiveKey {
      if role == Mobile {
        SharedKeyMeansSharedInputs(p, mine.config.identity, mine.conn.ephemeral.value, myId, myPeer,
                                   other.config.identity, other.conn.ephemeral.value, otherId, otherPeer);
      } else {
        SharedKeyMeansSharedInputs(p, other.config.identity, other.conn.ephemeral.value, otherId, otherPeer,
                                   mine.config.identity, mine.conn.ephemeral.value, myId, myPeer);
      }
    }
  }

  // Reading one frame

  // What reading `frame` does to the keys of `party`; see KeyEffects.
  ghost predicate Reads(party: Party, frame: Frame, c': Conn) {
    var c := party.conn;
    && c'.ephemeral == c.ephemeral && KeysIffUp(c')
    && (Up(c') ==>
          match frame
          case SealedFrame(sealed) => Up(c) && c'.keys == c.keys && c.keys.Some? && c.keys.value.receiveKey == sealed.key
          case HelloAck(ack) =>
            if AcceptsAck(c, party.config, ack) then c'.keys == Keyed(c, party.config, ack).keys
            else Up(c) && c'.keys == c.keys && (ack.connectionId != party.config.connectionId || c.ephemeral.None?)
          case _ => false)
  }

  lemma FrameReads(party: Party, frame: Frame, clocks: nat -> Clock)
    requires KeysIffUp(party.conn) && party.conn.sent == [] && FromRelay(frame) && party.config.handshake == Initiate
    ensures Reads(party, frame, AfterFrame(party.conn, party.config, frame, clocks))
    ensures AllSealed(AfterFrame(party.conn, party.config, frame, clocks).sent)
  {
    match frame
    case HelloAck(ack) => HelloAckKeys(party.conn, party.config, ack, clocks);
    case SealedFrame(sealed) => SealedFrameKeys(party.conn, party.config, sealed, clocks);
    case PeerStatus(_) => PeerStatusKeys(party.conn, party.config, clocks);
    case _ =>
  }

  function AfterReading(w: World, t: nat, c': Conn): World
    requires t < |w.parties| && InboxOf(w.room, t) != []
  {
    WithConn(w.(room := Popped(w.room, t)), t, c'.(sent := [], closeRequested := false))
  }

  lemma ReadingInboxes(w: World, t: nat, c': Conn)
    requires t < |w.parties| && InboxOf(w.room, t) != []
    ensures var w' := AfterReading(w, t, c');
            && w'.room.mobile == w.room.mobile && w'.room.desktop == w.room.desktop
            && w'.room.connected == w.room.connected
            && forall u :: InboxOf(w'.room, u) == if u == t then InboxOf(w.room, t)[1..] else InboxOf(w.room, u)
  {
  }

  lemma ReadingDerives(w: World, p: Primitives, t: nat, c': Conn)
    requires Base(w, p) && FixedLength(p) && t in w.room.connected && InboxOf(w.room, t) != []
    requires t < |w.parties| && Reads(w.parties[t], InboxOf(w.room, t)[0], c')
    ensures var party' := w.parties[t].(conn := c'.(sent := [], closeRequested := false));
            party'.conn.keys.Some? ==> DerivedFromAnnounced(party', w.announced)
  {
    var party, frame := w.parties[t], InboxOf(w.room, t)[0];
    var party' := party.(conn := c'.(sent := [], closeRequested := false));
    assert ConnectedFits(w, t) && InboxFits(InboxOf(w.room, t), w.announced) && frame in InboxOf(w.room, t);
    if party'.conn.keys.Some? {
      if frame.HelloAck? && AcceptsAck(party.conn, party.config, frame.ack) {
        assert PartyFits(party, p, w.generated);
        assert DerivedFrom(party', frame.ack.peerIdentityKey, frame.ack.peerEphemeralKey);
      } else {
        var id, peer :| DerivedFrom(party, id, peer) && peer in w.announced;
        assert DerivedFrom(party', id, peer);
      }
    }
  }

  // A connection may change its state and keys; its ephemeral key stays.
  lemma ConnKeepsBase(w: World, p: Primitives, t: nat, c': Conn)
    requires Base(w, p) && t < |w.parties|
    requires c'.ephemeral == w.parties[t].conn.ephemeral && c'.sent == [] && !c'.closeRequested
    requires t in w.room.connected ==>
               KeysIffUp(c') && (c'.keys.Some? ==> DerivedFromAnnounced(w.parties[t].(conn := c'), w.announced))
    ensures Base(WithConn(w, t, c'), p)
  {
    var w' := WithConn(w, t, c');
    assert PartyFits(w.parties[t], p, w.generated);
    forall u | 0 <= u < |w'.parties|
      ensures PartyFits(w'.parties[u], p, w'.generated)
    {
      assert PartyFits(w.parties[u], p, w.generated);
    }
    forall u | u in w'.room.connected
      ensures ConnectedFits(w', u)
    {
      assert ConnectedFits(w, u);
    }
    assert SlotFits(w', Mobile) && SlotFits(w', Desktop);
  }

  lemma PopKeepsBase(w: World, p: Primitives, t: nat)
    requires Base(w, p) && InboxOf(w.room, t) != []
    ensures Base(w.(room := Popped(w.room, t)), p)
  {
    var w' := w.(room := Popped(w.room, t));
    forall u | u in w'.room.connected
      ensures ConnectedFits(w', u)
    {
      assert ConnectedFits(w, u);
    }
    forall u
      ensures InboxFits(InboxOf(w'.room, u), w'.announced)
    {
      assert InboxFits(InboxOf(w.room, u), w.announced);
    }
  }

  lemma ReadingKeepsBase(w: World, p: Primitives, t: nat, c': Conn)
    requires Base(w, p) && FixedLength(p) && t in w.room.connected && InboxOf(w.room, t) != []
    requires t < |w.parties| && Reads(w.parties[t], InboxOf(w.room, t)[0], c')
    ensures Base(AfterReading(w, t, c'), p)
  {
    ReadingDerives(w, p, t, c');
    PopKeepsBase(w, p, t);
    ConnKeepsBase(w.(room := Popped(w.room, t)), p, t, c'.(sent := [], closeRequested := false));
  }

  lemma ReadingKeepsPaired(w: World, p: Primitives, t: nat, c': Conn, role: Role)
    requires Base(w, p) && Paired(w, role) && FixedLength(p) && t in w.room.connected && InboxOf(w.room, t) != []
    requires t < |w.parties| && Reads(w.parties[t], InboxOf(w.room, t)[0], c')
    ensures Paired(AfterReading(w, t, c'), role)
  {
    hide LastWord, WaitsUnder, Popped, DeriveSessionKeys;
    ReadingInboxes(w, t, c');
    assert ConnectedFits(w, t);
    assert SlotFits(w, role) && SlotFits(w, Opposite(role));
    if Occupied(w, role) && BothHellos(w.room) && SlotOf(w.room, role).value.transport == t {
      PoppedWord(InboxOf(w.room, t), []);
      var peer := w.parties[SlotOf(w.room, Opposite(role)).value.transport];
      assert PartyFits(peer, p, w.generated);
    }
  }

  // Unless reading brings the party up afresh, guarded pairs stay guarded.
  lemma ReadingKeepsGuarded(w: World, p: Primitives, t: nat, c': Conn, role: Role)
    requires Base(w, p) && Guarded(w, role) && FixedLength(p) && CollisionFree(p)
    requires t in w.room.connected && InboxOf(w.room, t) != []
    requires t < |w.parties| && Reads(w.parties[t], InboxOf(w.room, t)[0], c')
    requires Up(c') ==> Up(w.parties[t].conn) && c'.keys == w.parties[t].conn.keys
    ensures Guarded(AfterReading(w, t, c'), role)
  {
    hide LastWord, WaitsUnder, Popped, DerivedFrom, DeriveSessionKeys;
    var w' := AfterReading(w, t, c');
    ReadingInboxes(w, t, c');
    assert ConnectedFits(w, t);
    assert SlotFits(w, role) && SlotFits(w, Opposite(role));
    if Occupied(w, role) && Occupied(w, Opposite(role)) && !HasHello(w.room, role)
       && Up(PartyAt(w', role).conn) && Up(PartyAt(w', Opposite(role)).conn) {
      assert ConnectedFits(w, SlotOf(w.room, role).value.transport);
      assert ConnectedFits(w, SlotOf(w.room, Opposite(role)).value.transport);
      NobodyCanOpen(w, p, role);
      PoppedWord(InboxOf(w.room, t), PartyAt(w, role).conn.keys.value.sendKey);
    }
  }

  // Leaving the room

  function Leaving(w: World, t: nat): World
    requires t < |w.parties|
  {
    w.(room := AfterLeave(w.room, t, RoleOf(w, t)))
  }

  function Left(w: World, t: nat): World
    requires t < |w.parties|
  {
    w.(room := WithSlot(w.room.(connected := w.room.connected - {t}), RoleOf(w, t), None))
  }

  lemma LeftKeepsBase(w: World, p: Primitives, t: nat)
    requires Base(w, p) && t in w.room.connected && t < |w.parties|
    ensures Base(Left(w, t), p)
  {
    hide DerivedFromAnnounced, PartyFits;
    var left, role := Left(w, t), RoleOf(w, t);
    assert ConnectedFits(w, t);
    forall u | u in left.room.connected
      ensures ConnectedFits(left, u)
    {
      assert ConnectedFits(w, u);
    }
    forall u
      ensures InboxFits(InboxOf(left.room, u), left.announced)
    {
      assert InboxFits(InboxOf(w.room, u), w.announced);
    }
    assert SlotFits(left, role) && SlotFits(left, Opposite(role)) by {
      assert SlotFits(w, Opposite(role));
    }
  }

  // With one role empty nothing is claimed about the other.
  lemma AbsentIsInv(w: World, p: Primitives, role: Role)
    requires Base(w, p) && SlotOf(w.room, role).None?
    ensures Inv(w, p)
  {
    hide Base, LastWord, WaitsUnder, DerivedFrom;
  }

  lemma LeavingKeepsInv(w: World, p: Primitives, t: nat)
    requires Sane(w, p) && t < |w.parties|
    requires t !in w.room.connected ==> Inv(w, p)
    ensures Inv(Leaving(w, t), p)
  {
    hide Base, Paired, Guarded, Enqueued;
    if t in w.room.connected {
      var role, left := RoleOf(w, t), Left(w, t);
      LeftKeepsBase(w, p, t);
      assert ConnectedFits(w, t) by { BaseConnects(w, p, t); }
      var peer := SlotOf(left.room, Opposite(role));
      if peer.Some? {
        FrameKeepsBase(left, p, peer.value.transport, PeerStatus(false));
        FramedInboxes(left, peer.value.transport, PeerStatus(false));
        assert Leaving(w, t) == WithFrame(left, peer.value.transport, PeerStatus(false));
      } else {
        assert Leaving(w, t) == left;
      }
      AbsentIsInv(Leaving(w, t), p, role);
    } else {
      assert Leaving(w, t) == w;
    }
  }

  lemma BaseConnects(w: World, p: Primitives, t: nat)
    requires Base(w, p) && t in w.room.connected
    ensures ConnectedFits(w, t)
  {
  }

  // A connection that goes down, or is not registered at all, disturbs nothing.
  lemma GoingDownKeepsInv(w: World, p: Primitives, t: nat, c': Conn)
    requires Inv(w, p) && t < |w.parties|
    requires c'.ephemeral == w.parties[t].conn.ephemeral && c'.sent == [] && !c'.closeRequested
    requires t in w.room.connected ==> c'.keys.None? && !Up(c')
    ensures Inv(WithConn(w, t, c'), p)
  {
    hide LastWord, WaitsUnder, DerivedFrom;
    ConnKeepsBase(w, p, t, c');
    assert SlotFits(w, Mobile) && SlotFits(w, Desktop);
    var w' := WithConn(w, t, c');
    assert Paired(w', Mobile) && Paired(w', Desktop);
    assert Guarded(w', Mobile) && Guarded(w', Desktop);
  }

  // Actions

  // What is still to happen after a handler: its frames are sent and its transport closed.
  lemma FlushingKeepsInv(w: World, p: Primitives, t: nat, c': Conn)
    requires t < |w.parties| && AllSealed(c'.sent)
    requires Inv(WithConn(w, t, c'.(sent := [], closeRequested := false)), p)
    ensures Inv(Flushed(w, t, c'), p)
  {
    var w1 := WithConn(w, t, c'.(sent := [], closeRequested := false));
    RouteKeepsInv(w1, p, t, RoleOf(w, t), c'.sent);
    var w2 := w1.(room := Routed(w1.room, t, RoleOf(w, t), c'.sent));
    if c'.closeRequested {
      LeavingKeepsInv(w2, p, t);
      assert Flushed(w, t, c') == Leaving(w2, t);
    } else {
      assert Flushed(w, t, c') == w2;
    }
  }

  // A party that came up afresh is guarded from its first frame on.
  lemma ComingUpKeepsInv(w: World, p: Primitives, t: nat, c': Conn)
    requires t < |w.parties| && t in w.room.connected
    requires c'.keys.Some? && c'.sent != [] && AllSealedUnder(c'.sent, c'.keys.value.sendKey)
    requires Sane(WithConn(w, t, c'.(sent := [], closeRequested := false)), p)
    ensures Inv(Flushed(w, t, c'), p)
  {
    var role := RoleOf(w, t);
    var w1 := WithConn(w, t, c'.(sent := [], closeRequested := false));
    var first, rest := c'.sent[0], c'.sent[1..];
    assert first in c'.sent;
    FirstSendGuards(w1, p, t, first);
    var w2 := WithSend(w1, t, role, first);
    assert AllSealed(rest) by {
      assert forall f | f in rest :: f in c'.sent;
    }
    RouteKeepsInv(w2, p, t, role, rest);
    var w3 := w2.(room := Routed(w2.room, t, role, rest));
    assert w3.room == Routed(w.room, t, role, c'.sent);
    if c'.closeRequested {
      LeavingKeepsInv(w3, p, t);
      assert Flushed(w, t, c') == Leaving(w3, t);
    } else {
      assert Flushed(w, t, c') == w3;
    }
  }

  lemma ReceiveKeepsInv(w: World, p: Primitives, t: nat, clocks: nat -> Clock)
    requires Inv(w, p) && FixedLength(p) && CollisionFree(p)
    ensures Inv(Next(w, Receive(t, clocks)), p)
  {
    hide AfterFrame, Paired, Guarded, AfterLeave, Routed;
    if t < |w.parties| && t in w.room.connected && InboxOf(w.room, t) != [] {
      var party, frame := w.parties[t], InboxOf(w.room, t)[0];
      assert PartyFits(party, p, w.generated) && ConnectedFits(w, t);
      assert InboxFits(InboxOf(w.room, t), w.announced) && frame in InboxOf(w.room, t);
      var c' := AfterFrame(party.conn, party.config, frame, clocks);
      FrameReads(party, frame, clocks);
      ReadingKeepsBase(w, p, t, c');
      ReadingKeepsPaired(w, p, t, c', Mobile);
      ReadingKeepsPaired(w, p, t, c', Desktop);
      var popped := w.(room := Popped(w.room, t));
      if Up(c') && frame.HelloAck? && AcceptsAck(party.conn, party.config, frame.ack) {
        HelloAckKeys(party.conn, party.config, frame.ack, clocks);
        ComingUpKeepsInv(popped, p, t, c');
      } else {
        ReadingKeepsGuarded(w, p, t, c', Mobile);
        ReadingKeepsGuarded(w, p, t, c', Desktop);
        FlushingKeepsInv(popped, p, t, c');
      }
    }
  }

  lemma TransmitKeepsInv(w: World, p: Primitives, t: nat, inner: SessionFrame)
    requires Inv(w, p)
    ensures Inv(Next(w, Transmit(t, inner)), p)
  {
    if t < |w.parties| {
      assert PartyFits(w.parties[t], p, w.generated);
      var c' := SentSealed(w.parties[t].conn, inner);
      assert WithConn(w, t, c'.(sent := [], closeRequested := false)) == w;
      FlushingKeepsInv(w, p, t, c');
    }
  }

  lemma CloseKeepsInv(w: World, p: Primitives, t: nat)
    requires Inv(w, p)
    ensures Inv(Next(w, Close(t)), p)
  {
    if t < |w.parties| {
      var c := w.parties[t].conn;
      assert PartyFits(w.parties[t], p, w.generated);
      assert t in w.room.connected ==> ConnectedFits(w, t);
      var c' := AfterClose(c);
      GoingDownKeepsInv(w, p, t, c'.(sent := [], closeRequested := false));
      FlushingKeepsInv(w, p, t, c');
    }
  }

  lemma DisplacingKeepsInv(w: World, p: Primitives, t: nat)
    requires Inv(w, p) && t < |w.parties|
    ensures Inv(WithoutDisplaced(w, t), p)
  {
    hide Paired, Guarded, DistinctEphemerals, DerivedFrom;
    var role := RoleOf(w, t);
    assert SlotFits(w, role);
    if WithoutDisplaced(w, t) != w {
      var u := SlotOf(w.room, role).value.transport;
      assert ConnectedFits(w, u) && PartyFits(w.parties[u], p, w.generated);
      GoingDownKeepsInv(w, p, u, AfterTransportClosed(w.parties[u].conn));
    }
  }

  // A fresh ephemeral key is nobody else's and has not been announced.

  function Joining(w: World, t: nat, party': Party): World
    requires t < |w.parties| && party'.conn.ephemeral.Some?
  {
    World(AfterJoin(w.room, t, RoleOf(w, t)), w.parties[t := party'],
          w.generated + {party'.conn.ephemeral.value.publicKey}, w.announced)
  }

  ghost predicate Joins(w: World, p: Primitives, t: nat, party': Party) {
    && Base(w, p) && t < |w.parties| && party'.config == w.parties[t].config
    && party'.conn.ephemeral.Some? && Matching(p, party'.conn.ephemeral.value)
    && party'.conn.ephemeral.value.publicKey !in w.generated
    && party'.conn.sent == [] && !party'.conn.closeRequested && party'.conn.keys.None? && !Up(party'.conn)
  }

  lemma JoiningKeepsParties(w: World, p: Primitives, t: nat, party': Party)
    requires Joins(w, p, t, party')
    ensures var w' := Joining(w, t, party');
            && (forall u | 0 <= u < |w'.parties| :: PartyFits(w'.parties[u], p, w'.generated))
            && DistinctEphemerals(w'.parties)
  {
    var w' := Joining(w, t, party');
    forall u | 0 <= u < |w'.parties|
      ensures PartyFits(w'.parties[u], p, w'.generated)
    {
      assert PartyFits(w.parties[u], p, w.generated);
      assert PartyFits(w.parties[t], p, w.generated);
    }
    forall i, j | 0 <= i < j < |w'.parties| && w'.parties[i].conn.ephemeral.Some? && w'.parties[j].conn.ephemeral.Some?
      ensures w'.parties[i].conn.ephemeral.value.publicKey != w'.parties[j].conn.ephemeral.value.publicKey
    {
      assert PartyFits(w.parties[i], p, w.generated) && PartyFits(w.parties[j], p, w.generated);
    }
  }

  lemma JoiningKeepsRoom(w: World, p: Primitives, t: nat, party': Party)
    requires Joins(w, p, t, party')
    ensures var w' := Joining(w, t, party');
            && (forall u | u in w'.room.connected :: ConnectedFits(w', u))
            && SlotFits(w', Mobile) && SlotFits(w', Desktop)
            && (forall u :: InboxFits(InboxOf(w'.room, u), w'.announced))
  {
    hide DerivedFromAnnounced, DistinctEphemerals;
    var role, w' := RoleOf(w, t), Joining(w, t, party');
    assert SlotFits(w, role) && SlotFits(w, Opposite(role));
    forall u | u in w'.room.connected
      ensures ConnectedFits(w', u)
    {
      if u != t {
        assert ConnectedFits(w, u);
      }
    }
    forall u
      ensures InboxFits(InboxOf(w'.room, u), w'.announced)
    {
      assert InboxFits(InboxOf(w.room, u), w.announced);
    }
    assert SlotFits(w', role) && SlotFits(w', Opposite(role));
  }

  lemma JoiningKeepsBase(w: World, p: Primitives, t: nat, party': Party)
    requires Joins(w, p, t, party')
    ensures Base(Joining(w, t, party'), p)
  {
    hide PartyFits, DistinctEphemerals, ConnectedFits, SlotFits, InboxFits;
    JoiningKeepsParties(w, p, t, party');
    JoiningKeepsRoom(w, p, t, party');
  }

  // A party that has only just joined is not up, so nothing is claimed yet.
  lemma NewcomerIsInv(w: World, p: Primitives, role: Role)
    requires Base(w, p) && Occupied(w, role) && !HasHello(w.room, role) && !Up(PartyAt(w, role).conn)
    ensures Inv(w, p)
  {
    hide Base, LastWord, WaitsUnder, DerivedFrom;
  }

  lemma ConnectKeepsInv(w: World, p: Primitives, t: nat, secretKey: Bytes)
    requires Inv(w, p)
    ensures Inv(Next(w, Connect(t, secretKey)), p)
  {
    hide Paired, Guarded, DerivedFromAnnounced, DistinctEphemerals;
    if t < |w.parties| {
      var party := w.parties[t];
      assert PartyFits(party, p, w.generated);
      var ephemeral := MakeKeyPair(p, secretKey);
      if MayConnect(party.conn.state) && ephemeral.publicKey !in w.generated {
        var role := RoleOf(w, t);
        var parted := WithoutDisplaced(w, t);
        var party' := Party(party.config, AfterConnect(party.conn, ephemeral), party.helloDue + 1);
        DisplacingKeepsInv(w, p, t);
        JoiningKeepsBase(parted, p, t, party');
        var w' := Next(w, Connect(t, secretKey));
        assert w' == Joining(parted, t, party');
        assert !HasHello(w'.room, role) && PartyAt(w', role) == party';
        NewcomerIsInv(w', p, role);
      }
    }
  }

  function Owing(w: World, t: nat, due: nat): World
    requires t < |w.parties|
  {
    w.(parties := w.parties[t := w.parties[t].(helloDue := due)])
  }

  lemma OwingKeepsInv(w: World, p: Primitives, t: nat, due: nat)
    requires Inv(w, p) && t < |w.parties|
    ensures Inv(Owing(w, t, due), p)
  {
    hide LastWord, WaitsUnder, DeriveSessionKeys;
    var w' := Owing(w, t, due);
    forall u | 0 <= u < |w'.parties|
      ensures PartyFits(w'.parties[u], p, w'.generated)
    {
      assert PartyFits(w.parties[u], p, w.generated);
    }
    forall u | u in w'.room.connected
      ensures ConnectedFits(w', u)
    {
      assert ConnectedFits(w, u);
      if w'.parties[u].conn.keys.Some? {
        var id, peer :| DerivedFrom(w.parties[u], id, peer) && peer in w.announced;
        assert DerivedFrom(w'.parties[u], id, peer);
      }
    }
    assert SlotFits(w, Mobile) && SlotFits(w, Desktop);
    assert SlotFits(w', Mobile) && SlotFits(w', Desktop);
    assert Base(w', p);
    assert Paired(w', Mobile) && Paired(w', Desktop);
    assert Guarded(w', Mobile) && Guarded(w', Desktop);
  }

  // The registered party announces itself.

  function Announcing(w: World, t: nat, hello: HelloInfo): World
    requires t < |w.parties|
  {
    w.(room := WithSlot(w.room, RoleOf(w, t), Some(Slot(t, Some(hello)))),
       announced := w.announced + {hello.ephemeralKey})
  }

  lemma AnnouncingKeepsBase(w: World, p: Primitives, t: nat, hello: HelloInfo)
    requires Base(w, p) && t in w.room.connected && t < |w.parties| && w.parties[t].conn.ephemeral.Some?
    requires hello == HelloOf(w.parties[t].config, w.parties[t].conn.ephemeral.value)
    ensures Base(Announcing(w, t, hello), p)
  {
    var role := RoleOf(w, t);
    var w' := Announcing(w, t, hello);
    assert ConnectedFits(w, t) && PartyFits(w.parties[t], p, w.generated);
    assert SlotFits(w, role) && SlotFits(w, Opposite(role));
    forall u | u in w'.room.connected
      ensures ConnectedFits(w', u)
    {
      assert ConnectedFits(w, u);
    }
    forall u
      ensures InboxFits(InboxOf(w'.room, u), w'.announced)
    {
      assert InboxFits(InboxOf(w.room, u), w.announced);
    }
    assert SlotFits(w', role);
    assert SlotFits(w', Opposite(role));
  }

  lemma AnnouncingKeepsGuarded(w: World, t: nat, hello: HelloInfo)
    requires t < |w.parties| && Occupies(w.room, t, RoleOf(w, t))
    requires Guarded(w, Mobile) && Guarded(w, Desktop)
    ensures Guarded(Announcing(w, t, hello), Mobile) && Guarded(Announcing(w, t, hello), Desktop)
  {
    var role := RoleOf(w, t);
    var w' := Announcing(w, t, hello);
    assert Guarded(w', role);
    assert Guarded(w', Opposite(role));
  }

  // Once both have announced themselves, the last word in each inbox is the acknowledgement.
  lemma AcknowledgingPairs(w: World, p: Primitives)
    requires Base(w, p) && BothHellos(w.room)
    ensures Inv(w.(room := AcknowledgedPair(w.room)), p)
  {
    assert SlotFits(w, Mobile) && SlotFits(w, Desktop);
    var m, d := HelloAt(w.room, Mobile), HelloAt(w.room, Desktop);
    var tm, td := w.room.mobile.value.transport, w.room.desktop.value.transport;
    var forMobile, forDesktop := HelloAck(AckFor(m, d)), HelloAck(AckFor(d, m));
    FrameKeepsBase(w, p, tm, forMobile);
    FramedInboxes(w, tm, forMobile);
    AppendedWord(InboxOf(w.room, tm), forMobile, []);
    var w1 := WithFrame(w, tm, forMobile);
    FrameKeepsBase(w1, p, td, forDesktop);
    FramedInboxes(w1, td, forDesktop);
    AppendedWord(InboxOf(w1.room, td), forDesktop, []);
    var w2 := WithFrame(w1, td, forDesktop);
    assert w2 == w.(room := AcknowledgedPair(w.room));
    assert Paired(w2, Mobile) && Paired(w2, Desktop);
  }

  lemma AnnouncedKeepsInv(w: World, p: Primitives, t: nat, w': World)
    requires Inv(w, p) && t < |w.parties| && t in w.room.connected && w.parties[t].conn.ephemeral.Some?
    requires var announced := Announcing(w, t, HelloOf(w.parties[t].config, w.parties[t].conn.ephemeral.value));
             w' == announced.(room := AcknowledgedPair(announced.room))
    ensures Inv(w', p)
  {
    var hello := HelloOf(w.parties[t].config, w.parties[t].conn.ephemeral.value);
    var announced := Announcing(w, t, hello);
    assert ConnectedFits(w, t);
    AnnouncingKeepsBase(w, p, t, hello);
    if BothHellos(announced.room) {
      AcknowledgingPairs(announced, p);
    } else {
      AnnouncingKeepsGuarded(w, t, hello);
      assert announced.(room := AcknowledgedPair(announced.room)) == announced;
    }
  }

  lemma AcceptedHello(w: World, t: nat)
    requires t < |w.parties| && w.parties[t].helloDue > 0 && w.parties[t].conn.ephemeral.Some?
    requires t in w.room.connected && Occupies(w.room, t, RoleOf(w, t))
    ensures var due := Owing(w, t, w.parties[t].helloDue - 1);
            var announced := Announcing(due, t, HelloOf(w.parties[t].config, w.parties[t].conn.ephemeral.value));
            Next(w, SendHello(t)) == announced.(room := AcknowledgedPair(announced.room))
  {
  }

  lemma RefusedHello(w: World, t: nat)
    requires t < |w.parties| && w.parties[t].helloDue > 0 && t !in w.room.connected
    ensures Next(w, SendHello(t)) ==
            WithConn(Owing(w, t, w.parties[t].helloDue - 1), t, InState(w.parties[t].conn, Failed))
  {
  }

  lemma AcceptedHelloKeepsInv(w: World, p: Primitives, t: nat, due: World)
    requires Inv(due, p) && t < |w.parties| && w.parties[t].helloDue > 0 && t in w.room.connected
    requires due == Owing(w, t, w.parties[t].helloDue - 1)
    ensures Inv(Next(w, SendHello(t)), p)
  {
    assert due.parties[t].conn.ephemeral.Some? && Occupies(w.room, t, RoleOf(w, t)) by {
      assert ConnectedFits(due, t) && SlotFits(due, RoleOf(due, t));
    }
    AcceptedHello(w, t);
    AnnouncedKeepsInv(due, p, t, Next(w, SendHello(t)));
  }

  lemma RegisteredHelloKeepsInv(w: World, p: Primitives, t: nat)
    requires Inv(w, p) && t < |w.parties| && w.parties[t].helloDue > 0 && t in w.room.connected
    ensures Inv(Next(w, SendHello(t)), p)
  {
    hide Base, Paired, Guarded;
    OwingKeepsInv(w, p, t, w.parties[t].helloDue - 1);
    AcceptedHelloKeepsInv(w, p, t, Owing(w, t, w.parties[t].helloDue - 1));
  }

  lemma RefusedHelloKeepsInv(w: World, p: Primitives, t: nat)
    requires Inv(w, p) && t < |w.parties| && w.parties[t].helloDue > 0 && t !in w.room.connected
    ensures Inv(Next(w, SendHello(t)), p)
  {
    hide Paired, Guarded;
    var due := Owing(w, t, w.parties[t].helloDue - 1);
    OwingKeepsInv(w, p, t, w.parties[t].helloDue - 1);
    RefusedHello(w, t);
    assert PartyFits(due.parties[t], p, due.generated);
    GoingDownKeepsInv(due, p, t, InState(w.parties[t].conn, Failed));
  }

  lemma HelloKeepsInv(w: World, p: Primitives, t: nat)
    requires Inv(w, p)
    ensures Inv(Next(w, SendHello(t)), p)
  {
    if t >= |w.parties| || w.parties[t].helloDue == 0 {
      assert Next(w, SendHello(t)) == w;
    } else if t in w.room.connected {
      RegisteredHelloKeepsInv(w, p, t);
    } else {
      RefusedHelloKeepsInv(w, p, t);
    }
  }

  lemma NextKeepsInv(w: World, p: Primitives, action: Action)
    requires Inv(w, p) && FixedLength(p) && CollisionFree(p)
    ensures Inv(Next(w, action), p)
  {
    match action
    case Connect(t, secretKey) => ConnectKeepsInv(w, p, t, secretKey);
    case SendHello(t) => HelloKeepsInv(w, p, t);
    case Receive(t, clocks) => ReceiveKeepsInv(w, p, t, clocks);
    case Transmit(t, inner) => TransmitKeepsInv(w, p, t, inner);
    case Close(t) => CloseKeepsInv(w, p, t);
  }

  ghost predicate Configured(configs: seq<Config>, p: Primitives) {
    forall c | c in configs :: c.primitives == p && c.handshake == Initiate && Matching(p, c.identity)
  }

  lemma {:induction false} RunKeepsInv(configs: seq<Config>, p: Primitives, actions: seq<Action>)
    requires Configured(configs, p) && FixedLength(p) && CollisionFree(p)
    ensures Inv(RunRelay(configs, actions), p)
    decreases |actions|
  {
    if actions == [] {
      var w := Start(configs);
      forall t | 0 <= t < |w.parties|
        ensures PartyFits(w.parties[t], p, w.generated)
      {
        assert configs[t] in configs;
        assert w.parties[t] == Party(configs[t], NewConn(0, EMPTY_HISTORY, []), 0);
      }
      assert Base(w, p);
    } else {
      RunKeepsInv(configs, p, actions[..|actions| - 1]);
      NextKeepsInv(RunRelay(configs, actions[..|actions| - 1]), p, actions[|actions| - 1]);
    }
  }

  // In every run, whenever a mobile and a desktop party are registered, both are up and both
  // inboxes are empty, each opens what the other seals. Either side may have reconnected with
  // a new ephemeral key any number of times, been displaced by another transport, or have
  // found stale frames in its inbox.
  lemma KeysAgreeInEveryRun(configs: seq<Config>, p: Primitives, actions: seq<Action>)
    requires Configured(configs, p) && Commutes(p) && FixedLength(p) && CollisionFree(p)
    ensures var w := RunRelay(configs, actions);
            Occupied(w, Mobile) && Occupied(w, Desktop)
            && InboxAt(w, Mobile) == [] && InboxAt(w, Desktop) == []
            && Up(PartyAt(w, Mobile).conn) && Up(PartyAt(w, Desktop).conn) ==>
              && BothHellos(w.room)
              && PartyAt(w, Mobile).conn.keys.Some? && PartyAt(w, Desktop).conn.keys.Some?
              && Agree(PartyAt(w, Mobile).conn.keys.value, PartyAt(w, Desktop).conn.keys.value)
  {
    var w := RunRelay(configs, actions);
    RunKeepsInv(configs, p, actions);
    assert SlotFits(w, Mobile) && SlotFits(w, Desktop);
    if Occupied(w, Mobile) && Occupied(w, Desktop)
       && InboxAt(w, Mobile) == [] && InboxAt(w, Desktop) == []
       && Up(PartyAt(w, Mobile).conn) && Up(PartyAt(w, Desktop).conn) {
      assert Guarded(w, Mobile) && Guarded(w, Desktop);
      assert Paired(w, Mobile) && Paired(w, Desktop);
      var m, d := PartyAt(w, Mobile), PartyAt(w, Desktop);
      assert PartyFits(m, p, w.generated) && PartyFits(d, p, w.generated);
      DerivedKeysAgree(p, m.config.identity, m.conn.ephemeral.value, d.config.identity, d.conn.ephemeral.value);
    }
  }
}
