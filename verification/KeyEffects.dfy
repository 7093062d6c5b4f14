/**
 How the frames a relay delivers change the session keys of one connection, and what that
 connection sends in return.
 */
module KeyEffects {
  import opened Results
  import opened RemoteCrypto
  import opened EventJournal
  import opened RemoteConnection

  predicate Up(c: Conn) {
    c.state == Online || c.state == Recovering
  }

  predicate KeysIffUp(c: Conn) {
    c.keys.Some? <==> Up(c)
  }

  ghost predicate AllSealedUnder(frames: seq<Frame>, key: Bytes) {
    forall f | f in frames :: f.SealedFrame? && f.sealed.key == key
  }

  ghost predicate AllSealed(frames: seq<Frame>) {
    forall f | f in frames :: f.SealedFrame?
  }

  // The keys are kept or, with the connection going down, dropped.
  ghost predicate KeepsKeys(c: Conn, c': Conn) {
    && c'.ephemeral == c.ephemeral
    && KeysIffUp(c')
    && (Up(c') ==> c'.keys == c.keys)
    && c.sent <= c'.sent
    && (c.keys.Some? ==> AllSealedUnder(c'.sent[|c.sent|..], c.keys.value.sendKey))
    && (c.keys.None? ==> c'.sent == c.sent)
  }

  lemma EventKeepsKeys(c: Conn, event: RemoteEvent)
    requires KeysIffUp(c) && c.keys.Some?
    ensures KeepsKeys(c, AfterEvent(c, event))
    ensures c.state == Online && AfterEvent(c, event).state == Recovering ==> |AfterEvent(c, event).sent| > |c.sent|
  {
  }

  lemma ReplayKeepsKeys(c: Conn, config: Config, after: nat, clock: Clock)
    requires KeysIffUp(c) && c.keys.Some?
    ensures KeepsKeys(c, AfterReplay(c, config, after, clock))
    ensures AfterReplay(c, config, after, clock).state == c.state
  {
  }

  lemma SealedKeepsKeys(c: Conn, config: Config, sealed: Sealed, clock: Clock)
    requires KeysIffUp(c) && c.keys.Some?
    ensures var c' := AfterSealed(c, config, sealed, clock);
            && KeepsKeys(c, c')
            && (Up(c') ==> c.keys.value.receiveKey == sealed.key)
            && (c.state == Online && c'.state == Recovering ==> |c'.sent| > |c.sent|)
  {
    if sealed.key == c.keys.value.receiveKey {
      match sealed.inner
      case Event(event) => EventKeepsKeys(c, event);
      case Resume(after) => ReplayKeepsKeys(c, config, after, clock);
      case Acknowledgement(_) =>
      case Request(_) =>
      case Response(_) =>
    }
  }

  lemma KeepsKeysTransitive(c0: Conn, c1: Conn, c2: Conn)
    requires KeepsKeys(c0, c1) && KeepsKeys(c1, c2) && KeysIffUp(c0) && KeysIffUp(c1)
    ensures KeepsKeys(c0, c2)
  {
    var new1, new2 := c1.sent[|c0.sent|..], c2.sent[|c1.sent|..];
    assert c2.sent[|c0.sent|..] == new1 + new2;
  }

  lemma {:induction false} EarlyKeepsKeys(c: Conn, config: Config, early: seq<Sealed>, clock: nat -> Clock)
    requires KeysIffUp(c) && c.keys.Some?
    ensures var c' := AfterEarly(c, config, early, clock);
            && KeepsKeys(c, c')
            && (c.state == Online && c'.state == Recovering ==> |c'.sent| > |c.sent|)
            && (c.state == Online && c'.state == Online ==> OpenedAllEarly(c, config, early, clock))
    decreases |early|
  {
    if early != [] && c.state == Online {
      var c1 := AfterSealed(c, config, early[0], clock(|early|));
      SealedKeepsKeys(c, config, early[0], clock(|early|));
      if c1.keys.Some? {
        EarlyKeepsKeys(c1, config, early[1..], clock);
        KeepsKeysTransitive(c, c1, AfterEarly(c1, config, early[1..], clock));
        if c1.state == Recovering {
          assert AfterEarly(c1, config, early[1..], clock) == c1;
        }
      } else {
        assert AfterEarly(c1, config, early[1..], clock) == c1;
      }
    }
  }

  // A connection that comes up on an acknowledgement has sent something under its new keys.
  lemma GoOnlineSends(c: Conn, config: Config, clock: nat -> Clock)
    requires c.keys.Some?
    ensures var c' := AfterGoOnline(c, config, clock);
            && KeepsKeys(InState(c, Online).(earlySealed := []), c')
            && (Up(c') ==> |c'.sent| > |c.sent|)
  {
    var online := InState(c, Online).(earlySealed := []);
    EarlyKeepsKeys(online, config, c.earlySealed, clock);
    var drained := AfterEarly(online, config, c.earlySealed, clock);
    var c' := AfterGoOnline(c, config, clock);
    if OpenedAllEarly(online, config, c.earlySealed, clock) && drained.keys.Some? {
      var resume := SealedFrame(Sealed(drained.keys.value.sendKey, Resume(drained.lastEventSequence)));
      assert c'.sent == drained.sent + [resume];
      assert c'.sent[|online.sent|..] == drained.sent[|online.sent|..] + [resume];
    }
  }

  // The frames a relay delivers.
  predicate FromRelay(frame: Frame) {
    frame.HelloAck? || frame.SealedFrame? || frame == PeerStatus(false)
  }

  lemma HelloAckKeys(c: Conn, config: Config, ack: AckInfo, clock: nat -> Clock)
    requires KeysIffUp(c) && c.sent == [] && config.handshake == Initiate
    ensures var c' := AfterFrame(c, config, HelloAck(ack), clock);
            && c'.ephemeral == c.ephemeral && KeysIffUp(c')
            && (Up(c') && AcceptsAck(c, config, ack) ==>
                  c'.keys == Keyed(c, config, ack).keys && c'.sent != [] && AllSealedUnder(c'.sent, c'.keys.value.sendKey))
            && (Up(c') && !AcceptsAck(c, config, ack) ==>
                  Up(c) && c'.keys == c.keys && (ack.connectionId != config.connectionId || c.ephemeral.None?))
            && AllSealed(c'.sent)
  {
    HelloAckCases(c, config, ack, clock);
    if AcceptsAck(c, config, ack) {
      var keyed := Keyed(c, config, ack);
      GoOnlineSends(keyed, config, clock);
      var online := InState(keyed, Online).(earlySealed := []);
      var c' := AfterGoOnline(keyed, config, clock);
      assert online.sent == [] && c'.sent[0..] == c'.sent;
    } else if ack.connectionId == config.connectionId && c.ephemeral.Some? {
      assert AfterHelloAck(c, config, ack, clock).state == Failed;
    }
  }

  lemma SealedFrameKeys(c: Conn, config: Config, sealed: Sealed, clock: nat -> Clock)
    requires KeysIffUp(c) && c.sent == []
    ensures var c' := AfterFrame(c, config, SealedFrame(sealed), clock);
            && c'.ephemeral == c.ephemeral && KeysIffUp(c')
            && (Up(c') ==> Up(c) && c'.keys == c.keys && c.keys.value.receiveKey == sealed.key)
            && AllSealed(c'.sent)
  {
    if c.keys.Some? {
      SealedKeepsKeys(c, config, sealed, clock(0));
      var c' := AfterSealed(c, config, sealed, clock(0));
      assert c'.sent[0..] == c'.sent;
    }
  }

  lemma PeerStatusKeys(c: Conn, config: Config, clock: nat -> Clock)
    requires KeysIffUp(c)
    ensures var c' := AfterFrame(c, config, PeerStatus(false), clock);
            c'.ephemeral == c.ephemeral && KeysIffUp(c') && !Up(c') && c'.sent == c.sent
  {
  }

  // A connection that may hold keys without being up: a failure reported from outside leaves them.

  // The keys are kept or dropped; it asks for its transport to be closed only when it fails, and no
  // frame brings it to a regular close.
  ghost predicate KeepsOrDrops(c: Conn, c': Conn) {
    && c'.ephemeral == c.ephemeral
    && (Up(c') ==> c'.keys.Some?)
    && (c'.keys.Some? ==> c'.keys == c.keys)
    && (c'.closeRequested ==> c.closeRequested || (c'.state == Failed && c'.keys.None?))
    && (c'.state == Closed ==> c.state == Closed)
    && c.sent <= c'.sent && AllSealed(c'.sent[|c.sent|..])
  }

  lemma EventKeepsOrDrops(c: Conn, event: RemoteEvent)
    requires c.keys.Some?
    ensures KeepsOrDrops(c, AfterEvent(c, event))
  {
  }

  lemma ReplayKeepsOrDrops(c: Conn, config: Config, after: nat, clock: Clock)
    requires c.keys.Some?
    ensures KeepsOrDrops(c, AfterReplay(c, config, after, clock))
  {
    hide Step;
  }

  lemma SealedKeepsOrDrops(c: Conn, config: Config, sealed: Sealed, clock: Clock)
    requires Up(c) ==> c.keys.Some?
    ensures KeepsOrDrops(c, AfterSealed(c, config, sealed, clock))
  {
    hide AfterEvent, AfterReplay, Step;
    if c.keys.Some? && sealed.key == c.keys.value.receiveKey {
      match sealed.inner
      case Event(event) => EventKeepsOrDrops(c, event);
      case Resume(after) => ReplayKeepsOrDrops(c, config, after, clock);
      case Acknowledgement(_) =>
      case Request(_) =>
      case Response(_) =>
    }
  }

  lemma KeepsOrDropsTwice(c0: Conn, c1: Conn, c2: Conn)
    requires KeepsOrDrops(c0, c1) && KeepsOrDrops(c1, c2) && (c1.closeRequested ==> c0.closeRequested)
    ensures KeepsOrDrops(c0, c2)
  {
    var new1, new2 := c1.sent[|c0.sent|..], c2.sent[|c1.sent|..];
    assert c2.sent[|c0.sent|..] == new1 + new2;
  }

  lemma {:induction false} EarlyKeepsOrDrops(c: Conn, config: Config, early: seq<Sealed>, clock: nat -> Clock)
    requires Up(c) ==> c.keys.Some?
    ensures KeepsOrDrops(c, AfterEarly(c, config, early, clock))
    decreases |early|
  {
    hide AfterSealed, KeepsOrDrops;
    if early == [] || c.state != Online {
      UnchangedKeeps(c);
    } else {
      var c1 := AfterSealed(c, config, early[0], clock(|early|));
      SealedKeepsOrDrops(c, config, early[0], clock(|early|));
      StaysDown(c, c1);
      if c1.state == Online {
        EarlyKeepsOrDrops(c1, config, early[1..], clock);
        KeepsOrDropsTwice(c, c1, AfterEarly(c1, config, early[1..], clock));
      }
    }
  }

  lemma UnchangedKeeps(c: Conn)
    requires Up(c) ==> c.keys.Some?
    ensures KeepsOrDrops(c, c)
  {
  }

  lemma StaysDown(c: Conn, c': Conn)
    requires KeepsOrDrops(c, c')
    ensures Up(c') ==> c'.keys.Some? && (c'.closeRequested ==> c.closeRequested)
  {
  }

  lemma GoOnlineKeepsOrDrops(c: Conn, config: Config, clock: nat -> Clock)
    requires c.keys.Some?
    ensures KeepsOrDrops(c, AfterGoOnline(c, config, clock))
  {
    hide AfterEarly, OpenedAllEarly;
    var online := InState(c, Online).(earlySealed := []);
    EarlyKeepsOrDrops(online, config, c.earlySealed, clock);
    var drained := AfterEarly(online, config, c.earlySealed, clock);
    var c' := AfterGoOnline(c, config, clock);
    if drained.keys.Some? {
      var resume := SealedFrame(Sealed(drained.keys.value.sendKey, Resume(drained.lastEventSequence)));
      assert (drained.sent + [resume])[|online.sent|..] == drained.sent[|online.sent|..] + [resume];
    }
  }

  // What one frame from the relay leaves of the keys: an acknowledgement that is accepted brings its
  // own, any other frame keeps them or drops them.
  lemma FrameKeepsOrDrops(c: Conn, config: Config, frame: Frame, clock: nat -> Clock)
    requires FromRelay(frame) && config.handshake == Initiate && (Up(c) ==> c.keys.Some?)
    ensures var c' := AfterFrame(c, config, frame, clock);
            if frame.HelloAck? && AcceptsAck(c, config, frame.ack) then KeepsOrDrops(Keyed(c, config, frame.ack), c')
            else
              && KeepsOrDrops(c, c')
              && (frame.HelloAck? && c'.keys.Some? ==> frame.ack.connectionId != config.connectionId || c.ephemeral.None?)
  {
    hide AfterSealed, AfterGoOnline, DeriveSessionKeys;
    match frame
    case HelloAck(ack) =>
      HelloAckCases(c, config, ack, clock);
      if AcceptsAck(c, config, ack) {
        GoOnlineKeepsOrDrops(Keyed(c, config, ack), config, clock);
      }
    case SealedFrame(sealed) => SealedKeepsOrDrops(c, config, sealed, clock(0));
    case _ =>
  }
}
