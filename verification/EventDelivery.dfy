/**
 What one connection keeps, whatever frames it is given: the events handed to the
 application are continuous and genuine, and everything it sends out is genuine.
 */
module EventDelivery {
  import opened Results
  import opened RemoteCrypto
  import opened EventJournal
  import opened RemoteConnection

  // The events the listeners were given, in order.
  function Deliveries(notices: seq<Notice>): seq<RemoteEvent> {
    if |notices| == 0 then []
    else
      var last := notices[|notices| - 1];
      var before := Deliveries(notices[..|notices| - 1]);
      if last.Delivered? then before + [last.event] else before
  }

  lemma DeliveriesOfTold(notices: seq<Notice>, notice: Notice)
    ensures Deliveries(notices + [notice]) ==
            if notice.Delivered? then Deliveries(notices) + [notice.event] else Deliveries(notices)
  {
    assert (notices + [notice])[..|notices|] == notices;
  }

  // The number of the last event in `log`, or `start` before the first one.
  function Position(start: nat, log: seq<RemoteEvent>): nat {
    if log == [] then start else log[|log| - 1].sequence
  }

  // Every event that is not a resync follows its predecessor by exactly one.
  ghost predicate Continuous(start: nat, log: seq<RemoteEvent>) {
    forall i | 0 <= i < |log| :: Follows(start, log, i)
  }

  ghost predicate Follows(start: nat, log: seq<RemoteEvent>, i: nat)
    requires i < |log|
  {
    log[i].name == RESYNC || log[i].sequence == Position(start, log[..i]) + 1
  }

  // `event` is the event to which its number was given.
  ghost predicate Genuine(event: RemoteEvent, emitted: seq<RemoteEvent>) {
    1 <= event.sequence <= |emitted| && emitted[event.sequence - 1] == event
  }

  ghost predicate AllGenuine(events: seq<RemoteEvent>, emitted: seq<RemoteEvent>) {
    forall e | e in events :: Genuine(e, emitted)
  }

  ghost predicate GenuineSealed(sealed: Sealed, emitted: seq<RemoteEvent>) {
    sealed.inner.Event? ==> Genuine(sealed.inner.event, emitted)
  }

  ghost predicate EarlyGenuine(early: seq<Sealed>, emitted: seq<RemoteEvent>) {
    forall s | s in early :: GenuineSealed(s, emitted)
  }

  ghost predicate FramesGenuine(frames: seq<Frame>, emitted: seq<RemoteEvent>) {
    forall f | f in frames && f.SealedFrame? :: GenuineSealed(f.sealed, emitted)
  }

  ghost predicate ReplaysGenuine(replays: seq<seq<RemoteEvent>>, emitted: seq<RemoteEvent>) {
    forall r | r in replays :: AllGenuine(r, emitted)
  }

  // The receiving half: `emitted` is what the peer's journal has numbered so far.
  ghost predicate ReceivesWell(c: Conn, start: nat, emitted: seq<RemoteEvent>) {
    var log := Deliveries(c.notices);
    && Continuous(start, log)
    && Position(start, log) == c.lastEventSequence
    && AllGenuine(log, emitted)
    && EarlyGenuine(c.earlySealed, emitted)
  }

  // The sending half.
  ghost predicate SendsWell(c: Conn, b: Bounds) {
    && Sound(c.journal, b)
    && ReplaysGenuine(c.replays, c.journal.emitted)
    && FramesGenuine(c.sent, c.journal.emitted)
  }

  ghost predicate Well(c: Conn, b: Bounds, start: nat, emitted: seq<RemoteEvent>) {
    ReceivesWell(c, start, emitted) && SendsWell(c, b)
  }

  // A step leaves both halves well and only appends to the journal's history.
  ghost predicate KeepsWell(c: Conn, c': Conn, b: Bounds, start: nat, emitted: seq<RemoteEvent>) {
    Well(c', b, start, emitted) && c.journal.emitted <= c'.journal.emitted
  }

  lemma ToldKeepsWell(c: Conn, notice: Notice, b: Bounds, start: nat, emitted: seq<RemoteEvent>)
    requires Well(c, b, start, emitted) && !notice.Delivered?
    ensures KeepsWell(c, Told(c, notice), b, start, emitted)
  {
    DeliveriesOfTold(c.notices, notice);
  }

  // What was genuine stays genuine when the peer numbers more events.
  lemma MoreIsGenuine(c: Conn, start: nat, emitted: seq<RemoteEvent>, more: seq<RemoteEvent>)
    requires ReceivesWell(c, start, emitted) && emitted <= more
    ensures ReceivesWell(c, start, more)
  {
    assert forall e | Genuine(e, emitted) :: Genuine(e, more);
  }

  lemma InStateKeepsWell(c: Conn, state: State, b: Bounds, start: nat, emitted: seq<RemoteEvent>)
    requires Well(c, b, start, emitted)
    ensures KeepsWell(c, InState(c, state), b, start, emitted)
  {
    DeliveriesOfTold(c.notices, StateChanged(state));
  }

  lemma SentSealedKeepsWell(c: Conn, inner: SessionFrame, b: Bounds, start: nat, emitted: seq<RemoteEvent>)
    requires Well(c, b, start, emitted)
    requires inner.Event? ==> Genuine(inner.event, c.journal.emitted)
    ensures KeepsWell(c, SentSealed(c, inner), b, start, emitted)
  {
  }

  lemma FailKeepsWell(c: Conn, code: string, b: Bounds, start: nat, emitted: seq<RemoteEvent>)
    requires Well(c, b, start, emitted)
    ensures KeepsWell(c, AfterFail(c, code), b, start, emitted)
  {
    ToldKeepsWell(c, Error(code), b, start, emitted);
    InStateKeepsWell(Told(c, Error(code)).(keys := None), Failed, b, start, emitted);
  }

  // Only an appended event is new to the history; what was genuine stays genuine.
  lemma JournalStepKeepsWell(c: Conn, op: Op, b: Bounds, start: nat, emitted: seq<RemoteEvent>)
    requires Well(c, b, start, emitted)
    ensures KeepsWell(c, c.(journal := Step(c.journal, op, b)), b, start, emitted)
  {
    StepKeepsSound(c.journal, op, b);
  }

  lemma EmitKeepsWell(c: Conn, config: Config, name: string, payload: string, clock: Clock, start: nat, emitted: seq<RemoteEvent>)
    requires Well(c, config.bounds, start, emitted)
    ensures KeepsWell(c, AfterEmit(c, config, name, payload, clock), config.bounds, start, emitted)
  {
    var op := Emit(name, payload, clock.recordedAt, clock.now);
    JournalStepKeepsWell(c, op, config.bounds, start, emitted);
    var recorded := c.(journal := Step(c.journal, op, config.bounds));
    SentSealedKeepsWell(recorded, if c.state == Online then Event(RemoteEvent(c.journal.log.sequence + 1, name, payload))
                                  else Response(""), config.bounds, start, emitted);
  }

  lemma ReplayStepKeepsWell(c: Conn, index: nat, b: Bounds, start: nat, emitted: seq<RemoteEvent>)
    requires index < |c.replays| && Well(c, b, start, emitted)
    ensures KeepsWell(c, AfterReplayStep(c, index), b, start, emitted)
  {
    var rest := c.replays[index];
    assert rest in c.replays;
    if rest == [] || c.keys.None? {
      forall r | r in c.replays[..index] + c.replays[index + 1..]
        ensures r in c.replays
      {
      }
    } else {
      assert rest[0] in rest;
      SentSealedKeepsWell(c, Event(rest[0]), b, start, emitted);
      forall r | r in c.replays[index := rest[1..]]
        ensures r == rest[1..] || r in c.replays
      {
      }
    }
  }

  lemma ReplayKeepsWell(c: Conn, config: Config, after: nat, clock: Clock, start: nat, emitted: seq<RemoteEvent>)
    requires Well(c, config.bounds, start, emitted)
    ensures KeepsWell(c, AfterReplay(c, config, after, clock), config.bounds, start, emitted)
  {
    JournalStepKeepsWell(c, Query(clock.asked), config.bounds, start, emitted);
    var asked := c.(journal := Step(c.journal, Query(clock.asked), config.bounds));
    ReplayExact(asked.journal, after, config.bounds);
    match ReplayAnswer(asked.journal.log, after)
    case None => EmitKeepsWell(asked, config, RESYNC, "", clock, start, emitted);
    case Some(events) =>
      ReplayStepKeepsWell(asked.(replays := asked.replays + [events]), |asked.replays|, config.bounds, start, emitted);
  }

  lemma ContinuousExtends(start: nat, log: seq<RemoteEvent>, event: RemoteEvent)
    requires Continuous(start, log)
    requires event.name == RESYNC || event.sequence == Position(start, log) + 1
    ensures Continuous(start, log + [event])
  {
    var longer := log + [event];
    forall i | 0 <= i < |longer|
      ensures Follows(start, longer, i)
    {
      if i < |log| {
        assert Follows(start, log, i) && longer[..i] == log[..i];
      } else {
        assert longer[..i] == log;
      }
    }
  }

  lemma DeliveryKeepsReceiving(c: Conn, event: RemoteEvent, start: nat, emitted: seq<RemoteEvent>)
    requires ReceivesWell(c, start, emitted) && Genuine(event, emitted)
    requires event.name == RESYNC || event.sequence == c.lastEventSequence + 1
    ensures ReceivesWell(Told(c, Delivered(event)).(lastEventSequence := event.sequence), start, emitted)
  {
    var log := Deliveries(c.notices);
    DeliveriesOfTold(c.notices, Delivered(event));
    ContinuousExtends(start, log, event);
    forall e | e in log + [event]
      ensures Genuine(e, emitted)
    {
      if e in log {
      }
    }
  }

  lemma AcceptedKeepsWell(c: Conn, event: RemoteEvent, b: Bounds, start: nat, emitted: seq<RemoteEvent>)
    requires Well(c, b, start, emitted) && Genuine(event, emitted)
    requires event.name == RESYNC || event.sequence == c.lastEventSequence + 1
    ensures KeepsWell(c, Accepted(c, event), b, start, emitted)
  {
    var online := if c.state == Recovering then InState(c, Online) else c;
    InStateKeepsWell(c, Online, b, start, emitted);
    DeliveryKeepsReceiving(online, event, start, emitted);
    var told := Told(online, Delivered(event)).(lastEventSequence := event.sequence);
    SentSealedKeepsWell(told, Acknowledgement(event.sequence), b, start, emitted);
  }

  lemma EventKeepsWell(c: Conn, event: RemoteEvent, b: Bounds, start: nat, emitted: seq<RemoteEvent>)
    requires Well(c, b, start, emitted) && Genuine(event, emitted)
    ensures KeepsWell(c, AfterEvent(c, event), b, start, emitted)
  {
    if event.name == RESYNC || event.sequence == c.lastEventSequence + 1 {
      AcceptedKeepsWell(c, event, b, start, emitted);
    } else if event.sequence > c.lastEventSequence {
      InStateKeepsWell(c, Recovering, b, start, emitted);
    }
  }

  lemma SealedKeepsWell(c: Conn, config: Config, sealed: Sealed, clock: Clock, start: nat, emitted: seq<RemoteEvent>)
    requires Well(c, config.bounds, start, emitted) && GenuineSealed(sealed, emitted)
    ensures KeepsWell(c, AfterSealed(c, config, sealed, clock), config.bounds, start, emitted)
  {
    if c.keys.Some? {
      if Open(c.keys.value.receiveKey, sealed).None? {
        FailKeepsWell(c, "invalid_frame", config.bounds, start, emitted);
      } else {
        match sealed.inner
        case Event(event) => EventKeepsWell(c, event, config.bounds, start, emitted);
        case Acknowledgement(sequence) => JournalStepKeepsWell(c, Ack(sequence), config.bounds, start, emitted);
        case Resume(after) => ReplayKeepsWell(c, config, after, clock, start, emitted);
        case Request(requestId) => ToldKeepsWell(c, Requested(requestId), config.bounds, start, emitted);
        case Response(_) =>
      }
    }
  }

  lemma {:induction false} EarlyKeepsWell(
      c: Conn, config: Config, early: seq<Sealed>, clock: nat -> Clock, start: nat, emitted: seq<RemoteEvent>)
    requires Well(c, config.bounds, start, emitted) && EarlyGenuine(early, emitted)
    ensures KeepsWell(c, AfterEarly(c, config, early, clock), config.bounds, start, emitted)
    decreases |early|
  {
    if early != [] && c.state == Online {
      SealedKeepsWell(c, config, early[0], clock(|early|), start, emitted);
      EarlyKeepsWell(AfterSealed(c, config, early[0], clock(|early|)), config, early[1..], clock, start, emitted);
    }
  }

  lemma GoOnlineKeepsWell(c: Conn, config: Config, clock: nat -> Clock, start: nat, emitted: seq<RemoteEvent>)
    requires Well(c, config.bounds, start, emitted)
    ensures KeepsWell(c, AfterGoOnline(c, config, clock), config.bounds, start, emitted)
  {
    InStateKeepsWell(c, Online, config.bounds, start, emitted);
    var online := InState(c, Online).(earlySealed := []);
    EarlyKeepsWell(online, config, c.earlySealed, clock, start, emitted);
    var drained := AfterEarly(online, config, c.earlySealed, clock);
    SentSealedKeepsWell(drained, Resume(drained.lastEventSequence), config.bounds, start, emitted);
  }

  lemma HelloAckKeepsWell(c: Conn, config: Config, ack: AckInfo, clock: nat -> Clock, start: nat, emitted: seq<RemoteEvent>)
    requires Well(c, config.bounds, start, emitted)
    ensures KeepsWell(c, AfterHelloAck(c, config, ack, clock), config.bounds, start, emitted)
  {
    HelloAckCases(c, config, ack, clock);
    if AcceptsAck(c, config, ack) {
      GoOnlineKeepsWell(Keyed(c, config, ack), config, clock, start, emitted);
    } else {
      FailKeepsWell(c, "invalid_frame", config.bounds, start, emitted);
      FailKeepsWell(c, "unauthorized", config.bounds, start, emitted);
    }
  }

  lemma PairingPendingKeepsWell(
      c: Conn, config: Config, connectionId: string, peerIdentityKey: Bytes, start: nat, emitted: seq<RemoteEvent>)
    requires Well(c, config.bounds, start, emitted)
    ensures KeepsWell(c, AfterPairingPending(c, config, connectionId, peerIdentityKey), config.bounds, start, emitted)
  {
    hide AfterFail, InState, Continuous, Deliveries;
    var known := c.(peerIdentityKey := Some(peerIdentityKey));
    FailKeepsWell(c, "invalid_frame", config.bounds, start, emitted);
    FailKeepsWell(known, "unauthorized", config.bounds, start, emitted);
    InStateKeepsWell(known, PendingApproval, config.bounds, start, emitted);
  }

  lemma PeerStatusKeepsWell(c: Conn, online: bool, b: Bounds, start: nat, emitted: seq<RemoteEvent>)
    requires Well(c, b, start, emitted)
    ensures KeepsWell(c, AfterPeerStatus(c, online), b, start, emitted)
  {
    if !online && (c.state == Online || c.state == Recovering) {
      var parked := c.(keys := None, earlySealed := []);
      InStateKeepsWell(parked, Connecting, b, start, emitted);
      ToldKeepsWell(InState(parked, Connecting), PeerPresence(online), b, start, emitted);
    } else {
      ToldKeepsWell(c, PeerPresence(online), b, start, emitted);
    }
  }

  // What only concerns the handshake matters to neither half.
  lemma HandshakeKeepsWell(
      c: Conn, keys: Option<SessionKeys>, ephemeral: Option<KeyPair>, peer: Option<Bytes>, hello: Option<string>, inbound: seq<Inbound>,
      b: Bounds, start: nat, emitted: seq<RemoteEvent>)
    requires Well(c, b, start, emitted)
    ensures KeepsWell(c, c.(keys := keys, ephemeral := ephemeral, peerIdentityKey := peer, handshakeConnectionId := hello,
                            inbound := inbound), b, start, emitted)
  {
  }

  lemma InboundHelloKeepsWell(c: Conn, config: Config, hello: HelloInfo, start: nat, emitted: seq<RemoteEvent>)
    requires Well(c, config.bounds, start, emitted)
    ensures KeepsWell(c, AfterInboundHello(c, config, hello), config.bounds, start, emitted)
  {
    hide Well, AfterFail;
    var noted := c.(handshakeConnectionId := Some(hello.connectionId));
    HandshakeKeepsWell(c, c.keys, c.ephemeral, c.peerIdentityKey, noted.handshakeConnectionId, c.inbound, config.bounds, start, emitted);
    HandshakeKeepsWell(c, c.keys, c.ephemeral, Some(hello.identityKey), noted.handshakeConnectionId, c.inbound + [Deciding(hello)],
                       config.bounds, start, emitted);
    FailKeepsWell(noted, "invalid_frame", config.bounds, start, emitted);
    FailKeepsWell(noted, "unauthorized", config.bounds, start, emitted);
  }

  lemma HelloKeepsWell(c: Conn, config: Config, hello: HelloInfo, secretKey: Bytes, start: nat, emitted: seq<RemoteEvent>)
    requires Well(c, config.bounds, start, emitted)
    ensures KeepsWell(c, AfterHello(c, config, hello, secretKey), config.bounds, start, emitted)
  {
    hide Well, AfterInboundHello, AfterFail;
    FailKeepsWell(c, "invalid_frame", config.bounds, start, emitted);
    InboundHelloKeepsWell(c, config, hello, start, emitted);
    var restarted := c.(keys := None, ephemeral := Some(MakeKeyPair(config.primitives, secretKey)));
    HandshakeKeepsWell(c, None, restarted.ephemeral, c.peerIdentityKey, c.handshakeConnectionId, c.inbound, config.bounds, start, emitted);
    InboundHelloKeepsWell(restarted, config, hello, start, emitted);
  }

  lemma AgreeKeepsWell(c: Conn, config: Config, hello: HelloInfo, start: nat, emitted: seq<RemoteEvent>)
    requires Well(c, config.bounds, start, emitted)
    ensures KeepsWell(c, AfterAgree(c, config, hello), config.bounds, start, emitted)
  {
    FailKeepsWell(c, "invalid_frame", config.bounds, start, emitted);
  }

  lemma PendingKeepsWell(c: Conn, frame: Frame, inbound: seq<Inbound>, b: Bounds, start: nat, emitted: seq<RemoteEvent>)
    requires Well(c, b, start, emitted) && !frame.SealedFrame?
    ensures KeepsWell(c, InState(c, PendingApproval).(sent := c.sent + [frame], inbound := inbound), b, start, emitted)
  {
    InStateKeepsWell(c, PendingApproval, b, start, emitted);
  }

  lemma InboundKeepsWell(c: Conn, config: Config, index: nat, answer: Answer, clock: nat -> Clock, start: nat, emitted: seq<RemoteEvent>)
    requires index < |c.inbound| && Well(c, config.bounds, start, emitted)
    ensures KeepsWell(c, AfterInbound(c, config, index, answer, clock), config.bounds, start, emitted)
  {
    hide AfterGoOnline, AfterAgree, AfterFail, Well, InState;
    var rest := c.(inbound := c.inbound[..index] + c.inbound[index + 1..]);
    HandshakeKeepsWell(c, c.keys, c.ephemeral, c.peerIdentityKey, c.handshakeConnectionId, rest.inbound, config.bounds, start, emitted);
    match c.inbound[index]
    case Deciding(hello) =>
      FailKeepsWell(rest, "unauthorized", config.bounds, start, emitted);
      AgreeKeepsWell(rest, config, hello, start, emitted);
      PendingKeepsWell(rest, PairingPending(hello.connectionId, config.identity.publicKey), rest.inbound + [Approving(hello)],
                       config.bounds, start, emitted);
    case Approving(hello) =>
      FailKeepsWell(rest, "approval_rejected", config.bounds, start, emitted);
      AgreeKeepsWell(rest, config, hello, start, emitted);
    case Answering =>
      FailKeepsWell(rest, "invalid_frame", config.bounds, start, emitted);
      GoOnlineKeepsWell(rest, config, clock, start, emitted);
  }

  // Whatever frame arrives, a connection stays well as long as sealed events are genuine.
  lemma FrameKeepsWell(c: Conn, config: Config, frame: Frame, clock: nat -> Clock, start: nat, emitted: seq<RemoteEvent>)
    requires Well(c, config.bounds, start, emitted)
    requires frame.SealedFrame? ==> GenuineSealed(frame.sealed, emitted)
    ensures KeepsWell(c, AfterFrame(c, config, frame, clock), config.bounds, start, emitted)
  {
    hide AfterHelloAck, AfterPairingPending, AfterPeerStatus, AfterSealed, AfterHello;
    FailKeepsWell(c, "invalid_frame", config.bounds, start, emitted);
    match frame
    case HelloAck(ack) => HelloAckKeepsWell(c, config, ack, clock, start, emitted);
    case PairingPending(connectionId, key) => PairingPendingKeepsWell(c, config, connectionId, key, start, emitted);
    case PeerStatus(online) => PeerStatusKeepsWell(c, online, config.bounds, start, emitted);
    case SealedFrame(sealed) =>
      SealedKeepsWell(c, config, sealed, clock(0), start, emitted);
    case Hello(hello) => HelloKeepsWell(c, config, hello, clock(0).secretKey, start, emitted);
    case Plaintext(_) =>
    case Malformed =>
  }

  lemma ConnectKeepsWell(c: Conn, ephemeral: KeyPair, b: Bounds, start: nat, emitted: seq<RemoteEvent>)
    requires Well(c, b, start, emitted)
    ensures KeepsWell(c, AfterConnect(c, ephemeral), b, start, emitted)
  {
    InStateKeepsWell(c, if c.state == Idle then Connecting else Reconnecting, b, start, emitted);
  }

  lemma SendHelloKeepsWell(c: Conn, config: Config, b: Bounds, start: nat, emitted: seq<RemoteEvent>)
    requires Well(c, b, start, emitted)
    ensures KeepsWell(c, AfterSendHello(c, config), b, start, emitted)
  {
    InStateKeepsWell(c, Failed, b, start, emitted);
  }

  lemma CloseKeepsWell(c: Conn, b: Bounds, start: nat, emitted: seq<RemoteEvent>)
    requires Well(c, b, start, emitted)
    ensures KeepsWell(c, AfterClose(c), b, start, emitted)
  {
    InStateKeepsWell(c, Closed, b, start, emitted);
  }

  lemma TransportClosedKeepsWell(c: Conn, b: Bounds, start: nat, emitted: seq<RemoteEvent>)
    requires Well(c, b, start, emitted)
    ensures KeepsWell(c, AfterTransportClosed(c), b, start, emitted)
  {
    InStateKeepsWell(c.(keys := None), Reconnecting, b, start, emitted);
  }

  // An event can reach the application a second time only after a resync in between.
  lemma RepeatOnlyAcrossResync(start: nat, log: seq<RemoteEvent>, i: nat, j: nat)
    requires Continuous(start, log) && i < j < |log| && log[j].sequence <= log[i].sequence
    ensures exists k :: i < k <= j && log[k].name == RESYNC
  {
    if forall k | i < k <= j :: log[k].name != RESYNC {
      ConsecutiveNumbers(start, log, i, j);
    }
  }

  lemma {:induction false} ConsecutiveNumbers(start: nat, log: seq<RemoteEvent>, i: nat, j: nat)
    requires Continuous(start, log) && i <= j < |log|
    requires forall k | i < k <= j :: log[k].name != RESYNC
    ensures log[j].sequence == log[i].sequence + (j - i)
    decreases j
  {
    if i < j {
      assert Follows(start, log, j);
      ConsecutiveNumbers(start, log, i, j - 1);
    }
  }
}
