/**
 One end of a remote link (packages/remote-control/src/connection.ts), initiating or accepting.

 `Conn` is the state of a connection. Frames handed to the transport are collected in
 `sent`, everything the listeners are told in `notices`. A replay pauses at every `await`
 between two sends; what it still has to send is kept in `replays`, so that live events can
 come between; an accepting end likewise pauses while it answers a hello (`inbound`). `journal` is
 the shared event log with its history. The `After...` functions are the methods on values;
 `Connection` in RemoteEndpoint.dfy is the class, proved against them.
 */
module RemoteConnection {
  import opened Results
  import opened RemoteCrypto
  import opened EventJournal

  datatype SessionFrame =
    | Event(event: RemoteEvent)
    | Acknowledgement(sequence: nat)
    | Resume(lastEventSequence: nat)
    | Request(requestId: string)
    | Response(requestId: string)

  // Authenticated encryption: the frame can be read under the sealing key only.
  datatype Sealed = Sealed(key: Bytes, inner: SessionFrame)

  function Open(key: Bytes, sealed: Sealed): Option<SessionFrame> {
    if sealed.key == key then Some(sealed.inner) else None
  }

  datatype HelloInfo = HelloInfo(role: Role, connectionId: string, identityKey: Bytes, ephemeralKey: Bytes)

  datatype AckInfo = AckInfo(connectionId: string, peerIdentityKey: Bytes, peerEphemeralKey: Bytes)

  datatype Frame =
    | Hello(hello: HelloInfo)
    | HelloAck(ack: AckInfo)
    | PairingPending(connectionId: string, peerIdentityKey: Bytes)
    | PeerStatus(online: bool)
    | SealedFrame(sealed: Sealed)
    | Plaintext(inner: SessionFrame)
    | Malformed

  datatype State = Idle | Connecting | PendingApproval | Online | Recovering | Reconnecting | Failed | Closed

  datatype Notice =
    | StateChanged(state: State)
    | Delivered(event: RemoteEvent)
    | Requested(requestId: string)
    | PeerPresence(online: bool)
    | Error(code: string)

  datatype Handshake = Initiate | Accept

  datatype Config = Config(
    primitives: Primitives,
    handshake: Handshake,
    role: Role,
    connectionId: string,
    identity: KeyPair,
    expectedPeerIdentityKey: Option<Bytes>,
    bounds: Bounds)

  // Clock readings, and the random bytes of a new ephemeral key.
  datatype Clock = Clock(asked: int, recordedAt: int, now: int, secretKey: Bytes)

  // Where the answer to a hello has got to: the host decides whether to approve it, a person
  // approves the pairing, or the acknowledgement is being sent.
  datatype Inbound = Deciding(hello: HelloInfo) | Approving(hello: HelloInfo) | Answering

  // How one of these waits ends. A send that fails is `Refused`.
  datatype Answer = Approved | Deferred | Refused

  const EARLY_SEALED_LIMIT := 32

  datatype Conn = Conn(
    state: State,
    ephemeral: Option<KeyPair>,
    keys: Option<SessionKeys>,
    peerIdentityKey: Option<Bytes>,
    lastEventSequence: nat,
    lastAckSequence: nat,
    earlySealed: seq<Sealed>,
    journal: History,
    replays: seq<seq<RemoteEvent>>,
    handshakeConnectionId: Option<string>,
    inbound: seq<Inbound>,
    sent: seq<Frame>,
    notices: seq<Notice>,
    closeRequested: bool)

  function NewConn(resumeFrom: nat, journal: History, notices: seq<Notice>): Conn {
    Conn(Idle, None, None, None, resumeFrom, 0, [], journal, [], None, [], [], notices, false)
  }

  function Told(c: Conn, notice: Notice): Conn {
    c.(notices := c.notices + [notice])
  }

  function InState(c: Conn, state: State): Conn {
    if c.state == state then c else Told(c.(state := state), StateChanged(state))
  }

  // `sendSealed` throws without keys; every caller catches that.
  function SentSealed(c: Conn, inner: SessionFrame): Conn {
    if c.keys.None? then c else c.(sent := c.sent + [SealedFrame(Sealed(c.keys.value.sendKey, inner))])
  }

  function AfterFail(c: Conn, code: string): Conn {
    InState(Told(c, Error(code)).(keys := None), Failed).(closeRequested := true)
  }

  function AfterConnect(c: Conn, ephemeral: KeyPair): Conn {
    if c.state in {Online, Connecting, PendingApproval} then c
    else InState(c, if c.state == Idle then Connecting else Reconnecting)
         .(ephemeral := Some(ephemeral), keys := None, earlySealed := [])
  }

  function HelloOf(config: Config, ephemeral: KeyPair): HelloInfo {
    HelloInfo(config.role, config.connectionId, config.identity.publicKey, ephemeral.publicKey)
  }

  function AfterSendHello(c: Conn, config: Config): Conn {
    if config.handshake == Accept then c
    else match c.ephemeral
    case None => InState(c, Failed)
    case Some(ephemeral) => c.(sent := c.sent + [Hello(HelloOf(config, ephemeral))])
  }

  function AfterClose(c: Conn): Conn {
    if c.state == Closed then c else InState(c, Closed).(keys := None, closeRequested := true)
  }

  function AfterTransportClosed(c: Conn): Conn {
    if c.state == Closed then c
    else if c.state == Failed then c.(keys := None)
    else InState(c.(keys := None), Reconnecting)
  }

  function AfterEmit(c: Conn, config: Config, name: string, payload: string, clock: Clock): Conn {
    var journal := Step(c.journal, Emit(name, payload, clock.recordedAt, clock.now), config.bounds);
    var event := RemoteEvent(c.journal.log.sequence + 1, name, payload);
    var recorded := c.(journal := journal);
    if c.state == Online then SentSealed(recorded, Event(event)) else recorded
  }

  // An event that another component numbered through the shared journal.
  function AfterDeliver(c: Conn, event: RemoteEvent): Conn {
    if c.state == Online then SentSealed(c, Event(event)) else c
  }

  // One more `sendSealed` of the replay at `index`; a failing send ends that replay.
  function AfterReplayStep(c: Conn, index: nat): Conn
    requires index < |c.replays|
  {
    var rest := c.replays[index];
    if rest == [] || c.keys.None? then c.(replays := c.replays[..index] + c.replays[index + 1..])
    else SentSealed(c, Event(rest[0])).(replays := c.replays[index := rest[1..]])
  }

  function AfterReplay(c: Conn, config: Config, afterSequence: nat, clock: Clock): Conn {
    var asked := c.(journal := Step(c.journal, Query(clock.asked), config.bounds));
    match ReplayAnswer(asked.journal.log, afterSequence)
    case None => AfterEmit(asked, config, RESYNC, "", clock)
    case Some(events) => AfterReplayStep(asked.(replays := asked.replays + [events]), |asked.replays|)
  }

  function AfterEvent(c: Conn, event: RemoteEvent): Conn {
    if event.name == RESYNC then Accepted(c, event)
    else if event.sequence <= c.lastEventSequence then c
    else if event.sequence != c.lastEventSequence + 1 then
      SentSealed(InState(c, Recovering), Resume(c.lastEventSequence))
    else Accepted(c, event)
  }

  function Accepted(c: Conn, event: RemoteEvent): Conn {
    var adopted := c.(lastEventSequence := event.sequence);
    var online := if c.state == Recovering then InState(adopted, Online) else adopted;
    SentSealed(Told(online, Delivered(event)), Acknowledgement(event.sequence))
  }

  function AfterSessionFrame(c: Conn, config: Config, frame: SessionFrame, clock: Clock): Conn {
    match frame
    case Request(requestId) => Told(c, Requested(requestId))
    case Response(_) => c
    case Event(event) => AfterEvent(c, event)
    case Acknowledgement(sequence) =>
      c.(lastAckSequence := Max(c.lastAckSequence, sequence),
         journal := Step(c.journal, Ack(sequence), config.bounds))
    case Resume(lastEventSequence) => AfterReplay(c, config, lastEventSequence, clock)
  }

  function AfterSealed(c: Conn, config: Config, sealed: Sealed, clock: Clock): Conn {
    if c.keys.None? then c
    else match Open(c.keys.value.receiveKey, sealed)
      case None => AfterFail(c, "invalid_frame")
      case Some(inner) => AfterSessionFrame(c, config, inner, clock)
  }

  // The held frames are opened one by one, each only while the connection is still online.
  function AfterEarly(c: Conn, config: Config, early: seq<Sealed>, clock: nat -> Clock): Conn
    decreases |early|
  {
    if early == [] || c.state != Online then c
    else AfterEarly(AfterSealed(c, config, early[0], clock(|early|)), config, early[1..], clock)
  }

  // Whether the loop over the held frames reached its end without finding the connection offline.
  predicate OpenedAllEarly(c: Conn, config: Config, early: seq<Sealed>, clock: nat -> Clock)
    decreases |early|
  {
    early == [] || (c.state == Online &&
      OpenedAllEarly(AfterSealed(c, config, early[0], clock(|early|)), config, early[1..], clock))
  }

  function AfterGoOnline(c: Conn, config: Config, clock: nat -> Clock): Conn {
    var online := InState(c, Online).(earlySealed := []);
    var drained := AfterEarly(online, config, c.earlySealed, clock);
    if OpenedAllEarly(online, config, c.earlySealed, clock)
    then SentSealed(drained, Resume(drained.lastEventSequence))
    else drained
  }

  predicate Pinned(config: Config, peerIdentityKey: Bytes) {
    config.expectedPeerIdentityKey.None? || config.expectedPeerIdentityKey.value == peerIdentityKey
  }

  function Keyed(c: Conn, config: Config, ack: AckInfo): Conn
    requires c.ephemeral.Some?
  {
    var keys := DeriveSessionKeys(config.primitives, config.role, config.identity, c.ephemeral.value,
                                  ack.peerIdentityKey, ack.peerEphemeralKey);
    c.(keys := Some(keys), peerIdentityKey := Some(ack.peerIdentityKey))
  }

  function AfterHelloAck(c: Conn, config: Config, ack: AckInfo, clock: nat -> Clock): Conn {
    if ack.connectionId != config.connectionId || c.ephemeral.None? then c
    else if !IsPublicKey(ack.peerIdentityKey) then AfterFail(c, "invalid_frame")
    else if !Pinned(config, ack.peerIdentityKey) then AfterFail(c, "unauthorized")
    else if !IsPublicKey(ack.peerEphemeralKey) then AfterFail(c, "invalid_frame")
    else AfterGoOnline(Keyed(c, config, ack), config, clock)
  }

  // The acknowledgement belongs to this connection and carries usable, expected keys.
  predicate AcceptsAck(c: Conn, config: Config, ack: AckInfo) {
    && ack.connectionId == config.connectionId
    && c.ephemeral.Some?
    && IsPublicKey(ack.peerIdentityKey)
    && Pinned(config, ack.peerIdentityKey)
    && IsPublicKey(ack.peerEphemeralKey)
  }

  lemma HelloAckCases(c: Conn, config: Config, ack: AckInfo, clock: nat -> Clock)
    ensures AcceptsAck(c, config, ack) ==>
              AfterHelloAck(c, config, ack, clock) == AfterGoOnline(Keyed(c, config, ack), config, clock)
    ensures !AcceptsAck(c, config, ack) ==>
              || AfterHelloAck(c, config, ack, clock) == c
              || AfterHelloAck(c, config, ack, clock) == AfterFail(c, "invalid_frame")
              || AfterHelloAck(c, config, ack, clock) == AfterFail(c, "unauthorized")
  {
  }

  function AfterPairingPending(c: Conn, config: Config, connectionId: string, peerIdentityKey: Bytes): Conn {
    if connectionId != config.connectionId then c
    else if !IsPublicKey(peerIdentityKey) then AfterFail(c, "invalid_frame")
    else
      var known := c.(peerIdentityKey := Some(peerIdentityKey));
      if !Pinned(config, peerIdentityKey) then AfterFail(known, "unauthorized")
      else InState(known, PendingApproval)
  }

  function AfterPeerStatus(c: Conn, online: bool): Conn {
    var parked := if !online && (c.state == Online || c.state == Recovering)
                  then InState(c.(keys := None, earlySealed := []), Connecting)
                  else c;
    Told(parked, PeerPresence(online))
  }

  // The accepting half

  function AfterInboundHello(c: Conn, config: Config, hello: HelloInfo): Conn {
    var noted := c.(handshakeConnectionId := Some(hello.connectionId));
    if !IsPublicKey(hello.identityKey) then AfterFail(noted, "invalid_frame")
    else if !Pinned(config, hello.identityKey) then AfterFail(noted, "unauthorized")
    else noted.(peerIdentityKey := Some(hello.identityKey), inbound := c.inbound + [Deciding(hello)])
  }

  // A hello for another connection while online is the peer starting over.
  function AfterHello(c: Conn, config: Config, hello: HelloInfo, secretKey: Bytes): Conn {
    if config.handshake == Initiate then AfterFail(c, "invalid_frame")
    else if c.state != Online then AfterInboundHello(c, config, hello)
    else if c.handshakeConnectionId == Some(hello.connectionId) then c
    else AfterInboundHello(c.(keys := None, ephemeral := Some(MakeKeyPair(config.primitives, secretKey))), config, hello)
  }

  function AfterAgree(c: Conn, config: Config, hello: HelloInfo): Conn {
    if c.ephemeral.None? then c
    else if !IsPublicKey(hello.ephemeralKey) then AfterFail(c, "invalid_frame")
    else
      var keys := DeriveSessionKeys(config.primitives, config.role, config.identity, c.ephemeral.value,
                                    hello.identityKey, hello.ephemeralKey);
      c.(keys := Some(keys),
         sent := c.sent + [HelloAck(AckInfo(hello.connectionId, config.identity.publicKey, c.ephemeral.value.publicKey))],
         inbound := c.inbound + [Answering])
  }

  // The host has decided about a hello.
  function AfterDecision(c: Conn, config: Config, hello: HelloInfo, answer: Answer): Conn {
    if c.state == Closed then c
    else match answer
      case Refused => AfterFail(c, "unauthorized")
      case Approved => AfterAgree(c, config, hello)
      case Deferred =>
        InState(c, PendingApproval)
        .(sent := c.sent + [PairingPending(hello.connectionId, config.identity.publicKey)],
          inbound := c.inbound + [Approving(hello)])
  }

  // A person has approved the pairing, or not.
  function AfterApproval(c: Conn, config: Config, hello: HelloInfo, answer: Answer): Conn {
    if c.state != PendingApproval then c
    else if answer != Approved then AfterFail(c, "approval_rejected")
    else AfterAgree(c, config, hello)
  }

  // One wait of an answer to a hello ends.
  function AfterInbound(c: Conn, config: Config, index: nat, answer: Answer, clock: nat -> Clock): Conn
    requires index < |c.inbound|
  {
    var rest := c.(inbound := c.inbound[..index] + c.inbound[index + 1..]);
    match c.inbound[index]
    case Deciding(hello) => AfterDecision(rest, config, hello, answer)
    case Approving(hello) => AfterApproval(rest, config, hello, answer)
    case Answering => if answer == Approved then AfterGoOnline(rest, config, clock) else AfterFail(rest, "invalid_frame")
  }

  predicate IsHandshaking(state: State) {
    state == Connecting || state == Reconnecting || state == PendingApproval
  }

  function AfterFrame(c: Conn, config: Config, frame: Frame, clock: nat -> Clock): Conn {
    match frame
    case Hello(hello) => AfterHello(c, config, hello, clock(0).secretKey)
    case HelloAck(ack) =>
      if config.handshake == Initiate then AfterHelloAck(c, config, ack, clock) else AfterFail(c, "invalid_frame")
    case PairingPending(connectionId, peerIdentityKey) =>
      if config.handshake == Initiate then AfterPairingPending(c, config, connectionId, peerIdentityKey)
      else AfterFail(c, "invalid_frame")
    case PeerStatus(online) => AfterPeerStatus(c, online)
    case SealedFrame(sealed) =>
      if c.keys.Some? then AfterSealed(c, config, sealed, clock(0))
      else if config.handshake == Initiate && IsHandshaking(c.state) && |c.earlySealed| < EARLY_SEALED_LIMIT
      then c.(earlySealed := c.earlySealed + [sealed])
      else AfterFail(c, "invalid_frame")
    case Plaintext(_) => AfterFail(c, "invalid_frame")
    case Malformed => AfterFail(c, "invalid_frame")
  }
}
