/**
 The connection object itself: each method changes the fields one by one, as the source does,
 and is proved to have exactly the effect that the function on values describes.

 `Valid()` carries the delivery guarantee: as long as every sealed event came from the peer's journal,
 the application has been given consecutive events, each as the peer numbered it.
 */
module RemoteEndpoint {
  import opened Results
  import opened RemoteCrypto
  import opened EventJournal
  import opened RemoteConnection
  import opened EventDelivery
  import opened FrameOutcomes

  // A change of state touches the state and the notices only.
  lemma InStateOnly(c: Conn, state: State)
    ensures InState(c, state) == c.(state := state, notices := InState(c, state).notices)
  {
  }

  class Connection {
    const config: Config
    const journal: RemoteEventJournal
    var state: State
    var ephemeral: Option<KeyPair>
    var keys: Option<SessionKeys>
    var peerIdentityKey: Option<Bytes>
    var lastEventSequence: nat
    var lastAckSequence: nat
    var earlySealed: seq<Sealed>
    var replays: seq<seq<RemoteEvent>>
    var handshakeConnectionId: Option<string>
    var inbound: seq<Inbound>
    var sent: seq<Frame>
    var notices: seq<Notice>
    var closeRequested: bool

    // The position this connection began at, what the peer has numbered so far, and whether every event
    // handled so far was numbered by the end it is said to come from.
    ghost const start: nat
    ghost var peer: seq<RemoteEvent>
    ghost var honest: bool

    ghost predicate Attached()
      reads this, journal
    {
      journal.Settled() && journal.bounds == config.bounds
    }

    ghost predicate Valid()
      reads this, journal
    {
      Attached() && (honest ==> Well(View(), config.bounds, start, peer))
    }

    ghost function View(): Conn
      reads this, journal
    {
      Conn(state, ephemeral, keys, peerIdentityKey, lastEventSequence, lastAckSequence, earlySealed,
           journal.history, replays, handshakeConnectionId, inbound, sent, notices, closeRequested)
    }

    constructor (config: Config, journal: RemoteEventJournal, resumeFrom: nat, ghost peer: seq<RemoteEvent>)
      requires journal.Settled() && journal.bounds == config.bounds
      ensures Valid() && this.config == config && this.journal == journal
      ensures honest && this.peer == peer && start == resumeFrom
      ensures View() == NewConn(resumeFrom, journal.history, [])
    {
      this.config, this.journal := config, journal;
      state, ephemeral, keys, peerIdentityKey := Idle, None, None, None;
      lastEventSequence, lastAckSequence := resumeFrom, 0;
      earlySealed, replays, sent, notices, closeRequested := [], [], [], [], false;
      handshakeConnectionId, inbound := None, [];
      start, this.peer, honest := resumeFrom, peer, true;
    }

    // What every valid connection has delivered.
    lemma DeliversInOrder()
      requires Valid() && honest
      ensures Continuous(start, Deliveries(notices))
      ensures Position(start, Deliveries(notices)) == lastEventSequence
      ensures AllGenuine(Deliveries(notices), peer)
    {
    }

    // The peer numbers more events.
    ghost method PeerNumbers(more: seq<RemoteEvent>)
      requires Valid()
      modifies this`peer
      ensures Valid() && peer == old(peer) + more
    {
      if honest {
        MoreIsGenuine(View(), start, peer, peer + more);
      }
      peer := peer + more;
    }

    // Another connection on the same journal used it.
    twostate lemma SharedJournalKeepsValid()
      requires old(Valid()) && unchanged(this) && Attached()
      requires old(journal.history.emitted) <= journal.history.emitted
      ensures Valid()
    {
      assert forall e | Genuine(e, old(journal.history.emitted)) :: Genuine(e, journal.history.emitted);
    }

    method SetState(next: State)
      requires Attached()
      modifies this
      ensures Attached() && peer == old(peer) && honest == old(honest)
      ensures View() == InState(old(View()), next)
    {
      if state == next {
        return;
      }
      state := next;
      notices := notices + [StateChanged(next)];
    }

    method SendSealed(inner: SessionFrame)
      requires Attached()
      modifies this
      ensures Attached() && peer == old(peer) && honest == old(honest)
      ensures View() == SentSealed(old(View()), inner)
    {
      if keys.Some? {
        sent := sent + [SealedFrame(Sealed(keys.value.sendKey, inner))];
      }
    }

    method Fail(code: string)
      requires Attached()
      modifies this
      ensures Attached() && peer == old(peer) && honest == old(honest)
      ensures View() == AfterFail(old(View()), code)
    {
      hide InState;
      notices := notices + [Error(code)];
      keys := None;
      SetState(Failed);
      closeRequested := true;
    }

    method Connect(secretKey: Bytes)
      requires Valid()
      modifies this
      ensures Valid() && peer == old(peer) && honest == old(honest)
      ensures View() == AfterConnect(old(View()), MakeKeyPair(config.primitives, secretKey))
    {
      if honest {
        ConnectKeepsWell(View(), MakeKeyPair(config.primitives, secretKey), config.bounds, start, peer);
      }
      if state == Online || state == Connecting || state == PendingApproval {
        return;
      }
      hide InState;
      InStateOnly(View(), if state == Idle then Connecting else Reconnecting);
      SetState(if state == Idle then Connecting else Reconnecting);
      ephemeral := Some(MakeKeyPair(config.primitives, secretKey));
      keys := None;
      earlySealed := [];
    }

    // The continuation of `connect` once the transport is up.
    method SendHello()
      requires Valid()
      modifies this
      ensures Valid() && peer == old(peer) && honest == old(honest)
      ensures View() == AfterSendHello(old(View()), config)
    {
      if honest {
        SendHelloKeepsWell(View(), config, config.bounds, start, peer);
      }
      if config.handshake == Accept {
        return;
      }
      if ephemeral.None? {
        SetState(Failed);
      } else {
        sent := sent + [Hello(HelloOf(config, ephemeral.value))];
      }
    }

    // `connect` when the transport cannot be opened or the hello cannot be sent.
    method ConnectFails()
      requires Valid()
      modifies this
      ensures Valid() && peer == old(peer) && honest == old(honest)
      ensures View() == InState(old(View()), Failed)
    {
      if honest {
        InStateKeepsWell(View(), Failed, config.bounds, start, peer);
      }
      SetState(Failed);
    }

    method Close()
      requires Valid()
      modifies this
      ensures Valid() && peer == old(peer) && honest == old(honest)
      ensures View() == AfterClose(old(View()))
    {
      if honest {
        CloseKeepsWell(View(), config.bounds, start, peer);
      }
      if state == Closed {
        return;
      }
      SetState(Closed);
      keys := None;
      closeRequested := true;
    }

    method HandleClose()
      requires Valid()
      modifies this
      ensures Valid() && peer == old(peer) && honest == old(honest)
      ensures View() == AfterTransportClosed(old(View()))
    {
      if honest {
        TransportClosedKeepsWell(View(), config.bounds, start, peer);
      }
      if state == Closed {
        return;
      }
      keys := None;
      if state != Failed {
        SetState(Reconnecting);
      }
    }

    method EmitEvent(name: string, payload: string, clock: Clock) returns (event: RemoteEvent)
      requires Valid()
      modifies this, journal
      ensures Valid() && peer == old(peer) && honest == old(honest)
      ensures View() == AfterEmit(old(View()), config, name, payload, clock)
      ensures event == RemoteEvent(old(journal.sequence) + 1, name, payload)
    {
      if honest {
        EmitKeepsWell(View(), config, name, payload, clock, start, peer);
      }
      event := RecordAndSend(name, payload, clock);
    }

    method RecordAndSend(name: string, payload: string, clock: Clock) returns (event: RemoteEvent)
      requires Attached()
      modifies this, journal
      ensures Attached() && peer == old(peer) && honest == old(honest)
      ensures View() == AfterEmit(old(View()), config, name, payload, clock)
      ensures event == RemoteEvent(old(journal.sequence) + 1, name, payload)
    {
      hide SentSealed, Step;
      var sequence := journal.NextSequence();
      event := RemoteEvent(sequence, name, payload);
      journal.Remember(event, clock.recordedAt, clock.now);
      if state == Online {
        SendSealed(Event(event));
      }
    }

    method DeliverEvent(event: RemoteEvent)
      requires Valid()
      modifies this
      ensures Valid() && peer == old(peer)
      ensures honest == (old(honest) && Genuine(event, journal.history.emitted))
      ensures View() == AfterDeliver(old(View()), event)
    {
      honest := honest && Genuine(event, journal.history.emitted);
      if honest {
        SentSealedKeepsWell(View(), Event(event), config.bounds, start, peer);
      }
      if state != Online {
        return;
      }
      SendSealed(Event(event));
    }

    method HandleEvent(event: RemoteEvent)
      requires Attached()
      modifies this
      ensures Attached() && peer == old(peer) && honest == old(honest)
      ensures View() == AfterEvent(old(View()), event)
    {
      hide InState, SentSealed;
      if event.name == RESYNC {
        lastEventSequence := event.sequence;
        if state == Recovering {
          SetState(Online);
        }
        notices := notices + [Delivered(event)];
        SendSealed(Acknowledgement(event.sequence));
        return;
      }
      if event.sequence <= lastEventSequence {
        return;
      }
      if event.sequence != lastEventSequence + 1 {
        InStateOnly(View(), Recovering);
        SetState(Recovering);
        SendSealed(Resume(lastEventSequence));
        return;
      }
      lastEventSequence := event.sequence;
      if state == Recovering {
        SetState(Online);
      }
      notices := notices + [Delivered(event)];
      SendSealed(Acknowledgement(event.sequence));
    }

    method Replay(afterSequence: nat, clock: Clock)
      requires Attached()
      modifies this, journal
      ensures Attached() && peer == old(peer) && honest == old(honest)
      ensures View() == AfterReplay(old(View()), config, afterSequence, clock)
    {
      var events := journal.Replay(afterSequence, clock.asked);
      if events.None? {
        var resync := RecordAndSend(RESYNC, "", clock);
        return;
      }
      replays := replays + [events.value];
      SendNext(|replays| - 1);
    }

    // One turn of the sending loop of a replay, up to its next `await`.
    method ContinueReplay(index: nat)
      requires Valid() && index < |replays|
      modifies this
      ensures Valid() && peer == old(peer) && honest == old(honest)
      ensures View() == AfterReplayStep(old(View()), index)
    {
      if honest {
        ReplayStepKeepsWell(View(), index, config.bounds, start, peer);
      }
      SendNext(index);
    }

    method SendNext(index: nat)
      requires Attached() && index < |replays|
      modifies this
      ensures Attached() && peer == old(peer) && honest == old(honest)
      ensures View() == AfterReplayStep(old(View()), index)
    {
      var rest := replays[index];
      if rest == [] || keys.None? {
        replays := replays[..index] + replays[index + 1..];
      } else {
        SendSealed(Event(rest[0]));
        replays := replays[index := rest[1..]];
      }
    }

    method HandleSessionFrame(frame: SessionFrame, clock: Clock)
      requires Attached()
      modifies this, journal
      ensures Attached() && peer == old(peer) && honest == old(honest)
      ensures View() == AfterSessionFrame(old(View()), config, frame, clock)
    {
      match frame {
        case Request(requestId) => notices := notices + [Requested(requestId)];
        case Response(_) =>
        case Event(event) => HandleEvent(event);
        case Acknowledgement(sequence) =>
          lastAckSequence := Max(lastAckSequence, sequence);
          journal.Acknowledge(sequence);
        case Resume(lastEventSequence) => Replay(lastEventSequence, clock);
      }
    }

    method OpenSealed(sealed: Sealed, clock: Clock)
      requires Attached()
      modifies this, journal
      ensures Attached() && peer == old(peer) && honest == old(honest)
      ensures View() == AfterSealed(old(View()), config, sealed, clock)
    {
      if keys.None? {
        return;
      }
      var inner := Open(keys.value.receiveKey, sealed);
      if inner.None? {
        Fail("invalid_frame");
        return;
      }
      HandleSessionFrame(inner.value, clock);
    }

    method GoOnline(clocks: nat -> Clock)
      requires Attached()
      modifies this, journal
      ensures Attached() && peer == old(peer) && honest == old(honest)
      ensures View() == AfterGoOnline(old(View()), config, clocks)
    {
      hide AfterSealed, InState, SentSealed;
      InStateOnly(View(), Online);
      SetState(Online);
      var early := earlySealed;
      earlySealed := [];
      ghost var online := View();
      var i := 0;
      while i < |early|
        invariant 0 <= i <= |early| && Attached() && peer == old(peer) && honest == old(honest)
        invariant AfterEarly(View(), config, early[i..], clocks) == AfterEarly(online, config, early, clocks)
        invariant OpenedAllEarly(View(), config, early[i..], clocks) == OpenedAllEarly(online, config, early, clocks)
      {
        assert early[i..][0] == early[i] && early[i..][1..] == early[i + 1..];
        if state != Online {
          return;
        }
        OpenSealed(early[i], clocks(|early| - i));
        i := i + 1;
      }
      SendSealed(Resume(lastEventSequence));
    }

    method HandleHelloAck(ack: AckInfo, clocks: nat -> Clock)
      requires Attached()
      modifies this, journal
      ensures Attached() && peer == old(peer) && honest == old(honest)
      ensures View() == AfterHelloAck(old(View()), config, ack, clocks)
    {
      if ack.connectionId != config.connectionId || ephemeral.None? {
        return;
      }
      if !IsPublicKey(ack.peerIdentityKey) {
        Fail("invalid_frame");
        return;
      }
      if !Pinned(config, ack.peerIdentityKey) {
        Fail("unauthorized");
        return;
      }
      if !IsPublicKey(ack.peerEphemeralKey) {
        Fail("invalid_frame");
        return;
      }
      keys := Some(DeriveSessionKeys(config.primitives, config.role, config.identity, ephemeral.value,
                                     ack.peerIdentityKey, ack.peerEphemeralKey));
      peerIdentityKey := Some(ack.peerIdentityKey);
      GoOnline(clocks);
    }

    method HandlePairingPending(connectionId: string, peerKey: Bytes)
      requires Attached()
      modifies this
      ensures Attached() && peer == old(peer) && honest == old(honest)
      ensures View() == AfterPairingPending(old(View()), config, connectionId, peerKey)
    {
      if connectionId != config.connectionId {
        return;
      }
      if !IsPublicKey(peerKey) {
        Fail("invalid_frame");
        return;
      }
      peerIdentityKey := Some(peerKey);
      if !Pinned(config, peerKey) {
        Fail("unauthorized");
        return;
      }
      SetState(PendingApproval);
    }

    method HandleInboundHello(hello: HelloInfo)
      requires Attached()
      modifies this
      ensures Attached() && peer == old(peer) && honest == old(honest)
      ensures View() == AfterInboundHello(old(View()), config, hello)
    {
      handshakeConnectionId := Some(hello.connectionId);
      if !IsPublicKey(hello.identityKey) {
        Fail("invalid_frame");
        return;
      }
      if !Pinned(config, hello.identityKey) {
        Fail("unauthorized");
        return;
      }
      peerIdentityKey := Some(hello.identityKey);
      inbound := inbound + [Deciding(hello)];
    }

    method HandlePeerRestart(hello: HelloInfo, secretKey: Bytes)
      requires Attached() && config.handshake == Accept && state == Online
      modifies this
      ensures Attached() && peer == old(peer) && honest == old(honest)
      ensures View() == AfterHello(old(View()), config, hello, secretKey)
    {
      if handshakeConnectionId == Some(hello.connectionId) {
        return;
      }
      keys := None;
      ephemeral := Some(MakeKeyPair(config.primitives, secretKey));
      HandleInboundHello(hello);
    }

    // The part of `handleInboundHello` after the peer has been approved, up to sending the acknowledgement.
    method AgreeOnKeys(hello: HelloInfo)
      requires Attached()
      modifies this
      ensures Attached() && peer == old(peer) && honest == old(honest)
      ensures View() == AfterAgree(old(View()), config, hello)
    {
      if ephemeral.None? {
        return;
      }
      if !IsPublicKey(hello.ephemeralKey) {
        Fail("invalid_frame");
        return;
      }
      keys := Some(DeriveSessionKeys(config.primitives, config.role, config.identity, ephemeral.value,
                                     hello.identityKey, hello.ephemeralKey));
      sent := sent + [HelloAck(AckInfo(hello.connectionId, config.identity.publicKey, ephemeral.value.publicKey))];
      inbound := inbound + [Answering];
    }

    // `handleInboundHello` once the host has decided.
    method Decide(hello: HelloInfo, answer: Answer)
      requires Attached()
      modifies this
      ensures Attached() && peer == old(peer) && honest == old(honest)
      ensures View() == AfterDecision(old(View()), config, hello, answer)
    {
      if state == Closed {
        return;
      }
      if answer == Refused {
        Fail("unauthorized");
        return;
      }
      if answer == Deferred {
        SetState(PendingApproval);
        sent := sent + [PairingPending(hello.connectionId, config.identity.publicKey)];
        inbound := inbound + [Approving(hello)];
        return;
      }
      AgreeOnKeys(hello);
    }

    // `handleInboundHello` once a person has approved the pairing, or not.
    method DecidePending(hello: HelloInfo, answer: Answer)
      requires Attached()
      modifies this
      ensures Attached() && peer == old(peer) && honest == old(honest)
      ensures View() == AfterApproval(old(View()), config, hello, answer)
    {
      if state != PendingApproval {
        return;
      }
      if answer != Approved {
        Fail("approval_rejected");
        return;
      }
      AgreeOnKeys(hello);
    }

    // `handleInboundHello` continues after one of its waits.
    method ContinueInbound(index: nat, answer: Answer, clocks: nat -> Clock)
      requires Valid() && index < |inbound|
      modifies this, journal
      ensures Valid() && peer == old(peer) && honest == old(honest)
      ensures View() == AfterInbound(old(View()), config, index, answer, clocks)
    {
      if honest {
        InboundKeepsWell(View(), config, index, answer, clocks, start, peer);
      }
      hide AfterGoOnline, AfterDecision, AfterApproval;
      var waiting := inbound[index];
      inbound := inbound[..index] + inbound[index + 1..];
      match waiting {
        case Deciding(hello) => Decide(hello, answer);
        case Approving(hello) => DecidePending(hello, answer);
        case Answering =>
          if answer == Approved {
            GoOnline(clocks);
          } else {
            Fail("invalid_frame");
          }
      }
    }

    method HandlePeerStatus(online: bool)
      requires Attached()
      modifies this
      ensures Attached() && peer == old(peer) && honest == old(honest)
      ensures View() == AfterPeerStatus(old(View()), online)
    {
      hide InState;
      if !online && (state == Online || state == Recovering) {
        keys := None;
        earlySealed := [];
        SetState(Connecting);
      }
      notices := notices + [PeerPresence(online)];
    }

    method DispatchFrame(frame: Frame, clocks: nat -> Clock)
      requires Attached()
      modifies this, journal
      ensures Attached() && peer == old(peer) && honest == old(honest)
      ensures View() == AfterFrame(old(View()), config, frame, clocks)
    {
      hide AfterHelloAck, AfterPairingPending, AfterSealed, AfterInboundHello, AfterPeerStatus;
      match frame {
        case Hello(hello) =>
          if config.handshake != Accept {
            Fail("invalid_frame");
          } else if state != Online {
            HandleInboundHello(hello);
          } else {
            HandlePeerRestart(hello, clocks(0).secretKey);
          }
        case HelloAck(ack) =>
          if config.handshake == Initiate {
            HandleHelloAck(ack, clocks);
          } else {
            Fail("invalid_frame");
          }
        case PairingPending(connectionId, peerKey) =>
          if config.handshake == Initiate {
            HandlePairingPending(connectionId, peerKey);
          } else {
            Fail("invalid_frame");
          }
        case PeerStatus(online) => HandlePeerStatus(online);
        case SealedFrame(sealed) =>
          if keys.None? {
            if config.handshake == Initiate && IsHandshaking(state) && |earlySealed| < EARLY_SEALED_LIMIT {
              earlySealed := earlySealed + [sealed];
            } else {
              Fail("invalid_frame");
            }
          } else {
            OpenSealed(sealed, clocks(0));
          }
        case Plaintext(_) => Fail("invalid_frame");
        case Malformed => Fail("invalid_frame");
      }
    }

    method HandleFrame(frame: Frame, clocks: nat -> Clock)
      requires Valid()
      modifies this, journal
      ensures Valid() && peer == old(peer)
      ensures honest == (old(honest) && (frame.SealedFrame? ==> GenuineSealed(frame.sealed, peer)))
      ensures View() == AfterFrame(old(View()), config, frame, clocks)
      // A resume that the journal refuses is answered with exactly one resync.
      ensures RefusesResume(old(View()), config, frame, clocks(0).asked) ==>
                var resync := RemoteEvent(old(journal.history.log.sequence) + 1, RESYNC, "");
                && journal.history.emitted == old(journal.history.emitted) + [resync]
                && sent == old(sent) + if old(state) == Online then [Departing(old(View()), Event(resync))] else []
    {
      hide AfterFrame, ReplayAnswer, Step;
      if RefusesResume(View(), config, frame, clocks(0).asked) {
        ResumeOutcome(View(), config, frame.sealed.inner.lastEventSequence, clocks);
      }
      honest := honest && (frame.SealedFrame? ==> GenuineSealed(frame.sealed, peer));
      if honest {
        FrameKeepsWell(View(), config, frame, clocks, start, peer);
      }
      DispatchFrame(frame, clocks);
    }
  }
}
