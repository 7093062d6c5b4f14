/**
 What comes of everything that can happen to one connection, outcome by outcome: when it fails, holds,
 ignores, answers or hands on what it reads, and what it says (packages/remote-control/src/connection.ts).
 */
module FrameOutcomes {
  import opened Results
  import opened RemoteCrypto
  import opened EventJournal
  import opened RemoteConnection

  // What the peer sealed, and what is sealed for it.
  function Arriving(c: Conn, inner: SessionFrame): Frame
    requires c.keys.Some?
  {
    SealedFrame(Sealed(c.keys.value.receiveKey, inner))
  }

  function Departing(c: Conn, inner: SessionFrame): Frame
    requires c.keys.Some?
  {
    SealedFrame(Sealed(c.keys.value.sendKey, inner))
  }

  // A change of state is announced once.
  predicate Announces(c: Conn, state: State, notices: seq<Notice>) {
    notices == if c.state == state then [] else [StateChanged(state)]
  }

  // Nothing has changed but what is sent, told, and the state.
  predicate OnlySpeaks(c: Conn, c': Conn) {
    c'.(state := c.state, sent := c.sent, notices := c.notices) == c
  }

  // Sealed frames

  // An event is handed over exactly if it is the next one or a resync, and then acknowledged; a gap is
  // answered by asking again from the position, and anything older changes nothing at all.
  lemma EventOutcome(c: Conn, config: Config, event: RemoteEvent, clock: nat -> Clock)
    requires c.keys.Some?
    ensures
      var c' := AfterFrame(c, config, Arriving(c, Event(event)), clock);
      var next := event.name == RESYNC || event.sequence == c.lastEventSequence + 1;
      var gap := event.name != RESYNC && event.sequence > c.lastEventSequence + 1;
      && OnlySpeaks(c, c'.(lastEventSequence := c.lastEventSequence))
      && (c'.lastEventSequence == event.sequence <==> next || event.sequence == c.lastEventSequence)
      && (!next ==> c'.lastEventSequence == c.lastEventSequence)
      && c'.notices == c.notices + (if c'.state == c.state then [] else [StateChanged(c'.state)])
                       + (if next then [Delivered(event)] else [])
      && c'.sent == c.sent + (if next then [Departing(c, Acknowledgement(event.sequence))]
                              else if gap then [Departing(c, Resume(c.lastEventSequence))] else [])
      && c'.state == (if gap then Recovering else if next && c.state == Recovering then Online else c.state)
      && (!next && !gap ==> c' == c)
  {
  }

  // The frame is a resume, sealed for this connection, that the journal refuses once it has evicted.
  predicate RefusesResume(c: Conn, config: Config, frame: Frame, now: int) {
    && c.keys.Some? && frame.SealedFrame? && frame.sealed.key == c.keys.value.receiveKey && frame.sealed.inner.Resume?
    && ReplayAnswer(Step(c.journal, Query(now), config.bounds).log, frame.sealed.inner.lastEventSequence).None?
  }

  // A resume is refused or answered from the journal as eviction leaves it. A refusal numbers exactly one
  // more event, the resync, and sends it if the connection is online; an answer numbers nothing, and its
  // events are sent in order, the first at once and the others one by one.
  lemma ResumeOutcome(c: Conn, config: Config, position: nat, clock: nat -> Clock)
    requires c.keys.Some?
    ensures
      var c' := AfterFrame(c, config, Arriving(c, Resume(position)), clock);
      var answer := ReplayAnswer(Step(c.journal, Query(clock(0).asked), config.bounds).log, position);
      var resync := RemoteEvent(c.journal.log.sequence + 1, RESYNC, "");
      && c'.(journal := c.journal, replays := c.replays, sent := c.sent) == c
      && (answer.None? ==>
            && c'.journal.emitted == c.journal.emitted + [resync] && c'.journal.log.sequence == resync.sequence
            && c'.replays == c.replays
            && c'.sent == c.sent + if c.state == Online then [Departing(c, Event(resync))] else [])
      && (answer.Some? ==>
            && c'.journal == Step(c.journal, Query(clock(0).asked), config.bounds)
            && c'.journal.emitted == c.journal.emitted
            && (answer.value == [] ==> c'.replays == c.replays && c'.sent == c.sent)
            && (answer.value != [] ==>
                  && c'.replays == c.replays + [answer.value[1..]]
                  && c'.sent == c.sent + [Departing(c, Event(answer.value[0]))]))
  {
    hide MustEvict;
    var asked := Step(c.journal, Query(clock(0).asked), config.bounds);
    var answer := ReplayAnswer(asked.log, position);
    EvictionKeepsSequence(c.journal.log, config.bounds, clock(0).asked);
    if answer.None? {
      var event := RemoteEvent(c.journal.log.sequence + 1, RESYNC, "");
      EvictionKeepsSequence(
        Log(asked.log.entries + [Entry(event, clock(0).recordedAt)], asked.log.sequence + 1, asked.log.oldestKept),
        config.bounds, clock(0).now);
    } else {
      var replays := c.replays + [answer.value];
      assert replays[..|c.replays|] == c.replays && replays[|c.replays| + 1..] == [];
      assert c.replays + [] == c.replays;
      if answer.value != [] {
        assert replays[|c.replays| := answer.value[1..]] == c.replays + [answer.value[1..]];
      }
    }
  }

  lemma EvictionKeepsSequence(l: Log, b: Bounds, now: int)
    ensures Evicted(l, b, now).sequence == l.sequence
  {
    var _ := EvictsWhatItMust(l, b, now);
  }

  // Reports, requests and responses are not answered.
  lemma ReportOutcome(c: Conn, config: Config, inner: SessionFrame, clock: nat -> Clock)
    requires c.keys.Some? && (inner.Acknowledgement? || inner.Request? || inner.Response?)
    ensures
      var c' := AfterFrame(c, config, Arriving(c, inner), clock);
      && c'.(journal := c.journal, lastAckSequence := c.lastAckSequence, notices := c.notices) == c
      && c'.journal.emitted == c.journal.emitted
      && c'.journal.acked == c.journal.acked + (if inner.Acknowledgement? then {inner.sequence} else {})
      && (forall e :: e in c'.journal.log.entries ==> e in c.journal.log.entries)
      && (!inner.Acknowledgement? ==> c'.journal == c.journal && c'.lastAckSequence == c.lastAckSequence)
      && (inner.Acknowledgement? ==> c'.lastAckSequence >= c.lastAckSequence && c'.lastAckSequence >= inner.sequence
                                     && c'.lastAckSequence in {c.lastAckSequence, inner.sequence})
      && c'.notices == c.notices + if inner.Request? then [Requested(inner.requestId)] else []
  {
    if inner.Acknowledgement? {
      AcknowledgingOnlyDrops(c.journal.log.entries, inner.sequence);
    }
  }

  lemma {:induction false} AcknowledgingOnlyDrops(entries: seq<Entry>, sequence: nat)
    ensures forall e :: e in DropAcknowledged(entries, sequence) ==> e in entries
  {
    if entries != [] {
      AcknowledgingOnlyDrops(entries[1..], sequence);
    }
  }

  // Failing, holding, waiting

  // The connection fails: it says so, drops its keys and has its transport closed.
  predicate FailsWith(c: Conn, c': Conn, code: string) {
    && c'.state == Failed && c'.keys.None? && c'.closeRequested
    && c'.notices == c.notices + [Error(code)] + (if c.state == Failed then [] else [StateChanged(Failed)])
    && c'.sent == c.sent && c'.journal == c.journal && c'.lastEventSequence == c.lastEventSequence && c'.inbound == c.inbound
  }

  // The hello that is already agreed on.
  predicate Repeated(c: Conn, hello: HelloInfo) {
    c.state == Online && c.handshakeConnectionId == Some(hello.connectionId)
  }

  // The acknowledgement of the present attempt to connect.
  predicate Current(c: Conn, config: Config, ack: AckInfo) {
    ack.connectionId == config.connectionId && c.ephemeral.Some?
  }

  predicate CanHold(c: Conn, config: Config) {
    config.handshake == Initiate && c.state in {Connecting, Reconnecting, PendingApproval} && |c.earlySealed| < 32
  }

  predicate ComesOnline(c: Conn, config: Config, frame: Frame) {
    config.handshake == Initiate && frame.HelloAck? && AcceptsAck(c, config, frame.ack)
  }

  // A frame that has no place here, or cannot be read.
  predicate Violates(c: Conn, config: Config, frame: Frame) {
    match frame
    case Hello(hello) => config.handshake == Initiate || (!Repeated(c, hello) && !IsPublicKey(hello.identityKey))
    case HelloAck(ack) =>
      || config.handshake == Accept
      || (Current(c, config, ack) && !IsPublicKey(ack.peerIdentityKey))
      || (Current(c, config, ack) && Pinned(config, ack.peerIdentityKey) && !IsPublicKey(ack.peerEphemeralKey))
    case PairingPending(connectionId, key) =>
      config.handshake == Accept || (connectionId == config.connectionId && !IsPublicKey(key))
    case PeerStatus(_) => false
    case SealedFrame(sealed) => if c.keys.Some? then sealed.key != c.keys.value.receiveKey else !CanHold(c, config)
    case Plaintext(_) => true
    case Malformed => true
  }

  // A peer introduces itself under another identity than the pinned one.
  predicate Impersonates(c: Conn, config: Config, frame: Frame) {
    var introduced :=
      match frame
      case Hello(hello) => if config.handshake == Accept && !Repeated(c, hello) then Some(hello.identityKey) else None
      case HelloAck(ack) => if config.handshake == Initiate && Current(c, config, ack) then Some(ack.peerIdentityKey) else None
      case PairingPending(connectionId, key) =>
        if config.handshake == Initiate && connectionId == config.connectionId then Some(key) else None
      case _ => None;
    && introduced.Some? && IsPublicKey(introduced.value)
    && config.expectedPeerIdentityKey.Some? && config.expectedPeerIdentityKey.value != introduced.value
  }

  lemma FailingFails(c: Conn, code: string)
    ensures FailsWith(c, AfterFail(c, code), code)
  {
  }

  lemma EveryViolationFails(c: Conn, config: Config, frame: Frame, clock: nat -> Clock)
    requires !ComesOnline(c, config, frame)
    ensures Violates(c, config, frame) ==> FailsWith(c, AfterFrame(c, config, frame, clock), "invalid_frame")
    ensures Impersonates(c, config, frame) ==> FailsWith(c, AfterFrame(c, config, frame, clock), "unauthorized")
  {
    hide Step, ReplayAnswer, AfterSessionFrame, AfterGoOnline;
    FailingFails(c, "invalid_frame");
    match frame
    case Hello(hello) =>
    case HelloAck(ack) => FailingFails(c, "unauthorized");
    case PairingPending(_, key) => FailingFails(c.(peerIdentityKey := Some(key)), "unauthorized");
    case _ =>
  }

  // No error is reported.
  predicate NoError(c: Conn, c': Conn) {
    c.notices <= c'.notices && forall i | |c.notices| <= i < |c'.notices| :: !c'.notices[i].Error?
  }

  // Nor does the connection fail.
  predicate NoFailure(c: Conn, c': Conn) {
    NoError(c, c') && c'.closeRequested == c.closeRequested && (c'.state == Failed ==> c.state == Failed)
  }

  lemma FailureIsError(c: Conn, c': Conn, code: string)
    requires FailsWith(c, c', code)
    ensures !NoError(c, c')
  {
    assert c'.notices[|c.notices|] == Error(code);
  }

  lemma EventIsNoFailure(c: Conn, event: RemoteEvent)
    ensures NoFailure(c, AfterEvent(c, event))
  {
  }

  lemma ReadingIsNoFailure(c: Conn, config: Config, inner: SessionFrame, clock: nat -> Clock)
    requires c.keys.Some?
    ensures NoFailure(c, AfterFrame(c, config, Arriving(c, inner), clock))
  {
    hide Step, ReplayAnswer, AfterEvent, AfterReplay;
    match inner
    case Resume(position) => ResumeOutcome(c, config, position, clock);
    case Event(event) => EventIsNoFailure(c, event);
    case _ =>
  }

  lemma NothingElseFails(c: Conn, config: Config, frame: Frame, clock: nat -> Clock)
    requires !ComesOnline(c, config, frame) && !Violates(c, config, frame) && !Impersonates(c, config, frame)
    ensures NoFailure(c, AfterFrame(c, config, frame, clock))
  {
    hide Step, ReplayAnswer, AfterSealed, AfterGoOnline, DeriveSessionKeys;
    match frame
    case SealedFrame(sealed) =>
      if c.keys.Some? {
        ReadingIsNoFailure(c, config, sealed.inner, clock);
      }
    case Hello(hello) =>
    case HelloAck(ack) => StaleAckIgnored(c, config, ack, clock);
    case PairingPending(_, _) =>
    case _ =>
  }

  // A frame that does not bring the connection online makes it fail exactly if it violates the protocol
  // or comes from another identity; any other reports no error.
  lemma FrameFailsExactly(c: Conn, config: Config, frame: Frame, clock: nat -> Clock)
    requires !ComesOnline(c, config, frame)
    ensures
      var c' := AfterFrame(c, config, frame, clock);
      && (Violates(c, config, frame) ==> FailsWith(c, c', "invalid_frame"))
      && (Impersonates(c, config, frame) ==> FailsWith(c, c', "unauthorized"))
      && (NoError(c, c') <==> !Violates(c, config, frame) && !Impersonates(c, config, frame))
      && (NoError(c, c') ==> NoFailure(c, c'))
  {
    hide AfterFrame, Violates, Impersonates;
    EveryViolationFails(c, config, frame, clock);
    if !Violates(c, config, frame) && !Impersonates(c, config, frame) {
      NothingElseFails(c, config, frame, clock);
    } else if Violates(c, config, frame) {
      FailureIsError(c, AfterFrame(c, config, frame, clock), "invalid_frame");
    } else {
      FailureIsError(c, AfterFrame(c, config, frame, clock), "unauthorized");
    }
  }

  // A sealed frame is held exactly if it comes while the initiating end is still shaking hands and fewer
  // than 32 are held; holding it changes nothing else.
  lemma HeldExactly(c: Conn, config: Config, sealed: Sealed, clock: nat -> Clock)
    ensures
      var c' := AfterFrame(c, config, SealedFrame(sealed), clock);
      && (c'.earlySealed != c.earlySealed <==> c.keys.None? && CanHold(c, config))
      && (c'.earlySealed != c.earlySealed ==> c' == c.(earlySealed := c.earlySealed + [sealed]))
  {
    hide Step, ReplayAnswer;
    assert |c.earlySealed + [sealed]| > |c.earlySealed|;
  }

  // A peer that goes away takes the keys of a connection that is up, and what it held; the connection
  // waits for a new handshake. Whatever its state, it passes the news on.
  lemma PresenceOutcome(c: Conn, config: Config, online: bool, clock: nat -> Clock)
    ensures
      var c' := AfterFrame(c, config, PeerStatus(online), clock);
      var parked := !online && (c.state == Online || c.state == Recovering);
      && (!parked ==> c' == c.(notices := c.notices + [PeerPresence(online)]))
      && (parked ==> c' == c.(state := Connecting, keys := None, earlySealed := [],
                              notices := c.notices + [StateChanged(Connecting), PeerPresence(false)]))
  {
  }

  // A pairing that waits for approval: the identity is remembered even when it is then refused.
  lemma WaitingOutcome(c: Conn, config: Config, connectionId: string, key: Bytes, clock: nat -> Clock)
    requires config.handshake == Initiate
    ensures
      var c' := AfterFrame(c, config, PairingPending(connectionId, key), clock);
      && (connectionId != config.connectionId ==> c' == c)
      && (connectionId == config.connectionId && IsPublicKey(key) ==> c'.peerIdentityKey == Some(key))
      && (c'.peerIdentityKey != c.peerIdentityKey ==> connectionId == config.connectionId && IsPublicKey(key))
      && (connectionId == config.connectionId && IsPublicKey(key) && Pinned(config, key) ==>
            && c'.state == PendingApproval && OnlySpeaks(c, c'.(peerIdentityKey := c.peerIdentityKey)) && c'.sent == c.sent
            && Announces(c, PendingApproval, c'.notices[|c.notices|..]) && c.notices <= c'.notices)
  {
  }

  // Handshakes

  // A hello that is neither repeated nor refused waits for the decision of the host; while the connection
  // is online it starts over with another ephemeral key and without session keys.
  lemma HelloOutcome(c: Conn, config: Config, hello: HelloInfo, clock: nat -> Clock)
    requires config.handshake == Accept
    ensures
      var c' := AfterFrame(c, config, Hello(hello), clock);
      && (Repeated(c, hello) ==> c' == c)
      && (!Repeated(c, hello) ==>
            && c'.handshakeConnectionId == Some(hello.connectionId)
            && c'.ephemeral == (if c.state == Online then Some(MakeKeyPair(config.primitives, clock(0).secretKey)) else c.ephemeral)
            && (c.state == Online ==> c'.keys.None?))
      && (!Repeated(c, hello) && !Violates(c, config, Hello(hello)) && !Impersonates(c, config, Hello(hello)) ==>
            && c'.inbound == c.inbound + [Deciding(hello)] && c'.peerIdentityKey == Some(hello.identityKey)
            && (c.state != Online ==> c'.keys == c.keys)
            && c'.(inbound := c.inbound, peerIdentityKey := c.peerIdentityKey, keys := c.keys, ephemeral := c.ephemeral,
                   handshakeConnectionId := c.handshakeConnectionId) == c)
  {
  }

  // The acknowledgement of another attempt is ignored.
  lemma StaleAckIgnored(c: Conn, config: Config, ack: AckInfo, clock: nat -> Clock)
    requires config.handshake == Initiate && !Current(c, config, ack)
    ensures AfterFrame(c, config, HelloAck(ack), clock) == c
  {
  }

  // The connection after the first `n` held frames, each read as if it arrived just now.
  function AfterHeld(c: Conn, config: Config, held: seq<Sealed>, n: nat, clock: nat -> Clock): Conn
    requires n <= |held|
  {
    if n == 0 then c
    else AfterFrame(AfterHeld(c, config, held, n - 1, clock), config, SealedFrame(held[n - 1]), _ => clock(|held| - (n - 1)))
  }

  lemma {:induction false} HeldFromTheFirst(c: Conn, config: Config, held: seq<Sealed>, n: nat, clock: nat -> Clock)
    requires 0 < n <= |held|
    ensures AfterHeld(c, config, held, n, clock) ==
            AfterHeld(AfterFrame(c, config, SealedFrame(held[0]), _ => clock(|held|)), config, held[1..], n - 1, clock)
  {
    hide AfterFrame;
    var first := AfterFrame(c, config, SealedFrame(held[0]), _ => clock(|held|));
    if n == 1 {
      assert AfterHeld(c, config, held, 0, clock) == c;
    } else {
      HeldFromTheFirst(c, config, held, n - 1, clock);
      assert held[1..][n - 2] == held[n - 1];
    }
  }

  lemma HeldReadLikeArriving(c: Conn, config: Config, sealed: Sealed, clock: nat -> Clock)
    requires c.keys.Some? && c.state == Online
    ensures AfterFrame(c, config, SealedFrame(sealed), clock) == AfterSealed(c, config, sealed, clock(0))
    ensures AfterSealed(c, config, sealed, clock(0)).state == Online ==> AfterSealed(c, config, sealed, clock(0)).keys.Some?
  {
    hide Step, ReplayAnswer;
  }

  lemma {:induction false} HeldAreRead(c: Conn, config: Config, held: seq<Sealed>, clock: nat -> Clock) returns (n: nat)
    requires c.state == Online && c.keys.Some?
    ensures n <= |held| && forall m: nat | m < n :: AfterHeld(c, config, held, m, clock).state == Online
    ensures n < |held| ==> AfterHeld(c, config, held, n, clock).state != Online
    ensures AfterEarly(c, config, held, clock) == AfterHeld(c, config, held, n, clock)
    ensures OpenedAllEarly(c, config, held, clock) <==> n == |held|
    decreases |held|
  {
    hide AfterFrame, AfterSealed;
    if held == [] {
      n := 0;
    } else {
      var c1 := AfterSealed(c, config, held[0], clock(|held|));
      HeldReadLikeArriving(c, config, held[0], _ => clock(|held|));
      if c1.state == Online {
        n := HeldAreRead(c1, config, held[1..], clock);
        forall m: nat | m < n + 1
          ensures AfterHeld(c, config, held, m, clock).state == Online
        {
          if m > 0 {
            HeldFromTheFirst(c, config, held, m, clock);
          }
        }
        n := n + 1;
      } else {
        n := 1;
      }
      HeldFromTheFirst(c, config, held, n, clock);
      assert AfterHeld(c, config, held, 0, clock) == c;
    }
  }

  // An accepted acknowledgement brings the connection online: it reads the frames it held, each as if it
  // arrived now, until one takes it off again; when none but the last does, it asks for what comes after
  // the position it has then reached.
  lemma OnlineOutcome(c: Conn, config: Config, ack: AckInfo, clock: nat -> Clock) returns (n: nat)
    requires ComesOnline(c, config, HelloAck(ack))
    ensures
      var held := c.earlySealed;
      var keys := DeriveSessionKeys(config.primitives, config.role, config.identity, c.ephemeral.value,
                                    ack.peerIdentityKey, ack.peerEphemeralKey);
      var online := c.(state := Online, keys := Some(keys), peerIdentityKey := Some(ack.peerIdentityKey), earlySealed := [],
                       notices := c.notices + if c.state == Online then [] else [StateChanged(Online)]);
      var c' := AfterFrame(c, config, HelloAck(ack), clock);
      && n <= |held| && (forall m: nat | m < n :: AfterHeld(online, config, held, m, clock).state == Online)
      && var reached := AfterHeld(online, config, held, n, clock);
      if n < |held| then reached.state != Online && c' == reached
      else if reached.keys.None? then c' == reached
      else c' == reached.(sent := reached.sent + [Departing(reached, Resume(reached.lastEventSequence))])
  {
    hide AfterSealed, DeriveSessionKeys;
    var online := InState(Keyed(c, config, ack), Online).(earlySealed := []);
    n := HeldAreRead(online, config, c.earlySealed, clock);
    HelloAckCases(c, config, ack, clock);
    assert online == Keyed(c, config, ack).(state := Online, earlySealed := [],
                                            notices := c.notices + if c.state == Online then [] else [StateChanged(Online)]);
  }

  // Answering a hello

  // Whether the wait at `index` ends with the keys being agreed on.
  predicate Agrees(c: Conn, index: nat, answer: Answer)
    requires index < |c.inbound|
  {
    && answer == Approved && c.ephemeral.Some?
    && match c.inbound[index]
       case Deciding(hello) => c.state != Closed
       case Approving(hello) => c.state == PendingApproval
       case Answering => false
  }

  // Each wait that ends leaves the list. A hello is acknowledged exactly if it is approved while the
  // connection waits for that, under the key of the hello; a deferred one waits on, and a refused one
  // makes the connection fail.
  lemma AnswerOutcome(c: Conn, config: Config, index: nat, answer: Answer, clock: nat -> Clock)
    requires index < |c.inbound| && !c.inbound[index].Answering?
    ensures
      var c', hello := AfterInbound(c, config, index, answer, clock), c.inbound[index].hello;
      var rest := c.(inbound := c.inbound[..index] + c.inbound[index + 1..]);
      var waits := if c.inbound[index].Deciding? then c.state != Closed else c.state == PendingApproval;
      && (!waits ==> c' == rest)
      && (waits && answer == Approved && c.ephemeral.None? ==> c' == rest)
      && (Agrees(c, index, answer) && !IsPublicKey(hello.ephemeralKey) ==> FailsWith(rest, c', "invalid_frame"))
      && (Agrees(c, index, answer) && IsPublicKey(hello.ephemeralKey) ==>
            && c'.sent == c.sent + [HelloAck(AckInfo(hello.connectionId, config.identity.publicKey, c.ephemeral.value.publicKey))]
            && c'.inbound == rest.inbound + [Answering] && c'.keys.Some?
            && c'.(sent := c.sent, inbound := rest.inbound, keys := c.keys) == rest)
      && (waits && answer == Deferred && c.inbound[index].Deciding? ==>
            && c'.sent == c.sent + [PairingPending(hello.connectionId, config.identity.publicKey)]
            && c'.inbound == rest.inbound + [Approving(hello)] && c'.state == PendingApproval
            && OnlySpeaks(rest, c'.(inbound := rest.inbound)))
      && (waits && answer == Refused && c.inbound[index].Deciding? ==> FailsWith(rest, c', "unauthorized"))
      && (waits && answer != Approved && c.inbound[index].Approving? ==> FailsWith(rest, c', "approval_rejected"))
  {
    hide AfterGoOnline, DeriveSessionKeys;
  }

  // Once the acknowledgement is sent the connection comes online, whatever happened meanwhile, and asks for
  // what it lacks if it has keys; if sending it failed, so does the connection.
  lemma AnsweredOutcome(c: Conn, config: Config, index: nat, answer: Answer, clock: nat -> Clock)
    requires index < |c.inbound| && c.inbound[index].Answering? && c.earlySealed == []
    ensures
      var c' := AfterInbound(c, config, index, answer, clock);
      var rest := c.(inbound := c.inbound[..index] + c.inbound[index + 1..]);
      && (answer != Approved ==> FailsWith(rest, c', "invalid_frame"))
      && (answer == Approved ==>
            && c'.state == Online && OnlySpeaks(rest, c')
            && c'.sent == c.sent + if c.keys.Some? then [Departing(c, Resume(c.lastEventSequence))] else [])
  {
  }

  // Connecting, closing, speaking

  // A new attempt starts from a state that is neither up nor on its way there, with another ephemeral key
  // and without keys or held frames.
  lemma ConnectOutcome(c: Conn, ephemeral: KeyPair)
    ensures
      var c' := AfterConnect(c, ephemeral);
      var ignored := c.state == Online || c.state == Connecting || c.state == PendingApproval;
      && (ignored ==> c' == c)
      && (!ignored ==>
            && c'.state == (if c.state == Idle then Connecting else Reconnecting)
            && c'.ephemeral == Some(ephemeral) && c'.keys.None? && c'.earlySealed == []
            && c'.notices == c.notices + (if c.state == Reconnecting then [] else [StateChanged(c'.state)])
            && c'.(state := c.state, ephemeral := c.ephemeral, keys := c.keys, earlySealed := c.earlySealed,
                   notices := c.notices) == c)
  {
  }

  // The initiating end introduces itself under its own keys; the accepting end stays silent.
  lemma HelloSaid(c: Conn, config: Config)
    ensures
      var c' := AfterSendHello(c, config);
      && (config.handshake == Accept ==> c' == c)
      && (config.handshake == Initiate && c.ephemeral.Some? ==>
            c' == c.(sent := c.sent + [Hello(HelloInfo(config.role, config.connectionId, config.identity.publicKey,
                                                       c.ephemeral.value.publicKey))]))
      && (config.handshake == Initiate && c.ephemeral.None? ==>
            c' == c.(state := Failed, notices := c.notices + if c.state == Failed then [] else [StateChanged(Failed)]))
  {
  }

  // A closed connection stays as it is, a failed one stays failed when its transport closes; otherwise the
  // keys go and the new state is announced.
  lemma ClosingOutcome(c: Conn)
    ensures AfterClose(c) == if c.state == Closed then c
                             else c.(state := Closed, keys := None, closeRequested := true, notices := c.notices + [StateChanged(Closed)])
    ensures AfterTransportClosed(c).state == (if c.state == Closed || c.state == Failed then c.state else Reconnecting)
    ensures AfterTransportClosed(c).keys == (if c.state == Closed then c.keys else None)
    ensures OnlySpeaks(c, AfterTransportClosed(c).(keys := c.keys)) && AfterTransportClosed(c).sent == c.sent
    ensures AfterTransportClosed(c).notices
         == c.notices + if c.state in {Closed, Failed, Reconnecting} then [] else [StateChanged(Reconnecting)]
  {
  }

  // An event is sent exactly if the connection is online and has keys, whoever numbered it; a new one is
  // numbered and recorded in any case.
  lemma SpokenExactly(c: Conn, config: Config, name: string, payload: string, clock: Clock, other: RemoteEvent)
    ensures
      var event := RemoteEvent(c.journal.log.sequence + 1, name, payload);
      var emitted, delivered := AfterEmit(c, config, name, payload, clock), AfterDeliver(c, other);
      && emitted.journal.emitted == c.journal.emitted + [event] && emitted.(journal := c.journal, sent := c.sent) == c
      && delivered.(sent := c.sent) == c
      && emitted.sent == c.sent + (if c.state == Online && c.keys.Some? then [Departing(c, Event(event))] else [])
      && delivered.sent == c.sent + (if c.state == Online && c.keys.Some? then [Departing(c, Event(other))] else [])
  {
    hide Evicted;
  }

  // A replay goes on with its next event, and ends with its last one or with the keys.
  lemma ReplayOutcome(c: Conn, index: nat)
    requires index < |c.replays|
    ensures
      var c', rest := AfterReplayStep(c, index), c.replays[index];
      && c'.(replays := c.replays, sent := c.sent) == c
      && (rest == [] || c.keys.None? ==> c'.sent == c.sent && c'.replays == c.replays[..index] + c.replays[index + 1..])
      && (rest != [] && c.keys.Some? ==>
            && c'.sent == c.sent + [Departing(c, Event(rest[0]))]
            && c'.replays[..index] == c.replays[..index] && c'.replays[index + 1..] == c.replays[index + 1..]
            && c'.replays[index] == rest[1..])
  {
  }
}
