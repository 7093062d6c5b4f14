/**
 A handshake without a relay: one end initiates, the other accepts
 (packages/remote-control/src/connection.ts, `handleInboundHello`, `handlePeerRestart`).
 */
module DirectHandshake {
  import opened Results
  import opened RemoteCrypto
  import opened EventJournal
  import opened RemoteConnection
  import opened AckOrdering

  ghost predicate Fits(config: Config, p: Primitives, handshake: Handshake) {
    config.primitives == p && config.handshake == handshake && Matching(p, config.identity)
  }

  // A duplicate of the hello that is already agreed on is ignored; every other one is answered.
  predicate Answers(c: Conn, hello: HelloInfo) {
    c.state != Closed && !(c.state == Online && c.handshakeConnectionId == Some(hello.connectionId))
  }

  // Once the accepting end approves a hello, whether it was offline or its peer started over, the
  // initiating end takes its acknowledgement exactly if it expects that identity, and then each opens
  // what the other seals.
  lemma DirectHandshakeAgrees(
      p: Primitives, initiator: Config, i: Conn, acceptor: Config, a: Conn, secretKey: Bytes, clock: nat -> Clock)
    requires Commutes(p) && FixedLength(p)
    requires Fits(initiator, p, Initiate) && Fits(acceptor, p, Accept) && acceptor.role == Opposite(initiator.role)
    requires i.ephemeral.Some? && Matching(p, i.ephemeral.value)
    requires a.state != Online ==> a.ephemeral.Some? && Matching(p, a.ephemeral.value)
    requires Answers(a, HelloOf(initiator, i.ephemeral.value)) && Pinned(acceptor, initiator.identity.publicKey)
    ensures
      var hello := HelloOf(initiator, i.ephemeral.value);
      var asked := AfterHello(a, acceptor, hello, secretKey);
      && |asked.inbound| == |a.inbound| + 1 && asked.sent == a.sent
      && var agreed := AfterInbound(asked, acceptor, |a.inbound|, Approved, clock);
      && agreed.keys.Some? && agreed.inbound == a.inbound + [Answering]
      && agreed.sent != [] && agreed.sent[|agreed.sent| - 1].HelloAck?
      && var ack := agreed.sent[|agreed.sent| - 1].ack;
      && (AcceptsAck(i, initiator, ack) <==> Pinned(initiator, acceptor.identity.publicKey))
      && (Pinned(initiator, acceptor.identity.publicKey) ==>
            && AfterFrame(i, initiator, HelloAck(ack), clock) == AfterGoOnline(Keyed(i, initiator, ack), initiator, clock)
            && Agree(Keyed(i, initiator, ack).keys.value, agreed.keys.value))
  {
    hide AfterGoOnline;
    var hello := HelloOf(initiator, i.ephemeral.value);
    var asked := AfterHello(a, acceptor, hello, secretKey);
    assert IsPublicKey(p.publicKey(initiator.identity.secretKey)) && IsPublicKey(p.publicKey(i.ephemeral.value.secretKey));
    assert asked.inbound[..|a.inbound|] == a.inbound && asked.inbound[|a.inbound| + 1..] == [] && a.inbound + [] == a.inbound;
    assert IsPublicKey(p.publicKey(acceptor.identity.secretKey)) && IsPublicKey(p.publicKey(asked.ephemeral.value.secretKey));
    if initiator.role == Mobile {
      DerivedKeysAgree(p, initiator.identity, i.ephemeral.value, acceptor.identity, asked.ephemeral.value);
    } else {
      DerivedKeysAgree(p, acceptor.identity, asked.ephemeral.value, initiator.identity, i.ephemeral.value);
    }
  }

  // Between agreeing on keys and coming online

  // Everything that can happen to one connection.
  datatype LocalAction =
    | ReadFrame(frame: Frame, clocks: nat -> Clock)
    | EmitOne(name: string, payload: string, clock: Clock)
    | DeliverOne(event: RemoteEvent)
    | ReplayOne(index: nat)
    | AnswerOne(index: nat, answer: Answer, clocks: nat -> Clock)
    | ConnectAgain(ephemeral: KeyPair)
    | SayHello
    | ConnectFails
    | CloseIt
    | LoseIt

  function AfterLocal(c: Conn, config: Config, a: LocalAction): Conn {
    match a
    case ReadFrame(frame, clocks) => AfterFrame(c, config, frame, clocks)
    case EmitOne(name, payload, clock) => AfterEmit(c, config, name, payload, clock)
    case DeliverOne(event) => AfterDeliver(c, event)
    case ReplayOne(index) => if index < |c.replays| then AfterReplayStep(c, index) else c
    case AnswerOne(index, answer, clocks) => if index < |c.inbound| then AfterInbound(c, config, index, answer, clocks) else c
    case ConnectAgain(ephemeral) => AfterConnect(c, ephemeral)
    case SayHello => AfterSendHello(c, config)
    case ConnectFails => InState(c, Failed)
    case CloseIt => AfterClose(c)
    case LoseIt => AfterTransportClosed(c)
  }

  function RunLocal(c: Conn, config: Config, actions: seq<LocalAction>): Conn {
    if actions == [] then c
    else AfterLocal(RunLocal(c, config, actions[..|actions| - 1]), config, actions[|actions| - 1])
  }

  // A hello is refused on sight, or is that of another connection while online.
  predicate HelloDrops(c: Conn, config: Config, hello: HelloInfo) {
    if c.state == Online then c.handshakeConnectionId != Some(hello.connectionId)
    else !IsPublicKey(hello.identityKey) || !Pinned(config, hello.identityKey)
  }

  // The actions that leave an accepting end without keys: a close, a lost transport, another attempt to
  // connect, a frame that fails it or that says its peer is gone or starts over, or a refusal.
  predicate Drops(c: Conn, config: Config, a: LocalAction) {
    match a
    case ReadFrame(frame, _) =>
      (match frame
       case Hello(hello) => HelloDrops(c, config, hello)
       case PeerStatus(online) => !online && (c.state == Online || c.state == Recovering)
       case SealedFrame(sealed) => c.keys.Some? && sealed.key != c.keys.value.receiveKey
       case _ => true)
    case AnswerOne(index, answer, _) =>
      index < |c.inbound| &&
      (match c.inbound[index]
       case Deciding(hello) =>
         c.state != Closed && (answer == Refused || (answer == Approved && c.ephemeral.Some? && !IsPublicKey(hello.ephemeralKey)))
       case Approving(hello) =>
         c.state == PendingApproval && (answer != Approved || (c.ephemeral.Some? && !IsPublicKey(hello.ephemeralKey)))
       case Answering => answer != Approved)
    case ConnectAgain(_) => c.state != Online && c.state != Connecting && c.state != PendingApproval
    case CloseIt => c.state != Closed
    case LoseIt => c.state != Closed
    case _ => false
  }

  // An approved hello that the end agrees to.
  predicate Agrees(c: Conn, a: LocalAction) {
    && a.AnswerOne? && a.index < |c.inbound| && a.answer == Approved && c.ephemeral.Some?
    && match c.inbound[a.index]
       case Deciding(hello) => c.state != Closed && IsPublicKey(hello.ephemeralKey)
       case Approving(hello) => c.state == PendingApproval && IsPublicKey(hello.ephemeralKey)
       case Answering => false
  }

  lemma SealedKeys(c: Conn, config: Config, sealed: Sealed, clock: Clock)
    ensures AfterSealed(c, config, sealed, clock).keys
         == if c.keys.Some? && sealed.key != c.keys.value.receiveKey then None else c.keys
  {
  }

  lemma AnswerKeys(c: Conn, config: Config, a: LocalAction)
    requires a.AnswerOne? && a.index < |c.inbound| && c.earlySealed == []
    ensures AfterLocal(c, config, a).keys.None? <==> Drops(c, config, a) || (c.keys.None? && !Agrees(c, a))
  {
    hide DeriveSessionKeys;
    var rest := c.(inbound := c.inbound[..a.index] + c.inbound[a.index + 1..]);
    NothingHeld(rest, config, a.clocks);
  }

  lemma ReadingKeys(c: Conn, config: Config, a: LocalAction)
    requires a.ReadFrame? && config.handshake == Accept && HoldsOnlyWithoutKeys(c, config)
    ensures AfterLocal(c, config, a).keys.None? <==> Drops(c, config, a) || (c.keys.None? && !Agrees(c, a))
    ensures HoldsOnlyWithoutKeys(AfterLocal(c, config, a), config)
  {
    hide AfterSealed;
    if a.frame.SealedFrame? {
      SealedKeys(c, config, a.frame.sealed, a.clocks(0));
      SealedKeepsHolding(c, config, a.frame.sealed, a.clocks(0));
    }
  }

  // An accepting end loses its keys exactly by the actions that drop them, and gets keys exactly by agreeing.
  lemma LocalKeys(c: Conn, config: Config, a: LocalAction)
    requires config.handshake == Accept && HoldsOnlyWithoutKeys(c, config)
    ensures AfterLocal(c, config, a).keys.None? <==> Drops(c, config, a) || (c.keys.None? && !Agrees(c, a))
    ensures HoldsOnlyWithoutKeys(AfterLocal(c, config, a), config)
  {
    hide AfterInbound, AfterFrame, Step;
    match a
    case ReadFrame(_, _) => ReadingKeys(c, config, a);
    case AnswerOne(index, answer, clocks) =>
      if index < |c.inbound| {
        AnswerKeys(c, config, a);
        InboundIsQuiet(c, config, index, answer, clocks);
      }
    case _ =>
  }

  lemma {:induction false} RunHolds(config: Config, resumeFrom: nat, journal: History, actions: seq<LocalAction>)
    requires config.handshake == Accept
    ensures HoldsOnlyWithoutKeys(RunLocal(NewConn(resumeFrom, journal, []), config, actions), config)
  {
    hide AfterLocal;
    if actions != [] {
      RunHolds(config, resumeFrom, journal, actions[..|actions| - 1]);
      LocalKeys(RunLocal(NewConn(resumeFrom, journal, []), config, actions[..|actions| - 1]), config, actions[|actions| - 1]);
    }
  }

  // Some action dropped the keys, and none after it agreed on new ones.
  predicate DroppedForGood(c: Conn, config: Config, actions: seq<LocalAction>) {
    exists k | 0 <= k < |actions| ::
      && Drops(RunLocal(c, config, actions[..k]), config, actions[k])
      && forall j | k < j < |actions| :: !Agrees(RunLocal(c, config, actions[..j]), actions[j])
  }

  lemma DroppedLast(c: Conn, config: Config, actions: seq<LocalAction>)
    requires actions != []
    ensures
      var earlier, last := actions[..|actions| - 1], actions[|actions| - 1];
      DroppedForGood(c, config, actions)
      <==> Drops(RunLocal(c, config, earlier), config, last)
           || (DroppedForGood(c, config, earlier) && !Agrees(RunLocal(c, config, earlier), last))
  {
    hide Drops, Agrees, RunLocal;
    var earlier, n := actions[..|actions| - 1], |actions| - 1;
    forall k | 0 <= k < n
      ensures actions[..k] == earlier[..k] && actions[k] == earlier[k]
    {
    }
    if DroppedForGood(c, config, earlier) && !Agrees(RunLocal(c, config, earlier), actions[n]) {
      var k :| 0 <= k < n && Drops(RunLocal(c, config, earlier[..k]), config, earlier[k])
               && forall j | k < j < n :: !Agrees(RunLocal(c, config, earlier[..j]), earlier[j]);
      assert Drops(RunLocal(c, config, actions[..k]), config, actions[k]);
      assert actions[..n] == earlier;
    }
    if Drops(RunLocal(c, config, earlier), config, actions[n]) {
      assert actions[..n] == earlier;
    }
    if DroppedForGood(c, config, actions) && !Drops(RunLocal(c, config, earlier), config, actions[n]) {
      var k :| 0 <= k <= n && Drops(RunLocal(c, config, actions[..k]), config, actions[k])
               && forall j | k < j <= n :: !Agrees(RunLocal(c, config, actions[..j]), actions[j]);
      assert actions[..n] == earlier && k < n;
      assert Drops(RunLocal(c, config, earlier[..k]), config, earlier[k]);
      assert forall j | k < j < n :: !Agrees(RunLocal(c, config, earlier[..j]), earlier[j]);
    }
  }

  lemma {:induction false} KeysAlong(c: Conn, config: Config, actions: seq<LocalAction>)
    requires config.handshake == Accept && HoldsOnlyWithoutKeys(c, config) && c.keys.Some?
    ensures RunLocal(c, config, actions).keys.None? <==> DroppedForGood(c, config, actions)
    ensures HoldsOnlyWithoutKeys(RunLocal(c, config, actions), config)
  {
    hide AfterLocal, Drops, Agrees, HoldsOnlyWithoutKeys, DroppedForGood;
    if actions == [] {
      NothingDropped(c, config);
    } else {
      var earlier, last := actions[..|actions| - 1], actions[|actions| - 1];
      KeysAlong(c, config, earlier);
      LocalKeys(RunLocal(c, config, earlier), config, last);
      DroppedLast(c, config, actions);
    }
  }

  lemma NothingDropped(c: Conn, config: Config)
    ensures !DroppedForGood(c, config, [])
  {
  }

  // Whatever happened before an accepting end agreed on keys, and whatever happens between that and the
  // moment its acknowledgement has been sent: it is then online, and it is online without keys exactly
  // if some action in between dropped them and it has not agreed on new ones since.
  lemma OnlineWithoutKeysExactly(
      config: Config, resumeFrom: nat, journal: History, before: seq<LocalAction>, agreement: LocalAction, between: seq<LocalAction>,
      index: nat, clock: nat -> Clock)
    requires config.handshake == Accept
    requires Agrees(RunLocal(NewConn(resumeFrom, journal, []), config, before), agreement)
    requires
      var agreed := AfterLocal(RunLocal(NewConn(resumeFrom, journal, []), config, before), config, agreement);
      index < |RunLocal(agreed, config, between).inbound| && RunLocal(agreed, config, between).inbound[index] == Answering
    ensures
      var agreed := AfterLocal(RunLocal(NewConn(resumeFrom, journal, []), config, before), config, agreement);
      var online := AfterInbound(RunLocal(agreed, config, between), config, index, Approved, clock);
      && agreed.keys.Some?
      && online.state == Online
      && (online.keys.None? <==> DroppedForGood(agreed, config, between))
  {
    hide AfterLocal, RunLocal, DroppedForGood;
    var c := RunLocal(NewConn(resumeFrom, journal, []), config, before);
    RunHolds(config, resumeFrom, journal, before);
    LocalKeys(c, config, agreement);
    AgreeingDropsNothing(c, config, agreement);
    var agreed := AfterLocal(c, config, agreement);
    KeysAlong(agreed, config, between);
    var last := RunLocal(agreed, config, between);
    NothingHeld(last.(inbound := last.inbound[..index] + last.inbound[index + 1..]), config, clock);
  }

  lemma AgreeingDropsNothing(c: Conn, config: Config, a: LocalAction)
    requires Agrees(c, a)
    ensures !Drops(c, config, a)
  {
  }

  // A connection that is closed while its acknowledgement is being sent is online afterwards, without keys.
  lemma ClosedConnectionComesOnline(
      config: Config, resumeFrom: nat, journal: History, before: seq<LocalAction>, agreement: LocalAction, index: nat, clock: nat -> Clock)
    requires config.handshake == Accept
    requires Agrees(RunLocal(NewConn(resumeFrom, journal, []), config, before), agreement)
    requires
      var agreed := AfterLocal(RunLocal(NewConn(resumeFrom, journal, []), config, before), config, agreement);
      agreed.state != Closed && index < |agreed.inbound| && agreed.inbound[index] == Answering
    ensures
      var agreed := AfterLocal(RunLocal(NewConn(resumeFrom, journal, []), config, before), config, agreement);
      var online := AfterInbound(AfterClose(agreed), config, index, Approved, clock);
      online.state == Online && online.keys.None?
  {
    hide AfterFrame, AfterInbound;
    var agreed := AfterLocal(RunLocal(NewConn(resumeFrom, journal, []), config, before), config, agreement);
    assert [CloseIt][..0] == [] && RunLocal(agreed, config, []) == agreed;
    assert RunLocal(agreed, config, [CloseIt]) == AfterClose(agreed);
    assert Drops(RunLocal(agreed, config, [CloseIt][..0]), config, [CloseIt][0]);
    OnlineWithoutKeysExactly(config, resumeFrom, journal, before, agreement, [CloseIt], index, clock);
  }

  // The shortest such history: a connection that has connected reads a hello, the host approves it, and
  // the connection is closed before its acknowledgement has been sent.
  lemma ClosedWhileAnswering(config: Config, ephemeral: KeyPair, hello: HelloInfo, clocks: nat -> Clock)
    requires config.handshake == Accept && Pinned(config, hello.identityKey)
    requires IsPublicKey(hello.identityKey) && IsPublicKey(hello.ephemeralKey)
    ensures
      var before := [ConnectAgain(ephemeral), ReadFrame(Hello(hello), clocks)];
      var agreed := AfterLocal(RunLocal(NewConn(0, EMPTY_HISTORY, []), config, before), config, AnswerOne(0, Approved, clocks));
      var closed := AfterClose(agreed);
      var online := AfterLocal(closed, config, AnswerOne(0, Approved, clocks));
      && agreed.keys.Some? && agreed.inbound == [Answering]
      && closed.state == Closed && closed.closeRequested
      && online.state == Online && online.keys.None?
  {
    hide DeriveSessionKeys;
    var idle := NewConn(0, EMPTY_HISTORY, []);
    var before := [ConnectAgain(ephemeral), ReadFrame(Hello(hello), clocks)];
    assert before[..1] == [ConnectAgain(ephemeral)] && before[..1][..0] == [];
    assert RunLocal(idle, config, before[..1]) == AfterConnect(idle, ephemeral);
    var asked := RunLocal(idle, config, before);
    assert asked.inbound == [Deciding(hello)];
    var agreed := AfterLocal(asked, config, AnswerOne(0, Approved, clocks));
    assert agreed.inbound == [Answering];
  }
}
