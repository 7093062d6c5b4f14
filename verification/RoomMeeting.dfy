/**
 A mobile and a desktop client come up in the deployed relay room: the eight steps of a first meeting.
 */
module RoomMeeting {
  import opened Results
  import opened RemoteCrypto
  import opened EventJournal
  import opened RemoteConnection
  import opened FakeRelay
  import opened KeyEffects
  import opened RemotePairRoom
  import opened RoomAgreement
  import Agreement = KeyAgreement

  function FirstMeeting(secretM: Bytes, secretD: Bytes, clocks: nat -> Clock): seq<Action> {
    [Connect(0, secretM), Opens(0), Handles(0), Connect(1, secretD), Opens(1), Handles(1), Reads(0, clocks), Reads(1, clocks)]
  }

  function RunFrom(w: World, actions: seq<Action>): World
    decreases |actions|
  {
    if actions == [] then w else RunFrom(Next(w, actions[0]), actions[1..])
  }

  lemma {:induction false} RunFromStart(configs: seq<Config>, actions: seq<Action>, more: seq<Action>)
    ensures RunFrom(RunClients(configs, actions), more) == RunClients(configs, actions + more)
    decreases |more|
  {
    if more == [] {
      assert actions + more == actions;
    } else {
      var next := actions + [more[0]];
      assert next[..|next| - 1] == actions;
      assert next + more[1..] == actions + more;
      RunFromStart(configs, next, more[1..]);
    }
  }

  predicate Announces(config: Config) {
    && config.handshake == Initiate
    && 0 < |config.connectionId| <= MAX_CONNECTION_ID
    && IsPublicKey(config.identity.publicKey)
  }

  // A client that has said hello on socket `s` and waits for the answer.
  function Waiting(config: Config, ephemeral: KeyPair, s: nat): Client {
    Client(config, AfterConnect(NewConn(0, EMPTY_HISTORY, []), ephemeral), Attached(s, 0))
  }

  // An accepted acknowledgement brings a client up; it says where it stands.
  lemma AnswerBringsUp(c: Conn, config: Config, ack: AckInfo, clocks: nat -> Clock)
    requires config.handshake == Initiate && AcceptsAck(c, config, ack)
    requires c.sent == [] && c.earlySealed == [] && !c.closeRequested
    ensures var c' := AfterFrame(c, config, HelloAck(ack), clocks);
            && c'.state == Online && c'.keys.Some? && c'.ephemeral == c.ephemeral
            && c'.earlySealed == [] && !c'.closeRequested
            && |c'.sent| == 1 && c'.sent[0].SealedFrame?
  {
    hide DeriveSessionKeys;
    HelloAckCases(c, config, ack, clocks);
  }

  function HasSaid(config: Config, ephemeral: KeyPair, sent: seq<Frame>): Socket {
    Socket(config.role, true, true, true, false, Some(HelloOf(config, ephemeral)), sent)
  }

  function Idle(config: Config): Client {
    Client(config, NewConn(0, EMPTY_HISTORY, []), Unlinked)
  }

  function Silent(role: Role): Socket {
    Socket(role, true, true, false, false, None, [])
  }

  // The first client connects, is admitted and registered.

  lemma FirstConnects(m: Config, d: Config, p: Primitives, secret: Bytes)
    requires m.primitives == p
    ensures Next(Start([m, d]), Connect(0, secret))
         == World([], [], [Waiting(m, MakeKeyPair(p, secret), 0).(link := Opening), Idle(d)])
  {
    assert Start([m, d]).clients == [Idle(m), Idle(d)];
  }

  lemma FirstOpens(m: Config, d: Config, ephemeral: KeyPair)
    requires m.handshake == Initiate
    ensures Next(World([], [], [Waiting(m, ephemeral, 0).(link := Opening), Idle(d)]), Opens(0))
         == World([Silent(m.role)], [[Hello(HelloOf(m, ephemeral))]], [Waiting(m, ephemeral, 0), Idle(d)])
  {
    var waiting := Waiting(m, ephemeral, 0);
    var w := World([], [], [waiting.(link := Opening), Idle(d)]);
    assert AfterAccept([], m.role) == [Silent(m.role)];
    var said := AfterSendHello(waiting.conn, m);
    assert said.sent == [Hello(HelloOf(m, ephemeral))] && said.(sent := [], closeRequested := false) == waiting.conn;
    assert Next(w, Opens(0)).clients == [waiting, Idle(d)];
    assert Next(w, Opens(0)).upstream == [[Hello(HelloOf(m, ephemeral))]];
  }

  lemma FirstIsHeard(m: Config, d: Config, ephemeral: KeyPair)
    requires Announces(m) && IsPublicKey(ephemeral.publicKey)
    ensures Next(World([Silent(m.role)], [[Hello(HelloOf(m, ephemeral))]], [Waiting(m, ephemeral, 0), Idle(d)]), Handles(0))
         == World([HasSaid(m, ephemeral, [])], [[]], [Waiting(m, ephemeral, 0), Idle(d)])
  {
    hide AfterAcknowledgePair;
    var hello := Hello(HelloOf(m, ephemeral));
    var registered := [HasSaid(m, ephemeral, [])];
    AloneIsNotAnswered(m, ephemeral);
    assert [Silent(m.role)][0 := Silent(m.role).(authenticated := true, hello := Some(hello.hello))] == registered;
    assert AfterLine([Silent(m.role)], 0, LineOf(hello)).sockets == registered;
    assert [hello][1..] == [];
    assert [[hello]][0 := []] == [[]];
  }

  lemma AloneIsNotAnswered(m: Config, ephemeral: KeyPair)
    ensures AfterAcknowledgePair([HasSaid(m, ephemeral, [])]) == [HasSaid(m, ephemeral, [])]
  {
    hide AuthenticatedFrom;
    NoneAuthenticated([HasSaid(m, ephemeral, [])], Opposite(m.role), 0);
  }

  lemma FirstArrives(m: Config, d: Config, p: Primitives, secret: Bytes)
    requires Announces(m) && m.primitives == p && FixedLength(p)
    ensures
      var ephemeral := MakeKeyPair(p, secret);
      RunFrom(Start([m, d]), [Connect(0, secret), Opens(0), Handles(0)]) ==
      World([HasSaid(m, ephemeral, [])], [[]], [Waiting(m, ephemeral, 0), Idle(d)])
  {
    hide Next, Start, Waiting, HasSaid, Silent, Idle;
    FirstConnects(m, d, p, secret);
    FirstOpens(m, d, MakeKeyPair(p, secret));
    FirstIsHeard(m, d, MakeKeyPair(p, secret));
    ThreeSteps(Start([m, d]), Connect(0, secret), Opens(0), Handles(0));
  }

  lemma ThreeSteps(w: World, a: Action, b: Action, c: Action)
    ensures RunFrom(w, [a, b, c]) == Next(Next(Next(w, a), b), c)
  {
    hide Next;
    assert [a, b, c][1..] == [b, c] && [b, c][1..] == [c] && [c][1..] == [];
    assert RunFrom(Next(w, a), [b, c]) == RunFrom(Next(Next(w, a), b), [c]);
  }

  // The second one follows, and each is sent the other's keys.

  lemma SecondOpens(m: Config, d: Config, p: Primitives, ephemeralM: KeyPair, secret: Bytes)
    requires d.handshake == Initiate && d.primitives == p && m.role == Mobile && d.role == Desktop
    ensures
      var ephemeralD := MakeKeyPair(p, secret);
      var w := World([HasSaid(m, ephemeralM, [])], [[]], [Waiting(m, ephemeralM, 0), Idle(d)]);
      Next(Next(w, Connect(1, secret)), Opens(1)) ==
      World([HasSaid(m, ephemeralM, []), Silent(Desktop)], [[], [Hello(HelloOf(d, ephemeralD))]],
            [Waiting(m, ephemeralM, 0), Waiting(d, ephemeralD, 1)])
  {
    var ephemeralD := MakeKeyPair(p, secret);
    var mobile, waiting := Waiting(m, ephemeralM, 0), Waiting(d, ephemeralD, 1);
    var w := World([HasSaid(m, ephemeralM, [])], [[]], [mobile, Idle(d)]);
    var w1 := Next(w, Connect(1, secret));
    assert w1 == World(w.sockets, [[]], [mobile, waiting.(link := Opening)]);
    var w2 := Next(w1, Opens(1));
    assert w2.sockets == [HasSaid(m, ephemeralM, []), Silent(Desktop)];
    var said := AfterSendHello(waiting.conn, d);
    assert said.sent == [Hello(HelloOf(d, ephemeralD))] && said.(sent := [], closeRequested := false) == waiting.conn;
    assert w2.clients == [mobile, waiting];
    assert w2.upstream == [[], [Hello(HelloOf(d, ephemeralD))]];
  }

  lemma SecondArrives(m: Config, d: Config, p: Primitives, ephemeralM: KeyPair, secret: Bytes)
    requires Announces(m) && Announces(d) && d.primitives == p && FixedLength(p) && Matching(p, ephemeralM)
    requires m.role == Mobile && d.role == Desktop
    ensures
      var ephemeralD := MakeKeyPair(p, secret);
      var helloM, helloD := HelloOf(m, ephemeralM), HelloOf(d, ephemeralD);
      RunFrom(World([HasSaid(m, ephemeralM, [])], [[]], [Waiting(m, ephemeralM, 0), Idle(d)]),
              [Connect(1, secret), Opens(1), Handles(1)]) ==
      World([HasSaid(m, ephemeralM, [HelloAck(AckFor(helloM, helloD))]), HasSaid(d, ephemeralD, [HelloAck(AckFor(helloD, helloM))])],
            [[], []], [Waiting(m, ephemeralM, 0), Waiting(d, ephemeralD, 1)])
  {
    hide Waiting, HasSaid, AfterLine, AfterAccept, AfterClientConnect, AfterOpening;
    var ephemeralD := MakeKeyPair(p, secret);
    var hello := Hello(HelloOf(d, ephemeralD));
    var w := World([HasSaid(m, ephemeralM, [])], [[]], [Waiting(m, ephemeralM, 0), Idle(d)]);
    SecondOpens(m, d, p, ephemeralM, secret);
    SecondIsAcknowledged(m, d, ephemeralM, ephemeralD);
    assert [hello][1..] == [] && [[], [hello]][1 := []] == [[], []];
    ThreeSteps(w, Connect(1, secret), Opens(1), Handles(1));
  }

  lemma SecondIsAcknowledged(m: Config, d: Config, ephemeralM: KeyPair, ephemeralD: KeyPair)
    requires Announces(m) && Announces(d) && m.role == Mobile && d.role == Desktop
    requires IsPublicKey(ephemeralM.publicKey) && IsPublicKey(ephemeralD.publicKey)
    ensures
      var helloM, helloD := HelloOf(m, ephemeralM), HelloOf(d, ephemeralD);
      AfterLine([HasSaid(m, ephemeralM, []), Silent(Desktop)], 1, LineOf(Hello(helloD))).sockets ==
      [HasSaid(m, ephemeralM, [HelloAck(AckFor(helloM, helloD))]), HasSaid(d, ephemeralD, [HelloAck(AckFor(helloD, helloM))])]
  {
    hide AfterAcknowledgePair, AuthenticatedFrom;
    var helloM, helloD := HelloOf(m, ephemeralM), HelloOf(d, ephemeralD);
    var registered := [HasSaid(m, ephemeralM, []), HasSaid(d, ephemeralD, [])];
    var before := [HasSaid(m, ephemeralM, []), Silent(Desktop)];
    assert before[1 := before[1].(authenticated := true, hello := Some(helloD))] == registered;
    assert AfterLine(before, 1, LineOf(Hello(helloD))).sockets == AfterAcknowledgePair(registered);
    PairIsAcknowledged(m, d, ephemeralM, ephemeralD);
  }

  lemma PairIsAcknowledged(m: Config, d: Config, ephemeralM: KeyPair, ephemeralD: KeyPair)
    requires Announces(m) && Announces(d) && m.role == Mobile && d.role == Desktop
    requires IsPublicKey(ephemeralM.publicKey) && IsPublicKey(ephemeralD.publicKey)
    ensures
      var helloM, helloD := HelloOf(m, ephemeralM), HelloOf(d, ephemeralD);
      AfterAcknowledgePair([HasSaid(m, ephemeralM, []), HasSaid(d, ephemeralD, [])]) ==
      [HasSaid(m, ephemeralM, [HelloAck(AckFor(helloM, helloD))]), HasSaid(d, ephemeralD, [HelloAck(AckFor(helloD, helloM))])]
  {
    hide AuthenticatedFrom;
    var helloM, helloD := HelloOf(m, ephemeralM), HelloOf(d, ephemeralD);
    var registered := [HasSaid(m, ephemeralM, []), HasSaid(d, ephemeralD, [])];
    assert IsComplete(helloM) && IsComplete(helloD);
    assert RoomInv(registered);
    OnlyAuthenticated(registered, Mobile, 0, 0);
    OnlyAuthenticated(registered, Desktop, 0, 1);
    assert [] + [HelloAck(AckFor(helloM, helloD))] == [HelloAck(AckFor(helloM, helloD))];
    assert [] + [HelloAck(AckFor(helloD, helloM))] == [HelloAck(AckFor(helloD, helloM))];
    assert Sent(registered, 0, HelloAck(AckFor(helloM, helloD))) ==
           [HasSaid(m, ephemeralM, [HelloAck(AckFor(helloM, helloD))]), HasSaid(d, ephemeralD, [])];
  }

  // What reading an acknowledgement makes of a connection, and what it sends.

  function Answered(config: Config, ephemeral: KeyPair, ack: AckInfo, clocks: nat -> Clock): Conn {
    AfterFrame(Waiting(config, ephemeral, 0).conn, config, HelloAck(ack), clocks)
  }

  function Quiet(c: Conn): Conn {
    c.(sent := [], closeRequested := false)
  }

  // The room, the ways to it and the clients once both have read the other's keys.
  function Met(m: Config, d: Config, ephemeralM: KeyPair, ephemeralD: KeyPair, clocks: nat -> Clock): World {
    var helloM, helloD := HelloOf(m, ephemeralM), HelloOf(d, ephemeralD);
    var ackM, ackD := AckFor(helloM, helloD), AckFor(helloD, helloM);
    var mobile, desktop := Answered(m, ephemeralM, ackM, clocks), Answered(d, ephemeralD, ackD, clocks);
    World([HasSaid(m, ephemeralM, [HelloAck(ackM)]), HasSaid(d, ephemeralD, [HelloAck(ackD)])],
          [mobile.sent, desktop.sent],
          [Client(m, Quiet(mobile), Attached(0, 1)), Client(d, Quiet(desktop), Attached(1, 1))])
  }

  predicate Meets(m: Config, d: Config) {
    && m.role == Mobile && d.role == Desktop && Announces(m) && Announces(d)
    && Pinned(m, d.identity.publicKey) && Pinned(d, m.identity.publicKey)
  }

  lemma AnswerIsUp(config: Config, ephemeral: KeyPair, ack: AckInfo, clocks: nat -> Clock)
    requires Announces(config) && ack.connectionId == config.connectionId && Pinned(config, ack.peerIdentityKey)
    requires IsPublicKey(ack.peerIdentityKey) && IsPublicKey(ack.peerEphemeralKey)
    ensures var c := Answered(config, ephemeral, ack, clocks);
            && c.state == Online && c.keys.Some? && c.ephemeral == Some(ephemeral)
            && c.earlySealed == [] && !c.closeRequested
            && |c.sent| == 1 && c.sent[0].SealedFrame?
  {
    hide AfterFrame;
    AnswerBringsUp(Waiting(config, ephemeral, 0).conn, config, ack, clocks);
  }

  // Each reads the other's keys.
  lemma BothRead(m: Config, d: Config, ephemeralM: KeyPair, ephemeralD: KeyPair, clocks: nat -> Clock)
    requires Meets(m, d) && IsPublicKey(ephemeralM.publicKey) && IsPublicKey(ephemeralD.publicKey)
    ensures
      var helloM, helloD := HelloOf(m, ephemeralM), HelloOf(d, ephemeralD);
      var w := World([HasSaid(m, ephemeralM, [HelloAck(AckFor(helloM, helloD))]),
                      HasSaid(d, ephemeralD, [HelloAck(AckFor(helloD, helloM))])],
                     [[], []], [Waiting(m, ephemeralM, 0), Waiting(d, ephemeralD, 1)]);
      RunFrom(w, [Reads(0, clocks), Reads(1, clocks)]) == Met(m, d, ephemeralM, ephemeralD, clocks)
  {
    hide AfterFrame;
    var helloM, helloD := HelloOf(m, ephemeralM), HelloOf(d, ephemeralD);
    var w := World([HasSaid(m, ephemeralM, [HelloAck(AckFor(helloM, helloD))]),
                    HasSaid(d, ephemeralD, [HelloAck(AckFor(helloD, helloM))])],
                   [[], []], [Waiting(m, ephemeralM, 0), Waiting(d, ephemeralD, 1)]);
    var mobile, desktop := Answered(m, ephemeralM, AckFor(helloM, helloD), clocks), Answered(d, ephemeralD, AckFor(helloD, helloM), clocks);
    AnswerIsUp(m, ephemeralM, AckFor(helloM, helloD), clocks);
    AnswerIsUp(d, ephemeralD, AckFor(helloD, helloM), clocks);
    var w7 := Next(w, Reads(0, clocks));
    assert [] + mobile.sent == mobile.sent && [] + desktop.sent == desktop.sent;
    assert w7.clients == [Client(m, Quiet(mobile), Attached(0, 1)), Waiting(d, ephemeralD, 1)];
    assert w7.upstream == [mobile.sent, []];
    var w8 := Next(w7, Reads(1, clocks));
    assert w8.clients == Met(m, d, ephemeralM, ephemeralD, clocks).clients;
    assert w8.upstream == [mobile.sent, desktop.sent];
    assert [Reads(0, clocks), Reads(1, clocks)][1..] == [Reads(1, clocks)];
    assert [Reads(1, clocks)][1..] == [];
    assert RunFrom(w7, [Reads(1, clocks)]) == RunFrom(w8, []) == w8;
  }

  lemma MetIsSettled(m: Config, d: Config, ephemeralM: KeyPair, ephemeralD: KeyPair, clocks: nat -> Clock)
    requires Meets(m, d) && IsPublicKey(ephemeralM.publicKey) && IsPublicKey(ephemeralD.publicKey)
    ensures Settled(Met(m, d, ephemeralM, ephemeralD, clocks), 0) && Settled(Met(m, d, ephemeralM, ephemeralD, clocks), 1)
  {
    hide Answered;
    var helloM, helloD := HelloOf(m, ephemeralM), HelloOf(d, ephemeralD);
    AnswerIsUp(m, ephemeralM, AckFor(helloM, helloD), clocks);
    AnswerIsUp(d, ephemeralD, AckFor(helloD, helloM), clocks);
  }

  lemma FirstMeetingMeets(m: Config, d: Config, p: Primitives, secretM: Bytes, secretD: Bytes, clocks: nat -> Clock)
    requires FixedLength(p) && Agreement.Configured([m, d], p) && Meets(m, d)
    ensures RunClients([m, d], FirstMeeting(secretM, secretD, clocks))
         == Met(m, d, MakeKeyPair(p, secretM), MakeKeyPair(p, secretD), clocks)
  {
    hide Next, Waiting, Met;
    var ephemeralM, ephemeralD := MakeKeyPair(p, secretM), MakeKeyPair(p, secretD);
    var arrive, follow, read := [Connect(0, secretM), Opens(0), Handles(0)], [Connect(1, secretD), Opens(1), Handles(1)],
                                [Reads(0, clocks), Reads(1, clocks)];
    assert m in [m, d] && d in [m, d];
    FirstArrives(m, d, p, secretM);
    SecondArrives(m, d, p, ephemeralM, secretD);
    BothRead(m, d, ephemeralM, ephemeralD, clocks);
    RunFromStart([m, d], [], arrive);
    assert [] + arrive == arrive;
    RunFromStart([m, d], arrive, follow);
    RunFromStart([m, d], arrive + follow, read);
    assert arrive + follow + read == FirstMeeting(secretM, secretD, clocks);
  }

  // Whatever ephemeral keys they draw, a mobile and a desktop client that each accept the other's
  // identity come up, and hold mirrored keys, in the eight steps of a first meeting.
  lemma FirstMeetingAgrees(m: Config, d: Config, p: Primitives, secretM: Bytes, secretD: Bytes, clocks: nat -> Clock)
    requires Commutes(p) && FixedLength(p) && Agreement.Configured([m, d], p) && Meets(m, d)
    ensures var w := RunClients([m, d], FirstMeeting(secretM, secretD, clocks));
            && Settled(w, 0) && Settled(w, 1)
            && w.clients[0].conn.keys.Some? && w.clients[1].conn.keys.Some?
            && Agree(w.clients[0].conn.keys.value, w.clients[1].conn.keys.value)
  {
    hide Settled, RunClients;
    FirstMeetingMeets(m, d, p, secretM, secretD, clocks);
    MetIsSettled(m, d, MakeKeyPair(p, secretM), MakeKeyPair(p, secretD), clocks);
    KeysAgreeInEveryRun([m, d], p, FirstMeeting(secretM, secretD, clocks), 0, 1);
  }
}
