/**
 Three ways on after a first meeting: the mobile client loses its socket and connects, which leads
 nowhere; the close of an earlier socket reaches it late and it connects, which costs it the socket; it
 loses its socket, closes the connection and connects, and both are settled again.
 */
module RoomReturn {
  import opened Results
  import opened RemoteCrypto
  import opened EventJournal
  import opened RemoteConnection
  import opened FakeRelay
  import opened KeyEffects
  import opened RemotePairRoom
  import opened RoomPairing
  import opened RoomAgreement
  import opened RoomMeeting
  import opened RoomReconnect
  import Agreement = KeyAgreement

  // Lost, and connected again.
  lemma LostStaysDown(m: Config, d: Config, p: Primitives, secretM: Bytes, secretD: Bytes, clocks: nat -> Clock, secretKey: Bytes)
    requires FixedLength(p) && Agreement.Configured([m, d], p) && Meets(m, d)
    ensures
      var lost := FirstMeeting(secretM, secretD, clocks) + [Loses(0, false)];
      var w := RunClients([m, d], lost + [Connect(0, secretKey)]);
      && |RunClients([m, d], lost).clients| == 2 && RunClients([m, d], lost).clients[0].link == Gone
      && |w.clients| == 2 && w.clients[0].link == Gone && !Up(w.clients[0].conn)
  {
    hide Next, Met, RunClients;
    var actions := FirstMeeting(secretM, secretD, clocks);
    FirstMeetingMeets(m, d, p, secretM, secretD, clocks);
    RunMore([m, d], actions, Loses(0, false));
    MetLoses(m, d, MakeKeyPair(p, secretM), MakeKeyPair(p, secretD), clocks);
    LostUntilClosed([m, d], p, actions + [Loses(0, false)], 0, [Connect(0, secretKey)]);
    RunMore([m, d], actions + [Loses(0, false)], Connect(0, secretKey));
    ClientsStay(RunClients([m, d], actions + [Loses(0, false)]), Connect(0, secretKey));
  }

  lemma MetLoses(m: Config, d: Config, ephemeralM: KeyPair, ephemeralD: KeyPair, clocks: nat -> Clock)
    ensures var w := Next(Met(m, d, ephemeralM, ephemeralD, clocks), Loses(0, false));
            |w.clients| == 2 && w.clients[0].link == Gone
  {
    hide Answered, AfterTransportClosed;
  }

  // The close of an earlier socket arrives late, and the client connects on the socket it still has.

  lemma RunFourMore(configs: seq<Config>, actions: seq<Action>, a: Action, b: Action, c: Action, d: Action)
    ensures RunClients(configs, actions + [a, b, c, d]) == Next(Next(Next(Next(RunClients(configs, actions), a), b), c), d)
  {
    hide Next;
    RunMore(configs, actions, a);
    RunMore(configs, actions + [a], b);
    RunMore(configs, actions + [a] + [b], c);
    RunMore(configs, actions + [a] + [b] + [c], d);
    assert actions + [a, b, c, d] == actions + [a] + [b] + [c] + [d];
  }

  // Which socket the room has open, what is on the way on it and who is attached to it.
  lemma AfterLateClose(
      m: Config, d: Config, p: Primitives, ephemeralM: KeyPair, ephemeralD: KeyPair, clocks: nat -> Clock, secretKey: Bytes)
    requires Meets(m, d) && m.primitives == p
    requires IsPublicKey(ephemeralM.publicKey) && IsPublicKey(ephemeralD.publicKey)
    ensures
      var met := Met(m, d, ephemeralM, ephemeralD, clocks);
      var w := Next(Next(met, Loses(0, true)), Connect(0, secretKey));
      && w.sockets == met.sockets
      && |w.upstream| == 2 && |w.upstream[0]| == 2 && w.upstream[0][0].SealedFrame? && w.upstream[0][1].Hello?
      && |w.clients| == 2 && w.clients[0].link == Attached(0, 1) && !Up(w.clients[0].conn)
  {
    hide Answered;
    var helloM, helloD := HelloOf(m, ephemeralM), HelloOf(d, ephemeralD);
    AnswerIsUp(m, ephemeralM, AckFor(helloM, helloD), clocks);
  }

  // The room forwards what was sealed before and rejects the second hello.
  lemma SecondHelloIsRejected(w: World)
    requires |w.sockets| == 2 && |w.upstream| == 2 && |w.upstream[0]| == 2 && RoomInv(w.sockets)
    requires w.sockets[0].listed && w.sockets[0].authenticated
    requires w.upstream[0][0].SealedFrame? && w.upstream[0][1].Hello?
    ensures var w' := Next(Next(w, Handles(0)), Handles(0));
            && |w'.sockets| == 2 && !w'.sockets[0].open && w'.clients == w.clients && UpstreamOf(w', 0) == []
  {
    hide AfterForward;
    ForwardOnlySends(w.sockets, 0, w.upstream[0][0]);
    var w1 := Next(w, Handles(0));
    assert w1.sockets[0].authenticated && w1.sockets[0].listed by {
      assert w1.sockets[0].(sent := w.sockets[0].sent) == w.sockets[0];
    }
  }

  lemma LateCloseCostsSocket(m: Config, d: Config, p: Primitives, secretM: Bytes, secretD: Bytes, clocks: nat -> Clock, secretKey: Bytes)
    requires FixedLength(p) && Agreement.Configured([m, d], p) && Meets(m, d)
    ensures
      var met := FirstMeeting(secretM, secretD, clocks);
      var before := RunClients([m, d], met + [Loses(0, true)]);
      var after := RunClients([m, d], met + [Loses(0, true), Connect(0, secretKey), Handles(0), Handles(0)]);
      && |before.clients| == 2 && before.clients[0].link == Attached(0, 1) && |before.sockets| == 2 && before.sockets[0].open
      && |after.clients| == 2 && after.clients[0].link == Attached(0, 1) && |after.sockets| == 2 && !after.sockets[0].open
      && !Up(after.clients[0].conn)
  {
    hide Next, Met, RunClients;
    var met := FirstMeeting(secretM, secretD, clocks);
    var ephemeralM, ephemeralD := MakeKeyPair(p, secretM), MakeKeyPair(p, secretD);
    assert m in [m, d];
    FirstMeetingMeets(m, d, p, secretM, secretD, clocks);
    RunMore([m, d], met, Loses(0, true));
    RunFourMore([m, d], met, Loses(0, true), Connect(0, secretKey), Handles(0), Handles(0));
    AfterLateClose(m, d, p, ephemeralM, ephemeralD, clocks, secretKey);
    MetSockets(m, d, ephemeralM, ephemeralD, clocks);
    SecondHelloIsRejected(Next(Next(Met(m, d, ephemeralM, ephemeralD, clocks), Loses(0, true)), Connect(0, secretKey)));
  }

  lemma MetSockets(m: Config, d: Config, ephemeralM: KeyPair, ephemeralD: KeyPair, clocks: nat -> Clock)
    requires m.role == Mobile && d.role == Desktop
    ensures var met := Met(m, d, ephemeralM, ephemeralD, clocks);
            && |met.sockets| == 2 && RoomInv(met.sockets)
            && met.sockets[0].open && met.sockets[0].listed && met.sockets[0].authenticated
            && var w := Next(met, Loses(0, true));
               w.sockets == met.sockets && |w.clients| == 2 && w.clients[0].link == Attached(0, 1)
  {
    hide Answered, AfterTransportClosed;
  }

  // The client closes its connection first.

  function Replaced(socket: Socket): Socket {
    socket.(superseded := true, open := false)
  }

  // Lost, closed and connecting again: a new socket is being opened.
  lemma ReturningOpens(
      m: Config, d: Config, p: Primitives, ephemeralM: KeyPair, ephemeralD: KeyPair, clocks: nat -> Clock, secretKey: Bytes)
    requires Meets(m, d) && m.primitives == p
    requires IsPublicKey(ephemeralM.publicKey) && IsPublicKey(ephemeralD.publicKey)
    ensures
      var met := Met(m, d, ephemeralM, ephemeralD, clocks);
      var w := Next(Next(Next(met, Loses(0, false)), Closes(0)), Connect(0, secretKey));
      && w.sockets == met.sockets && w.upstream == met.upstream
      && |w.clients| == 2 && w.clients[1] == met.clients[1]
      && w.clients[0].config == m && w.clients[0].link == Opening
      && Fresh(w.clients[0].conn, MakeKeyPair(p, secretKey))
  {
    hide Answered;
    var helloM, helloD := HelloOf(m, ephemeralM), HelloOf(d, ephemeralD);
    AnswerIsUp(m, ephemeralM, AckFor(helloM, helloD), clocks);
  }

  // A connection that waits for an acknowledgement.
  predicate Fresh(c: Conn, ephemeral: KeyPair) {
    c.ephemeral == Some(ephemeral) && c.sent == [] && c.earlySealed == [] && !c.closeRequested
  }

  lemma ReturningIsAdmitted(w: World, m: Config, d: Config, ephemeralM: KeyPair, ephemeralD: KeyPair, ephemeral: KeyPair,
                            sentM: seq<Frame>, sentD: seq<Frame>)
    requires Meets(m, d) && w.sockets == [HasSaid(m, ephemeralM, sentM), HasSaid(d, ephemeralD, sentD)]
    requires |w.upstream| == 2 && |w.clients| == 2
    requires w.clients[0].config == m && w.clients[0].link == Opening && Fresh(w.clients[0].conn, ephemeral)
    ensures Next(w, Opens(0)) ==
            World([Replaced(HasSaid(m, ephemeralM, sentM)), HasSaid(d, ephemeralD, sentD), Silent(Mobile)],
                  w.upstream + [[Hello(HelloOf(m, ephemeral))]],
                  [Client(m, w.clients[0].conn, Attached(2, 0)), w.clients[1]])
  {
    var c := w.clients[0].conn;
    var w' := Next(w, Opens(0));
    var said := AfterSendHello(c, m);
    assert said.sent == [Hello(HelloOf(m, ephemeral))] && said.(sent := [], closeRequested := false) == c;
    assert w'.sockets == [Replaced(HasSaid(m, ephemeralM, sentM)), HasSaid(d, ephemeralD, sentD), Silent(Mobile)];
    assert w'.upstream == w.upstream + [[Hello(HelloOf(m, ephemeral))]];
    assert w'.clients == [Client(m, c, Attached(2, 0)), w.clients[1]];
  }

  // The room takes the new hello and tells both.
  lemma ReturningIsAnswered(m: Config, d: Config, earlier: Socket, ephemeralD: KeyPair, ephemeral: KeyPair, sentD: seq<Frame>)
    requires Meets(m, d) && IsPublicKey(ephemeralD.publicKey) && IsPublicKey(ephemeral.publicKey)
    requires earlier.role == Mobile && !earlier.open && earlier.authenticated && earlier.hello.Some? && earlier.hello.value.role == Mobile
    ensures
      var helloM, helloD := HelloOf(m, ephemeral), HelloOf(d, ephemeralD);
      AfterLine([earlier, HasSaid(d, ephemeralD, sentD), Silent(Mobile)], 2, LineOf(Hello(helloM))).sockets ==
      [earlier, HasSaid(d, ephemeralD, sentD + [HelloAck(AckFor(helloD, helloM))]),
       HasSaid(m, ephemeral, [HelloAck(AckFor(helloM, helloD))])]
  {
    hide AfterAcknowledgePair, AuthenticatedFrom;
    var helloM := HelloOf(m, ephemeral);
    var before := [earlier, HasSaid(d, ephemeralD, sentD), Silent(Mobile)];
    var registered := [earlier, HasSaid(d, ephemeralD, sentD), HasSaid(m, ephemeral, [])];
    assert before[2 := before[2].(authenticated := true, hello := Some(helloM))] == registered;
    assert AfterLine(before, 2, LineOf(Hello(helloM))).sockets == AfterAcknowledgePair(registered);
    ReturningIsAcknowledged(m, d, earlier, ephemeralD, ephemeral, sentD);
  }

  lemma ReturningIsAcknowledged(m: Config, d: Config, earlier: Socket, ephemeralD: KeyPair, ephemeral: KeyPair, sentD: seq<Frame>)
    requires Meets(m, d) && IsPublicKey(ephemeralD.publicKey) && IsPublicKey(ephemeral.publicKey)
    requires earlier.role == Mobile && !earlier.open && earlier.authenticated && earlier.hello.Some? && earlier.hello.value.role == Mobile
    ensures
      var helloM, helloD := HelloOf(m, ephemeral), HelloOf(d, ephemeralD);
      AfterAcknowledgePair([earlier, HasSaid(d, ephemeralD, sentD), HasSaid(m, ephemeral, [])]) ==
      [earlier, HasSaid(d, ephemeralD, sentD + [HelloAck(AckFor(helloD, helloM))]),
       HasSaid(m, ephemeral, [HelloAck(AckFor(helloM, helloD))])]
  {
    hide AuthenticatedFrom;
    var helloM, helloD := HelloOf(m, ephemeral), HelloOf(d, ephemeralD);
    var registered := [earlier, HasSaid(d, ephemeralD, sentD), HasSaid(m, ephemeral, [])];
    assert IsComplete(helloM) && IsComplete(helloD);
    assert RoomInv(registered);
    OnlyAuthenticated(registered, Mobile, 0, 2);
    OnlyAuthenticated(registered, Desktop, 0, 1);
    assert [] + [HelloAck(AckFor(helloM, helloD))] == [HelloAck(AckFor(helloM, helloD))];
    assert Sent(registered, 2, HelloAck(AckFor(helloM, helloD))) ==
           [earlier, HasSaid(d, ephemeralD, sentD), HasSaid(m, ephemeral, [HelloAck(AckFor(helloM, helloD))])];
  }

  // Both read what they are told; the desktop client, which is still up, takes the new keys.
  lemma ReturningSettles(w: World, m: Config, d: Config, ephemeral: KeyPair, ephemeralD: KeyPair, sentD: seq<Frame>, clocks: nat -> Clock)
    requires Meets(m, d) && IsPublicKey(ephemeralD.publicKey) && IsPublicKey(ephemeral.publicKey)
    requires var helloM, helloD := HelloOf(m, ephemeral), HelloOf(d, ephemeralD);
             && |w.sockets| == 3 && |w.upstream| == 3 && |w.clients| == 2
             && w.sockets[2] == HasSaid(m, ephemeral, [HelloAck(AckFor(helloM, helloD))])
             && w.sockets[1] == HasSaid(d, ephemeralD, sentD + [HelloAck(AckFor(helloD, helloM))])
    requires w.clients[0].config == m && w.clients[0].link == Attached(2, 0) && Fresh(w.clients[0].conn, ephemeral)
    requires w.clients[1].config == d && w.clients[1].link == Attached(1, |sentD|) && Fresh(w.clients[1].conn, ephemeralD)
    requires w.upstream[2] == [] && forall k | 0 <= k < |w.upstream[1]| :: w.upstream[1][k].SealedFrame?
    ensures var w' := Next(Next(w, Reads(0, clocks)), Reads(1, clocks));
            && Settled(w', 0) && Settled(w', 1)
            && |w'.clients| == 2 && w'.clients[0].config == m && w'.clients[1].config == d
  {
    hide AfterFrame;
    var helloM, helloD := HelloOf(m, ephemeral), HelloOf(d, ephemeralD);
    AnswerBringsUp(w.clients[0].conn, m, AckFor(helloM, helloD), clocks);
    AnswerBringsUp(w.clients[1].conn, d, AckFor(helloD, helloM), clocks);
  }

  lemma MetDesktop(m: Config, d: Config, ephemeralM: KeyPair, ephemeralD: KeyPair, clocks: nat -> Clock)
    requires Meets(m, d) && IsPublicKey(ephemeralM.publicKey) && IsPublicKey(ephemeralD.publicKey)
    ensures
      var helloM, helloD := HelloOf(m, ephemeralM), HelloOf(d, ephemeralD);
      var met := Met(m, d, ephemeralM, ephemeralD, clocks);
      && met.sockets == [HasSaid(m, ephemeralM, [HelloAck(AckFor(helloM, helloD))]),
                         HasSaid(d, ephemeralD, [HelloAck(AckFor(helloD, helloM))])]
      && |met.upstream| == 2 && |met.clients| == 2
      && met.clients[1].config == d && met.clients[1].link == Attached(1, 1) && Fresh(met.clients[1].conn, ephemeralD)
      && forall k | 0 <= k < |met.upstream[1]| :: met.upstream[1][k].SealedFrame?
  {
    hide Answered;
    var helloM, helloD := HelloOf(m, ephemeralM), HelloOf(d, ephemeralD);
    AnswerIsUp(d, ephemeralD, AckFor(helloD, helloM), clocks);
  }

  function Returning(secretKey: Bytes, clocks: nat -> Clock): seq<Action> {
    [Loses(0, false), Closes(0), Connect(0, secretKey), Opens(0), Handles(2), Reads(0, clocks), Reads(1, clocks)]
  }

  lemma ReturnsFromMet(
      m: Config, d: Config, p: Primitives, ephemeralM: KeyPair, ephemeralD: KeyPair, clocks: nat -> Clock, secretKey: Bytes)
    requires Meets(m, d) && m.primitives == p && FixedLength(p)
    requires IsPublicKey(ephemeralM.publicKey) && IsPublicKey(ephemeralD.publicKey)
    ensures
      var w := Next(Next(Next(Met(m, d, ephemeralM, ephemeralD, clocks), Loses(0, false)), Closes(0)), Connect(0, secretKey));
      var w' := Next(Next(Next(Next(w, Opens(0)), Handles(2)), Reads(0, clocks)), Reads(1, clocks));
      && Settled(w', 0) && Settled(w', 1)
      && |w'.clients| == 2 && w'.clients[0].config == m && w'.clients[1].config == d
  {
    hide Met, HasSaid, Settled, Silent, AfterLine, ClientStep, Fresh;
    var ephemeral := MakeKeyPair(p, secretKey);
    var met := Met(m, d, ephemeralM, ephemeralD, clocks);
    var w := Next(Next(Next(met, Loses(0, false)), Closes(0)), Connect(0, secretKey));
    MetDesktop(m, d, ephemeralM, ephemeralD, clocks);
    var sentM, sentD := met.sockets[0].sent, met.sockets[1].sent;
    ReturningOpens(m, d, p, ephemeralM, ephemeralD, clocks, secretKey);
    HasSaidSent(m, d, ephemeralM, ephemeralD, AckFor(HelloOf(m, ephemeralM), HelloOf(d, ephemeralD)),
                AckFor(HelloOf(d, ephemeralD), HelloOf(m, ephemeralM)));
    ReturningIsAdmitted(w, m, d, ephemeralM, ephemeralD, ephemeral, sentM, sentD);
    var w4 := Next(w, Opens(0));
    ReplacedShape(m, ephemeralM, sentM);
    ReturningIsAnswered(m, d, w4.sockets[0], ephemeralD, ephemeral, sentD);
    SilentIsListed(Mobile);
    var hello := Hello(HelloOf(m, ephemeral));
    assert w4.upstream[2] == [hello] && [hello][1..] == [];
    var w5 := Next(w4, Handles(2));
    assert w5.clients == w4.clients && w5.upstream == w4.upstream[2 := []];
    ReturningSettles(w5, m, d, ephemeral, ephemeralD, sentD, clocks);
  }

  lemma HasSaidSent(m: Config, d: Config, ephemeralM: KeyPair, ephemeralD: KeyPair, ackM: AckInfo, ackD: AckInfo)
    ensures HasSaid(m, ephemeralM, [HelloAck(ackM)]).sent == [HelloAck(ackM)]
    ensures HasSaid(d, ephemeralD, [HelloAck(ackD)]).sent == [HelloAck(ackD)]
  {
  }

  lemma ReplacedShape(m: Config, ephemeralM: KeyPair, sent: seq<Frame>)
    requires m.role == Mobile
    ensures var earlier := Replaced(HasSaid(m, ephemeralM, sent));
            earlier.role == Mobile && !earlier.open && earlier.authenticated && earlier.hello.Some? && earlier.hello.value.role == Mobile
  {
  }

  lemma SilentIsListed(role: Role)
    ensures Silent(role).listed
  {
  }

  // Both are settled again, so they hold mirrored keys.
  lemma ClosingFirstSettlesAgain(
      m: Config, d: Config, p: Primitives, secretM: Bytes, secretD: Bytes, clocks: nat -> Clock, secretKey: Bytes)
    requires Commutes(p) && FixedLength(p) && Agreement.Configured([m, d], p) && Meets(m, d)
    ensures
      var w := RunClients([m, d], FirstMeeting(secretM, secretD, clocks) + Returning(secretKey, clocks));
      && Settled(w, 0) && Settled(w, 1)
      && w.clients[0].conn.keys.Some? && w.clients[1].conn.keys.Some?
      && Agree(w.clients[0].conn.keys.value, w.clients[1].conn.keys.value)
  {
    hide Next, Met, Settled, RunClients;
    var met := FirstMeeting(secretM, secretD, clocks);
    assert m in [m, d];
    FirstMeetingMeets(m, d, p, secretM, secretD, clocks);
    ReturnsFromMet(m, d, p, MakeKeyPair(p, secretM), MakeKeyPair(p, secretD), clocks, secretKey);
    var three := [Loses(0, false), Closes(0), Connect(0, secretKey)];
    RunFourMore([m, d], met + three, Opens(0), Handles(2), Reads(0, clocks), Reads(1, clocks));
    RunMore([m, d], met, Loses(0, false));
    RunMore([m, d], met + [Loses(0, false)], Closes(0));
    RunMore([m, d], met + [Loses(0, false)] + [Closes(0)], Connect(0, secretKey));
    assert met + [Loses(0, false)] + [Closes(0)] + [Connect(0, secretKey)] == met + three;
    assert met + three + [Opens(0), Handles(2), Reads(0, clocks), Reads(1, clocks)] == met + Returning(secretKey, clocks);
    KeysAgreeInEveryRun([m, d], p, met + Returning(secretKey, clocks), 0, 1);
  }
}
