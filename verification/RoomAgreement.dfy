/**
 Initiating connections on WebSocket transports (packages/remote-control/src/websocket-transport.ts)
 that meet in the deployed relay room, and the key agreement that every run of them keeps.

 A transport holds at most one socket. `Opening` is a socket that is being opened, `Attached` one that
 is open on the client's side, of whose messages the first `read` have been handled; `Gone` is a socket
 that has closed but that the transport still holds. What a client sends travels in `upstream` until
 the room handles it. Sockets without a client are other holders of the room's credentials: they are
 accepted and say whatever they like.

 The room accepts a socket and the client sees it open in one step.
 */
module RoomAgreement {
  import opened Results
  import opened RemoteCrypto
  import opened EventJournal
  import opened RemoteConnection
  import opened FakeRelay
  import opened KeyEffects
  import opened RemotePairRoom
  import opened RoomPairing
  import Pairing = RelayPairing
  import Agreement = KeyAgreement

  datatype Link = Unlinked | Opening | Attached(socket: nat, read: nat) | Gone

  datatype Client = Client(config: Config, conn: Conn, link: Link)

  datatype World = World(sockets: Sockets, upstream: seq<seq<Frame>>, clients: seq<Client>)

  datatype Action =
    | Connect(client: nat, secretKey: Bytes)
    | Opens(client: nat)
    | FailsToOpen(client: nat, late: bool)
    | Reads(client: nat, clocks: nat -> Clock)
    | Sends(client: nat, inner: SessionFrame)
    | Closes(client: nat)
    | Loses(client: nat, kept: bool)
    | Handles(socket: nat)
    | Admits(role: Role)
    | Hears(socket: nat, line: Line)
    | Drops(socket: nat)
    | Breaks(socket: nat)

  // Connections and their transports

  const MAX_CONNECTION_ID := 256

  // `parseRemoteFrame`, as far as a `hello` is concerned.
  predicate Parses(frame: Frame) {
    match frame
    case Malformed => false
    case Hello(hello) =>
      0 < |hello.connectionId| <= MAX_CONNECTION_ID && IsPublicKey(hello.identityKey) && IsPublicKey(hello.ephemeralKey)
    case _ => true
  }

  function LineOf(frame: Frame): Line {
    if Parses(frame) then Parsed(frame) else Unparseable
  }

  function WithClient(w: World, t: nat, conn: Conn, link: Link): World
    requires t < |w.clients|
  {
    w.(clients := w.clients[t := Client(w.clients[t].config, conn, link)])
  }

  function WithUpstream(w: World, s: nat, frames: seq<Frame>): World {
    if s < |w.upstream| then w.(upstream := w.upstream[s := frames]) else w
  }

  function UpstreamOf(w: World, s: nat): seq<Frame> {
    if s < |w.upstream| then w.upstream[s] else []
  }

  // What a handler sent goes out on the attached socket; then the transport is closed if it asked for that.
  function Flushed(w: World, t: nat, c: Conn, link: Link): World
    requires t < |w.clients|
  {
    var left := WithClient(w, t, c.(sent := [], closeRequested := false), if c.closeRequested then Unlinked else link);
    if link.Attached? then WithUpstream(left, link.socket, UpstreamOf(w, link.socket) + c.sent) else left
  }

  // A transport that still holds a socket uses it again: an open one takes another hello, and one that
  // has closed never opens.
  function AfterClientConnect(w: World, t: nat, secretKey: Bytes): World
    requires t < |w.clients|
  {
    var Client(config, conn, link) := w.clients[t];
    var c := AfterConnect(conn, MakeKeyPair(config.primitives, secretKey));
    if !Pairing.MayConnect(conn.state) then w
    else match link
      case Unlinked => WithClient(w, t, c, Opening)
      case Attached(_, _) => Flushed(w, t, AfterSendHello(c, config), link)
      case _ => WithClient(w, t, c, link)
  }

  function AfterOpening(w: World, t: nat): World
    requires t < |w.clients|
  {
    var Client(config, conn, link) := w.clients[t];
    if !link.Opening? then w
    else
      var admitted := w.(sockets := AfterAccept(w.sockets, config.role), upstream := w.upstream + [[]]);
      Flushed(admitted, t, AfterSendHello(conn, config), Attached(|w.sockets|, 0))
  }

  function AfterRead(w: World, t: nat, clocks: nat -> Clock): World
    requires t < |w.clients|
  {
    var Client(config, conn, link) := w.clients[t];
    if link.Attached? && link.socket < |w.sockets| && link.read < |w.sockets[link.socket].sent|
    then Flushed(w, t, AfterFrame(conn, config, w.sockets[link.socket].sent[link.read], clocks), link.(read := link.read + 1))
    else w
  }

  // An attempt to connect is rejected: the one whose socket is opening, or a `late` one, which the client
  // had given up by closing; that may come at any time and leaves the present socket alone.
  function AfterFailedOpening(w: World, t: nat, late: bool): World
    requires t < |w.clients|
  {
    var Client(_, conn, link) := w.clients[t];
    if late then WithClient(w, t, InState(conn, Failed), link)
    else if link.Opening? then WithClient(w, t, InState(conn, Failed), Gone)
    else w
  }

  // The close handler runs, for the socket of the transport or for one it held before (`kept`).
  function AfterLoss(w: World, t: nat, kept: bool): World
    requires t < |w.clients|
  {
    var Client(_, conn, link) := w.clients[t];
    WithClient(w, t, AfterTransportClosed(conn), if kept || link.Unlinked? then link else Gone)
  }

  function ClientStep(w: World, action: Action): World
    requires !action.Handles? && !action.Admits? && !action.Hears? && !action.Drops? && !action.Breaks?
  {
    var t := action.client;
    if t >= |w.clients| then w
    else match action
      case Connect(_, secretKey) => AfterClientConnect(w, t, secretKey)
      case Opens(_) => AfterOpening(w, t)
      case FailsToOpen(_, late) => AfterFailedOpening(w, t, late)
      case Reads(_, clocks) => AfterRead(w, t, clocks)
      case Sends(_, inner) => Flushed(w, t, SentSealed(w.clients[t].conn, inner), w.clients[t].link)
      case Closes(_) => Flushed(w, t, AfterClose(w.clients[t].conn), w.clients[t].link)
      case Loses(_, kept) => AfterLoss(w, t, kept)
  }

  // The room

  predicate IsAttached(w: World, s: nat) {
    exists t | 0 <= t < |w.clients| :: w.clients[t].link.Attached? && w.clients[t].link.socket == s
  }

  function AfterHandling(w: World, s: nat): World {
    if s >= |w.sockets| || UpstreamOf(w, s) == [] then w
    else
      var popped := WithUpstream(w, s, UpstreamOf(w, s)[1..]);
      if !w.sockets[s].listed then popped
      else popped.(sockets := AfterLine(w.sockets, s, LineOf(UpstreamOf(w, s)[0])).sockets)
  }

  function RoomStep(w: World, action: Action): World
    requires action.Handles? || action.Admits? || action.Hears? || action.Drops? || action.Breaks?
  {
    match action
    case Handles(s) => AfterHandling(w, s)
    case Admits(role) => w.(sockets := AfterAccept(w.sockets, role), upstream := w.upstream + [[]])
    case Hears(s, line) =>
      if s < |w.sockets| && w.sockets[s].listed && !IsAttached(w, s) && WellFormed(line)
      then w.(sockets := AfterLine(w.sockets, s, line).sockets) else w
    case Drops(s) =>
      if s < |w.sockets| && w.sockets[s].listed then w.(sockets := AfterSocketClose(w.sockets, s)) else w
    case Breaks(s) =>
      if s < |w.sockets| && w.sockets[s].listed then w.(sockets := Rejected(w.sockets, s)) else w
  }

  function Next(w: World, action: Action): World {
    if action.Handles? || action.Admits? || action.Hears? || action.Drops? || action.Breaks?
    then RoomStep(w, action) else ClientStep(w, action)
  }

  function Start(configs: seq<Config>): World {
    World([], [], seq(|configs|, i requires 0 <= i < |configs| => Client(configs[i], NewConn(0, EMPTY_HISTORY, []), Unlinked)))
  }

  function RunClients(configs: seq<Config>, actions: seq<Action>): World {
    if actions == [] then Start(configs)
    else Next(RunClients(configs, actions[..|actions| - 1]), actions[|actions| - 1])
  }

  // Hellos on the way

  function LastHello(frames: seq<Frame>): Option<HelloInfo> {
    if frames == [] then None
    else if frames[|frames| - 1].Hello? then Some(frames[|frames| - 1].hello)
    else LastHello(frames[..|frames| - 1])
  }

  lemma {:induction false} PoppedHello(frames: seq<Frame>)
    requires frames != []
    ensures LastHello(frames) == if LastHello(frames[1..]).Some? then LastHello(frames[1..])
                                 else if frames[0].Hello? then Some(frames[0].hello) else None
    decreases |frames|
  {
    if |frames| > 1 {
      var init := frames[..|frames| - 1];
      assert frames[1..][..|frames| - 2] == init[1..];
      PoppedHello(init);
    }
  }

  lemma {:induction false} SealedSaysNoHello(frames: seq<Frame>, more: seq<Frame>)
    requires AllSealed(more)
    ensures LastHello(frames + more) == LastHello(frames)
    decreases |more|
  {
    if more == [] {
      assert frames + more == frames;
    } else {
      var init := more[..|more| - 1];
      assert more[|more| - 1] in more;
      assert (frames + more)[..|frames + more| - 1] == frames + init;
      SealedSaysNoHello(frames, init);
    }
  }

  // Invariants

  function Holder(client: Client): Pairing.Party {
    Pairing.Party(client.config, client.conn, 0)
  }

  ghost predicate ClientFits(client: Client, p: Primitives) {
    && client.config.primitives == p
    && client.config.handshake == Initiate
    && Matching(p, client.config.identity)
    && client.conn.sent == [] && !client.conn.closeRequested
    && (client.conn.ephemeral.Some? ==> Matching(p, client.conn.ephemeral.value))
    && TransportFits(client)
  }

  // Only on an open socket does a client hold keys, let alone is it up. A connection that was closed
  // holds no socket, and one without a socket may connect.
  predicate TransportFits(client: Client) {
    && (Up(client.conn) ==> client.conn.keys.Some?)
    && (client.conn.keys.Some? ==> client.link.Attached?)
    && (client.link.Attached? || client.link.Opening? ==> client.conn.ephemeral.Some?)
    && (client.conn.state == Closed ==> client.link.Unlinked?)
    && (client.link.Unlinked? ==> Pairing.MayConnect(client.conn.state))
  }

  ghost predicate HellosFrom(frames: seq<Frame>, config: Config) {
    forall f | f in frames :: f.Hello? ==> f.hello.connectionId == config.connectionId
  }

  // Of an attached client: the room has, or will have, its latest hello or none; and if it holds keys, its
  // socket has said hello, and when the last it was told is an acknowledgement the keys come from that.
  ghost predicate Linked(client: Client, socket: Socket, upstream: seq<Frame>)
    requires client.link.Attached?
  {
    && client.conn.ephemeral.Some?
    && client.link.read <= |socket.sent|
    && socket.role == client.config.role
    && HellosFrom(upstream, client.config)
    && (socket.hello.Some? ==> socket.hello.value.connectionId == client.config.connectionId)
    && var latest := HelloOf(client.config, client.conn.ephemeral.value);
       && (match LastHello(upstream)
           case Some(hello) => hello == latest
           case None => socket.open && socket.hello.Some? ==> socket.hello.value == latest)
       && (client.conn.keys.Some? ==>
             && socket.hello.Some?
             && match Pairing.LastWord(socket.sent[..client.link.read])
                case Some(HelloAck(ack)) => Pairing.DerivedFrom(Holder(client), ack.peerIdentityKey, ack.peerEphemeralKey)
                case _ => true)
  }

  ghost predicate LinkFits(w: World, t: nat)
    requires t < |w.clients|
  {
    var link := w.clients[t].link;
    link.Attached? ==>
      link.socket < |w.sockets| && link.socket < |w.upstream|
      && Linked(w.clients[t], w.sockets[link.socket], w.upstream[link.socket])
  }

  ghost predicate Apart(clients: seq<Client>) {
    forall t, u | 0 <= t < u < |clients| :: clients[t].link.Attached? && clients[u].link.Attached? ==>
      clients[t].link.socket != clients[u].link.socket
  }

  ghost predicate Inv(w: World, p: Primitives) {
    && PairInv(w.sockets)
    && |w.upstream| == |w.sockets|
    && (forall t | 0 <= t < |w.clients| :: ClientFits(w.clients[t], p))
    && (forall t | 0 <= t < |w.clients| :: LinkFits(w, t))
    && Apart(w.clients)
  }

  // One client changes

  // The client `t` changes, its socket's upstream with it, and nothing else.
  lemma ClientKeepsInv(w: World, p: Primitives, t: nat, client': Client, upstream': seq<seq<Frame>>)
    requires Inv(w, p) && t < |w.clients| && ClientFits(client', p)
    requires |upstream'| == |w.upstream|
    requires client'.link.Attached? ==>
               && w.clients[t].link.Attached? && client'.link.socket == w.clients[t].link.socket
               && client'.link.socket < |w.sockets|
               && Linked(client', w.sockets[client'.link.socket], upstream'[client'.link.socket])
    requires forall s | 0 <= s < |w.upstream| ::
               (w.clients[t].link.Attached? && s == w.clients[t].link.socket) || upstream'[s] == w.upstream[s]
    ensures Inv(w.(clients := w.clients[t := client'], upstream := upstream'), p)
  {
    hide PairInv, Linked, ClientFits;
    var w' := w.(clients := w.clients[t := client'], upstream := upstream');
    forall u | 0 <= u < |w'.clients|
      ensures ClientFits(w'.clients[u], p) && LinkFits(w', u)
    {
      assert ClientFits(w.clients[u], p) && LinkFits(w, u);
    }
  }

  lemma FlushingKeepsInv(w: World, p: Primitives, t: nat, c: Conn, link: Link)
    requires Inv(w, p) && t < |w.clients|
    requires link.Attached? <==> w.clients[t].link.Attached?
    requires link.Attached? ==> link.socket == w.clients[t].link.socket
    requires var client' := Client(w.clients[t].config, c.(sent := [], closeRequested := false),
                                   if c.closeRequested then Unlinked else link);
             && ClientFits(client', p)
             && (client'.link.Attached? ==>
                   && link.socket < |w.sockets|
                   && Linked(client', w.sockets[link.socket], UpstreamOf(w, link.socket) + c.sent))
    ensures Inv(Flushed(w, t, c, link), p)
  {
    hide PairInv, Linked, HellosFrom, ClientFits;
    var c' := c.(sent := [], closeRequested := false);
    var client' := Client(w.clients[t].config, c', if c.closeRequested then Unlinked else link);
    var upstream' := if link.Attached? && link.socket < |w.upstream|
                     then w.upstream[link.socket := UpstreamOf(w, link.socket) + c.sent] else w.upstream;
    ClientKeepsInv(w, p, t, client', upstream');
    assert Flushed(w, t, c, link) == w.(clients := w.clients[t := client'], upstream := upstream');
  }

  // A client that keeps or drops its keys keeps its place as long as its last hello stays the latest.
  lemma KeysKeptLinked(client: Client, socket: Socket, upstream: seq<Frame>, client': Client)
    requires client.link.Attached? && Linked(client, socket, upstream) && client'.config == client.config
    requires client'.link == client.link && client'.conn.ephemeral == client.conn.ephemeral
    requires client'.conn.keys.Some? ==> client'.conn.keys == client.conn.keys
    ensures Linked(client', socket, upstream)
  {
    hide DeriveSessionKeys;
  }

  lemma SealedKeepsLinked(client: Client, socket: Socket, upstream: seq<Frame>, more: seq<Frame>)
    requires client.link.Attached? && Linked(client, socket, upstream) && AllSealed(more)
    ensures Linked(client, socket, upstream + more)
  {
    SealedSaysNoHello(upstream, more);
  }

  lemma HelloMakesLinked(client: Client, socket: Socket, upstream: seq<Frame>)
    requires client.link.Attached? && client.conn.ephemeral.Some? && client.conn.keys.None?
    requires client.link.read <= |socket.sent| && socket.role == client.config.role && HellosFrom(upstream, client.config)
    requires socket.hello.Some? ==> socket.hello.value.connectionId == client.config.connectionId
    ensures Linked(client, socket, upstream + [Hello(HelloOf(client.config, client.conn.ephemeral.value))])
  {
  }

  // Reading one frame makes it the last word read.
  lemma ReadingKeepsLinked(client: Client, socket: Socket, upstream: seq<Frame>, clocks: nat -> Clock)
    requires client.link.Attached? && Linked(client, socket, upstream) && TransportFits(client)
    requires client.config.handshake == Initiate && client.conn.sent == []
    requires SocketFits(socket) && client.link.read < |socket.sent|
    ensures var c := AfterFrame(client.conn, client.config, socket.sent[client.link.read], clocks);
            var client' := Client(client.config, c.(sent := [], closeRequested := false),
                                  Attached(client.link.socket, client.link.read + 1));
            Linked(client', socket, upstream + c.sent)
  {
    hide AfterFrame, Pairing.LastWord, DeriveSessionKeys, HellosFrom;
    var read := client.link.read;
    var frame := socket.sent[read];
    var c := AfterFrame(client.conn, client.config, frame, clocks);
    assert frame in socket.sent;
    FrameKeepsOrDrops(client.conn, client.config, frame, clocks);
    assert c.sent[0..] == c.sent;
    assert socket.sent[..read + 1] == socket.sent[..read] + [frame];
    Pairing.AppendedWord(socket.sent[..read], frame, []);
    var client' := Client(client.config, c.(sent := [], closeRequested := false), Attached(client.link.socket, read + 1));
    assert Linked(client', socket, upstream);
    SealedKeepsLinked(client', socket, upstream, c.sent);
  }

  lemma ReadingKeepsFits(client: Client, frame: Frame, p: Primitives, clocks: nat -> Clock, link: Link)
    requires ClientFits(client, p) && client.link.Attached? && link.Attached? && FromRelay(frame)
    ensures var c := AfterFrame(client.conn, client.config, frame, clocks);
            ClientFits(Client(client.config, c.(sent := [], closeRequested := false), if c.closeRequested then Unlinked else link), p)
  {
    hide AfterFrame, DeriveSessionKeys, AcceptsAck;
    FrameKeepsOrDrops(client.conn, client.config, frame, clocks);
    KeyedFits(client.conn, client.config, frame);
  }

  lemma KeyedFits(c: Conn, config: Config, frame: Frame)
    ensures frame.HelloAck? && AcceptsAck(c, config, frame.ack) ==>
              var keyed := Keyed(c, config, frame.ack);
              keyed.ephemeral == c.ephemeral && keyed.state == c.state && keyed.closeRequested == c.closeRequested
  {
  }

  lemma ReadKeepsInv(w: World, p: Primitives, t: nat, clocks: nat -> Clock)
    requires Inv(w, p) && t < |w.clients|
    ensures Inv(AfterRead(w, t, clocks), p)
  {
    hide PairInv, Linked, AfterFrame, Flushed;
    var client := w.clients[t];
    var link := client.link;
    if link.Attached? && link.socket < |w.sockets| && link.read < |w.sockets[link.socket].sent| {
      assert LinkFits(w, t) && ClientFits(client, p);
      var socket := w.sockets[link.socket];
      assert SocketFits(socket) by { SocketsFit(w.sockets, link.socket); }
      assert socket.sent[link.read] in socket.sent;
      ReadingKeepsLinked(client, socket, w.upstream[link.socket], clocks);
      ReadingKeepsFits(client, socket.sent[link.read], p, clocks, link.(read := link.read + 1));
      var c := AfterFrame(client.conn, client.config, socket.sent[link.read], clocks);
      FlushingKeepsInv(w, p, t, c, link.(read := link.read + 1));
    }
  }

  lemma SocketsFit(sockets: Sockets, s: nat)
    requires PairInv(sockets) && s < |sockets|
    ensures SocketFits(sockets[s])
  {
  }

  lemma ConnectKeepsInv(w: World, p: Primitives, t: nat, secretKey: Bytes)
    requires Inv(w, p) && t < |w.clients|
    ensures Inv(AfterClientConnect(w, t, secretKey), p)
  {
    hide PairInv, Linked, HellosFrom;
    var client := w.clients[t];
    assert ClientFits(client, p) && LinkFits(w, t);
    if Pairing.MayConnect(client.conn.state) {
      var c := AfterConnect(client.conn, MakeKeyPair(p, secretKey));
      if client.link.Attached? {
        var s := client.link.socket;
        LinkedBasics(client, w.sockets[s], w.upstream[s]);
        HelloMakesLinked(Client(client.config, c, client.link), w.sockets[s], w.upstream[s]);
        var c' := AfterSendHello(c, client.config);
        assert c'.(sent := [], closeRequested := false) == c;
        assert c'.sent == [Hello(HelloOf(client.config, c.ephemeral.value))];
        FlushingKeepsInv(w, p, t, c', client.link);
      } else {
        var link := if client.link.Unlinked? then Opening else client.link;
        ClientKeepsInv(w, p, t, Client(client.config, c, link), w.upstream);
      }
    }
  }

  lemma LinkedBasics(client: Client, socket: Socket, upstream: seq<Frame>)
    requires client.link.Attached? && Linked(client, socket, upstream)
    ensures client.link.read <= |socket.sent| && socket.role == client.config.role && HellosFrom(upstream, client.config)
    ensures socket.hello.Some? ==> socket.hello.value.connectionId == client.config.connectionId
  {
  }

  // A client that keeps or drops its keys, with or without its socket.
  lemma DroppingKeepsInv(w: World, p: Primitives, t: nat, conn': Conn, link': Link)
    requires Inv(w, p) && t < |w.clients|
    requires ClientFits(Client(w.clients[t].config, conn', link'), p)
    requires conn'.ephemeral == w.clients[t].conn.ephemeral
    requires conn'.keys.Some? ==> conn'.keys == w.clients[t].conn.keys
    requires link' == w.clients[t].link || link' == Gone
    ensures Inv(WithClient(w, t, conn', link'), p)
  {
    hide PairInv, Linked, ClientFits;
    var client := w.clients[t];
    assert LinkFits(w, t);
    var client' := Client(client.config, conn', link');
    if link'.Attached? {
      KeysKeptLinked(client, w.sockets[link'.socket], w.upstream[link'.socket], client');
    }
    ClientKeepsInv(w, p, t, client', w.upstream);
  }

  lemma FailingKeepsInv(w: World, p: Primitives, t: nat, late: bool)
    requires Inv(w, p) && t < |w.clients|
    ensures Inv(AfterFailedOpening(w, t, late), p)
  {
    hide PairInv, Linked, LinkFits, WithClient;
    var client := w.clients[t];
    assert ClientFits(client, p);
    if late {
      DroppingKeepsInv(w, p, t, InState(client.conn, Failed), client.link);
    } else if client.link.Opening? {
      DroppingKeepsInv(w, p, t, InState(client.conn, Failed), Gone);
    }
  }

  lemma LosingKeepsInv(w: World, p: Primitives, t: nat, kept: bool)
    requires Inv(w, p) && t < |w.clients|
    ensures Inv(AfterLoss(w, t, kept), p)
  {
    hide PairInv, Linked, LinkFits, WithClient;
    var client := w.clients[t];
    assert ClientFits(client, p);
    DroppingKeepsInv(w, p, t, AfterTransportClosed(client.conn), if kept || client.link.Unlinked? then client.link else Gone);
  }

  lemma ClosesKeepsInv(w: World, p: Primitives, t: nat)
    requires Inv(w, p) && t < |w.clients|
    ensures Inv(Flushed(w, t, AfterClose(w.clients[t].conn), w.clients[t].link), p)
  {
    hide PairInv, Linked, LinkFits;
    assert ClientFits(w.clients[t], p);
    FlushingKeepsInv(w, p, t, AfterClose(w.clients[t].conn), w.clients[t].link);
  }

  lemma SendsKeepsInv(w: World, p: Primitives, t: nat, inner: SessionFrame)
    requires Inv(w, p) && t < |w.clients|
    ensures Inv(Flushed(w, t, SentSealed(w.clients[t].conn, inner), w.clients[t].link), p)
  {
    hide PairInv, Linked;
    var client := w.clients[t];
    assert ClientFits(client, p) && LinkFits(w, t);
    var c := SentSealed(client.conn, inner);
    assert Client(client.config, c.(sent := [], closeRequested := false), client.link) == client;
    if client.link.Attached? {
      var s := client.link.socket;
      SealedKeepsLinked(client, w.sockets[s], w.upstream[s], c.sent);
    }
    FlushingKeepsInv(w, p, t, c, client.link);
  }

  // The sockets change

  // A socket keeps its role and its hello, is not reopened, and is only sent more.
  ghost predicate Extends(before: Socket, after: Socket) {
    && after.role == before.role && after.hello == before.hello
    && (after.open ==> before.open)
    && before.sent <= after.sent
  }

  ghost predicate Grows(before: Sockets, after: Sockets) {
    |before| <= |after| && forall k | 0 <= k < |before| :: Extends(before[k], after[k])
  }

  lemma GrowsTransitive(a: Sockets, b: Sockets, c: Sockets)
    requires Grows(a, b) && Grows(b, c)
    ensures Grows(a, c)
  {
    forall k | 0 <= k < |a|
      ensures Extends(a[k], c[k])
    {
      assert Extends(a[k], b[k]) && Extends(b[k], c[k]);
    }
  }

  lemma AcknowledgeGrows(sockets: Sockets)
    ensures Grows(sockets, AfterAcknowledgePair(sockets))
  {
  }

  lemma ForwardGrows(sockets: Sockets, i: nat, frame: Frame)
    requires i < |sockets|
    ensures Grows(sockets, AfterForward(sockets, i, frame))
  {
  }

  lemma {:induction false} AllSentGrows(sockets: Sockets, to: seq<nat>, frame: Frame)
    requires forall n | 0 <= n < |to| :: to[n] < |sockets|
    ensures Grows(sockets, AllSent(sockets, to, frame))
    decreases |to|
  {
    if to != [] {
      AllSentGrows(Sent(sockets, to[0], frame), to[1..], frame);
      GrowsTransitive(sockets, Sent(sockets, to[0], frame), AllSent(sockets, to, frame));
    }
  }

  lemma CloseGrows(sockets: Sockets, i: nat)
    requires i < |sockets|
    ensures Grows(sockets, AfterSocketClose(sockets, i)) && |AfterSocketClose(sockets, i)| == |sockets|
  {
    var gone := sockets[i := sockets[i].(open := false, listed := false)];
    AllSentGrows(gone, Authenticated(gone, Opposite(sockets[i].role)), PeerStatus(false));
    assert Grows(sockets, gone);
    GrowsTransitive(sockets, gone, AllSent(gone, Authenticated(gone, Opposite(sockets[i].role)), PeerStatus(false)));
  }

  // What one line does to the socket it came from, and to the others.
  lemma LineGrows(sockets: Sockets, i: nat, line: Line)
    requires RoomInv(sockets) && i < |sockets|
    ensures
      var after := AfterLine(sockets, i, line).sockets;
      && (forall k | 0 <= k < |sockets| && k != i :: Extends(sockets[k], after[k]))
      && Extends(sockets[i], after[i].(hello := sockets[i].hello))
      && (!(line.Parsed? && line.frame.Hello?) ==> after[i].hello == sockets[i].hello)
      && (line.Parsed? && line.frame.Hello? && after[i].open ==>
            sockets[i].hello.None? && after[i].hello == Some(line.frame.hello))
      && (after[i].hello != sockets[i].hello ==> line.Parsed? && line.frame.Hello? && after[i].hello == Some(line.frame.hello))
  {
    hide AfterAcknowledgePair, AfterForward;
    if line.Parsed? && !sockets[i].authenticated && line.frame.Hello? && line.frame.hello.role == sockets[i].role {
      var registered := Registered(sockets, i, line.frame.hello);
      AcknowledgeGrows(registered);
      var after := AfterAcknowledgePair(registered);
      assert forall k | 0 <= k < |sockets| :: Extends(registered[k], after[k]);
    } else if line.Parsed? && sockets[i].authenticated && line.frame.SealedFrame? {
      ForwardGrows(sockets, i, line.frame);
    }
  }

  lemma ExtendsKeepsLinked(client: Client, socket: Socket, upstream: seq<Frame>, socket': Socket)
    requires client.link.Attached? && Linked(client, socket, upstream) && Extends(socket, socket')
    ensures Linked(client, socket', upstream)
  {
    assert socket'.sent[..client.link.read] == socket.sent[..client.link.read];
  }

  lemma GrowingKeepsInv(w: World, p: Primitives, sockets': Sockets, more: seq<seq<Frame>>)
    requires Inv(w, p) && PairInv(sockets') && Grows(w.sockets, sockets') && |sockets'| == |w.sockets| + |more|
    ensures Inv(w.(sockets := sockets', upstream := w.upstream + more), p)
  {
    hide PairInv, Linked, ClientFits, Extends;
    var w' := w.(sockets := sockets', upstream := w.upstream + more);
    forall t | 0 <= t < |w'.clients|
      ensures LinkFits(w', t)
    {
      assert LinkFits(w, t);
      var link := w.clients[t].link;
      if link.Attached? {
        assert Extends(w.sockets[link.socket], sockets'[link.socket]);
        ExtendsKeepsLinked(w.clients[t], w.sockets[link.socket], w.upstream[link.socket], sockets'[link.socket]);
      }
    }
  }

  // The room handles the head of `upstream`: a first hello is remembered, another closes the socket.
  lemma HandlingKeepsLinked(client: Client, socket: Socket, upstream: seq<Frame>, socket': Socket)
    requires client.link.Attached? && Linked(client, socket, upstream) && upstream != []
    requires Extends(socket, socket'.(hello := socket.hello))
    requires !upstream[0].Hello? ==> socket'.hello == socket.hello
    requires upstream[0].Hello? && socket'.open ==> socket.hello.None? && socket'.hello == Some(upstream[0].hello)
    requires socket'.hello != socket.hello ==> upstream[0].Hello? && socket'.hello == Some(upstream[0].hello)
    ensures Linked(client, socket', upstream[1..])
  {
    assert socket'.sent[..client.link.read] == socket.sent[..client.link.read];
    assert upstream[0] in upstream;
    PoppedHello(upstream);
  }

  lemma PoppingKeepsInv(w: World, p: Primitives, s: nat, sockets': Sockets)
    requires Inv(w, p) && s < |w.sockets| && UpstreamOf(w, s) != []
    requires PairInv(sockets') && |sockets'| == |w.sockets|
    requires forall k | 0 <= k < |w.sockets| && k != s :: Extends(w.sockets[k], sockets'[k])
    requires var head := w.upstream[s][0];
             && Extends(w.sockets[s], sockets'[s].(hello := w.sockets[s].hello))
             && (!head.Hello? ==> sockets'[s].hello == w.sockets[s].hello)
             && (head.Hello? && sockets'[s].open ==> w.sockets[s].hello.None? && sockets'[s].hello == Some(head.hello))
             && (sockets'[s].hello != w.sockets[s].hello ==> head.Hello? && sockets'[s].hello == Some(head.hello))
    ensures Inv(WithUpstream(w, s, UpstreamOf(w, s)[1..]).(sockets := sockets'), p)
  {
    hide PairInv, Linked, ClientFits, Extends;
    var w' := WithUpstream(w, s, UpstreamOf(w, s)[1..]).(sockets := sockets');
    forall t | 0 <= t < |w'.clients|
      ensures LinkFits(w', t)
    {
      assert LinkFits(w, t);
      var link := w.clients[t].link;
      if link.Attached? {
        if link.socket == s {
          HandlingKeepsLinked(w.clients[t], w.sockets[s], w.upstream[s], sockets'[s]);
        } else {
          ExtendsKeepsLinked(w.clients[t], w.sockets[link.socket], w.upstream[link.socket], sockets'[link.socket]);
        }
      }
    }
  }

  lemma HandlesKeepsInv(w: World, p: Primitives, s: nat)
    requires Inv(w, p)
    ensures Inv(AfterHandling(w, s), p)
  {
    hide PairInv, Linked, ClientFits, Extends, AfterLine;
    if s < |w.sockets| && UpstreamOf(w, s) != [] {
      var head := w.upstream[s][0];
      RoomOf(w.sockets);
      if w.sockets[s].listed {
        assert WellFormed(LineOf(head));
        LineGrows(w.sockets, s, LineOf(head));
        LineKeepsPairInv(w.sockets, s, LineOf(head));
        UnparsedHello(w.sockets, s, head);
        PoppingKeepsInv(w, p, s, AfterLine(w.sockets, s, LineOf(head)).sockets);
      } else {
        forall k | 0 <= k < |w.sockets|
          ensures Extends(w.sockets[k], w.sockets[k])
        {
          ExtendsItself(w.sockets[k]);
        }
        assert w.sockets[s].(hello := w.sockets[s].hello) == w.sockets[s];
        OpenIsListed(w.sockets, s);
        PoppingKeepsInv(w, p, s, w.sockets);
      }
    }
  }

  // A `hello` that does not parse closes the socket.
  lemma UnparsedHello(sockets: Sockets, s: nat, frame: Frame)
    requires s < |sockets|
    ensures LineOf(frame) == Unparseable ==> !AfterLine(sockets, s, LineOf(frame)).sockets[s].open
    ensures LineOf(frame) == Unparseable || LineOf(frame) == Parsed(frame)
  {
  }

  lemma ExtendsItself(socket: Socket)
    ensures Extends(socket, socket)
  {
  }

  lemma OpenIsListed(sockets: Sockets, s: nat)
    requires RoomInv(sockets) && s < |sockets|
    ensures sockets[s].open ==> sockets[s].listed
  {
  }

  lemma AcceptGrows(sockets: Sockets, role: Role)
    ensures Grows(sockets, AfterAccept(sockets, role))
  {
  }

  lemma AdmitsKeepsInv(w: World, p: Primitives, role: Role)
    requires Inv(w, p)
    ensures Inv(w.(sockets := AfterAccept(w.sockets, role), upstream := w.upstream + [[]]), p)
  {
    hide PairInv, Grows;
    AcceptKeepsPairInv(w.sockets, role);
    AcceptGrows(w.sockets, role);
    GrowingKeepsInv(w, p, AfterAccept(w.sockets, role), [[]]);
  }

  // A client that has just been admitted has said nothing but its hello.
  lemma AttachingKeepsInv(w: World, p: Primitives, t: nat, s: nat)
    requires Inv(w, p) && t < |w.clients| && w.clients[t].link.Opening?
    requires s < |w.sockets| && w.sockets[s].role == w.clients[t].config.role && w.sockets[s].hello.None?
    requires w.upstream[s] == [] && !IsAttached(w, s)
    ensures Inv(Flushed(w, t, AfterSendHello(w.clients[t].conn, w.clients[t].config), Attached(s, 0)), p)
  {
    hide PairInv;
    var client := w.clients[t];
    assert ClientFits(client, p);
    var c := AfterSendHello(client.conn, client.config);
    var client' := Client(client.config, client.conn, Attached(s, 0));
    assert c.(sent := [], closeRequested := false) == client.conn;
    assert c.sent == [Hello(HelloOf(client.config, client.conn.ephemeral.value))];
    HelloMakesLinked(client', w.sockets[s], []);
    assert [] + c.sent == c.sent;
    var w' := Flushed(w, t, c, Attached(s, 0));
    assert w'.clients == w.clients[t := client'] && w'.upstream == w.upstream[s := c.sent];
    forall u | 0 <= u < |w'.clients|
      ensures ClientFits(w'.clients[u], p) && LinkFits(w', u)
    {
      assert ClientFits(w.clients[u], p) && LinkFits(w, u);
    }
  }

  lemma OpensKeepsInv(w: World, p: Primitives, t: nat)
    requires Inv(w, p) && t < |w.clients|
    ensures Inv(AfterOpening(w, t), p)
  {
    hide PairInv, Linked, ClientFits, Flushed;
    var client := w.clients[t];
    if client.link.Opening? {
      var admitted := w.(sockets := AfterAccept(w.sockets, client.config.role), upstream := w.upstream + [[]]);
      AdmitsKeepsInv(w, p, client.config.role);
      assert !IsAttached(admitted, |w.sockets|) by {
        forall u | 0 <= u < |w.clients| && w.clients[u].link.Attached?
          ensures w.clients[u].link.socket != |w.sockets|
        {
          assert LinkFits(w, u);
        }
      }
      AttachingKeepsInv(admitted, p, t, |w.sockets|);
    }
  }

  lemma HearsKeepsInv(w: World, p: Primitives, s: nat, line: Line)
    requires Inv(w, p) && s < |w.sockets| && WellFormed(line) && !IsAttached(w, s)
    ensures Inv(w.(sockets := AfterLine(w.sockets, s, line).sockets), p)
  {
    hide PairInv, Linked, ClientFits, Extends, AfterLine, WellFormed;
    var sockets' := AfterLine(w.sockets, s, line).sockets;
    RoomOf(w.sockets);
    LineGrows(w.sockets, s, line);
    LineKeepsPairInv(w.sockets, s, line);
    var w' := w.(sockets := sockets');
    forall t | 0 <= t < |w'.clients|
      ensures LinkFits(w', t)
    {
      assert LinkFits(w, t);
      var link := w.clients[t].link;
      if link.Attached? {
        assert link.socket != s;
        ExtendsKeepsLinked(w.clients[t], w.sockets[link.socket], w.upstream[link.socket], sockets'[link.socket]);
      }
    }
  }

  lemma SocketsKeepInv(w: World, p: Primitives, sockets': Sockets)
    requires Inv(w, p) && PairInv(sockets') && Grows(w.sockets, sockets') && |sockets'| == |w.sockets|
    ensures Inv(w.(sockets := sockets'), p)
  {
    hide PairInv, Grows;
    assert w.upstream + [] == w.upstream;
    GrowingKeepsInv(w, p, sockets', []);
  }

  lemma RoomStepKeepsInv(w: World, p: Primitives, action: Action)
    requires Inv(w, p)
    requires action.Handles? || action.Admits? || action.Hears? || action.Drops? || action.Breaks?
    ensures Inv(RoomStep(w, action), p)
  {
    hide PairInv, LinkFits, ClientFits, AfterLine, AfterSocketClose, WellFormed;
    match action
    case Handles(s) => HandlesKeepsInv(w, p, s);
    case Admits(role) => AdmitsKeepsInv(w, p, role);
    case Hears(s, line) =>
      if s < |w.sockets| && w.sockets[s].listed && !IsAttached(w, s) && WellFormed(line) {
        HearsKeepsInv(w, p, s, line);
      }
    case Drops(s) =>
      if s < |w.sockets| && w.sockets[s].listed {
        CloseKeepsPairInv(w.sockets, s);
        CloseGrows(w.sockets, s);
        SocketsKeepInv(w, p, AfterSocketClose(w.sockets, s));
      }
    case Breaks(s) =>
      if s < |w.sockets| && w.sockets[s].listed {
        RejectKeepsPairInv(w.sockets, s);
        SocketsKeepInv(w, p, Rejected(w.sockets, s));
      }
  }

  lemma ClientStepKeepsInv(w: World, p: Primitives, action: Action)
    requires Inv(w, p)
    requires !action.Handles? && !action.Admits? && !action.Hears? && !action.Drops? && !action.Breaks?
    ensures Inv(ClientStep(w, action), p)
  {
    hide PairInv, LinkFits, ClientFits, AfterRead, AfterOpening, AfterClientConnect, Flushed, AfterLoss, AfterFailedOpening;
    var t := action.client;
    if t < |w.clients| {
      match action
      case Connect(_, secretKey) => ConnectKeepsInv(w, p, t, secretKey);
      case Opens(_) => OpensKeepsInv(w, p, t);
      case FailsToOpen(_, late) => FailingKeepsInv(w, p, t, late);
      case Reads(_, clocks) => ReadKeepsInv(w, p, t, clocks);
      case Sends(_, inner) => SendsKeepsInv(w, p, t, inner);
      case Closes(_) => ClosesKeepsInv(w, p, t);
      case Loses(_, kept) => LosingKeepsInv(w, p, t, kept);
    }
  }

  lemma {:induction false} RunKeepsInv(configs: seq<Config>, p: Primitives, actions: seq<Action>)
    requires Agreement.Configured(configs, p)
    ensures Inv(RunClients(configs, actions), p)
    decreases |actions|
  {
    hide PairInv, Next;
    if actions == [] {
      EmptyIsPairInv();
      var w := Start(configs);
      forall t | 0 <= t < |w.clients|
        ensures ClientFits(w.clients[t], p)
      {
        assert configs[t] in configs;
        assert w.clients[t] == Client(configs[t], NewConn(0, EMPTY_HISTORY, []), Unlinked);
      }
    } else {
      var w, action := RunClients(configs, actions[..|actions| - 1]), actions[|actions| - 1];
      RunKeepsInv(configs, p, actions[..|actions| - 1]);
      NextKeepsInv(w, p, action);
    }
  }

  // Every step keeps the pairing right, whatever the clients, the room, the network and other holders
  // of the room's credentials do.
  lemma NextKeepsInv(w: World, p: Primitives, action: Action)
    requires Inv(w, p)
    ensures Inv(Next(w, action), p)
  {
    hide Inv, RoomStep, ClientStep;
    if action.Handles? || action.Admits? || action.Hears? || action.Drops? || action.Breaks? {
      RoomStepKeepsInv(w, p, action);
    } else {
      ClientStepKeepsInv(w, p, action);
    }
  }

  // Agreement

  // The client is up on a socket that the room has open; its hello has been handled, and everything
  // sent to it has been read except, perhaps, sealed frames.
  predicate Settled(w: World, t: nat) {
    && t < |w.clients| && w.clients[t].link.Attached? && Up(w.clients[t].conn)
    && var link := w.clients[t].link;
       && link.socket < |w.sockets| && link.read <= |w.sockets[link.socket].sent|
       && w.sockets[link.socket].open
       && (forall k | link.read <= k < |w.sockets[link.socket].sent| :: w.sockets[link.socket].sent[k].SealedFrame?)
       && (forall k | 0 <= k < |UpstreamOf(w, link.socket)| :: UpstreamOf(w, link.socket)[k].SealedFrame?)
  }

  lemma {:induction false} SealedSaysNothing(frames: seq<Frame>, read: nat)
    requires read <= |frames| && forall k | read <= k < |frames| :: frames[k].SealedFrame?
    ensures Pairing.LastWord(frames) == Pairing.LastWord(frames[..read])
    decreases |frames|
  {
    if read == |frames| {
      assert frames[..read] == frames;
    } else {
      var init := frames[..|frames| - 1];
      SealedSaysNothing(init, read);
      assert init[..read] == frames[..read];
    }
  }

  lemma {:induction false} NoHello(frames: seq<Frame>)
    requires forall k | 0 <= k < |frames| :: frames[k].SealedFrame?
    ensures LastHello(frames) == None
    decreases |frames|
  {
    if frames != [] {
      NoHello(frames[..|frames| - 1]);
    }
  }

  // A settled client has said its latest hello, and its keys come from the last word to its socket.
  lemma SettledIsKeyed(w: World, p: Primitives, t: nat)
    requires Inv(w, p) && Settled(w, t)
    ensures var client, socket := w.clients[t], w.sockets[w.clients[t].link.socket];
            && ClientFits(client, p) && client.conn.ephemeral.Some?
            && socket.role == client.config.role
            && socket.hello == Some(HelloOf(client.config, client.conn.ephemeral.value))
            && match Pairing.LastWord(socket.sent)
               case Some(HelloAck(ack)) => Pairing.DerivedFrom(Holder(client), ack.peerIdentityKey, ack.peerEphemeralKey)
               case _ => true
  {
    hide Pairing.DerivedFrom;
    var client := w.clients[t];
    var s := client.link.socket;
    var socket := w.sockets[s];
    assert LinkFits(w, t) && ClientFits(client, p);
    SealedSaysNothing(socket.sent, client.link.read);
    NoHello(UpstreamOf(w, s));
    SocketsFit(w.sockets, s);
    LastWordIsSent(socket.sent);
  }

  lemma {:induction false} LastWordIsSent(frames: seq<Frame>)
    ensures Pairing.LastWord(frames).Some? ==> Pairing.LastWord(frames).value in frames
    decreases |frames|
  {
    if frames != [] {
      LastWordIsSent(frames[..|frames| - 1]);
    }
  }

  // In every run, a mobile and a desktop client that are both settled hold mirrored keys: each can open
  // what the other seals. Either may have reconnected with a new ephemeral key any number of times, been
  // replaced, rejected or closed, and others may have taken their places in between.
  lemma KeysAgreeInEveryRun(configs: seq<Config>, p: Primitives, actions: seq<Action>, m: nat, d: nat)
    requires Agreement.Configured(configs, p) && Commutes(p)
    requires var w := RunClients(configs, actions);
             && Settled(w, m) && w.clients[m].config.role == Mobile
             && Settled(w, d) && w.clients[d].config.role == Desktop
    ensures var w := RunClients(configs, actions);
            && w.clients[m].conn.keys.Some? && w.clients[d].conn.keys.Some?
            && Agree(w.clients[m].conn.keys.value, w.clients[d].conn.keys.value)
  {
    hide RunClients, Settled, DeriveSessionKeys;
    var w := RunClients(configs, actions);
    RunKeepsInv(configs, p, actions);
    SettledIsOpen(w, m);
    SettledIsOpen(w, d);
    SettledIsKeyed(w, p, m);
    SettledIsKeyed(w, p, d);
    var sm, sd := w.clients[m].link.socket, w.clients[d].link.socket;
    assert Faces(w.sockets, sm, sd) && Faces(w.sockets, sd, sm);
    var mobile, desktop := w.clients[m], w.clients[d];
    DerivedKeysAgree(p, mobile.config.identity, mobile.conn.ephemeral.value,
                     desktop.config.identity, desktop.conn.ephemeral.value);
  }

  lemma SettledIsOpen(w: World, t: nat)
    requires Settled(w, t)
    ensures t < |w.clients| && w.clients[t].link.Attached?
    ensures w.clients[t].link.socket < |w.sockets| && w.sockets[w.clients[t].link.socket].open
  {
  }
}
