/**
 Connecting again over a WebSocket transport: when a client gets a new socket, and when its hello gets
 through to the deployed relay room.
 */
module RoomReconnect {
  import opened Results
  import opened RemoteCrypto
  import opened EventJournal
  import opened RemoteConnection
  import opened FakeRelay
  import opened KeyEffects
  import opened RemotePairRoom
  import opened RoomPairing
  import opened RoomAgreement
  import Pairing = RelayPairing
  import Agreement = KeyAgreement

  predicate Connects(action: Action, t: nat) {
    action.Connect? && action.client == t
  }

  predicate NoConnect(actions: seq<Action>, t: nat) {
    forall k | 0 <= k < |actions| :: !Connects(actions[k], t)
  }

  // In every run only a client on an open socket is up or holds keys, and a connection that was closed
  // holds no socket.
  lemma OnlyAttachedHoldKeys(configs: seq<Config>, p: Primitives, actions: seq<Action>, t: nat)
    requires Agreement.Configured(configs, p) && t < |RunClients(configs, actions).clients|
    ensures var client := RunClients(configs, actions).clients[t];
            && (Up(client.conn) || client.conn.keys.Some? ==> client.link.Attached?)
            && (client.conn.state == Closed ==> client.link.Unlinked?)
            && (client.link.Unlinked? ==> Pairing.MayConnect(client.conn.state))
  {
    RunKeepsInv(configs, p, actions);
    assert ClientFits(RunClients(configs, actions).clients[t], p);
  }

  // New sockets

  // The client's transport creates a socket.
  predicate GetsSocket(w: World, action: Action, t: nat) {
    && Connects(action, t) && t < |w.clients|
    && w.clients[t].link != Opening && Next(w, action).clients[t].link == Opening
  }

  // In every run, connecting creates a socket exactly if the transport holds none.
  lemma GetsSocketExactly(configs: seq<Config>, p: Primitives, actions: seq<Action>, t: nat, secretKey: Bytes)
    requires Agreement.Configured(configs, p) && t < |RunClients(configs, actions).clients|
    ensures GetsSocket(RunClients(configs, actions), Connect(t, secretKey), t)
            <==> RunClients(configs, actions).clients[t].link.Unlinked?
  {
    hide AfterSendHello, AfterConnect;
    OnlyAttachedHoldKeys(configs, p, actions, t);
  }

  lemma RoomKeepsClients(w: World, action: Action)
    requires action.Handles? || action.Admits? || action.Hears? || action.Drops? || action.Breaks?
    ensures RoomStep(w, action).clients == w.clients
  {
    hide AfterLine, AfterSocketClose, AfterAccept;
  }

  lemma OthersKept(w: World, t: nat, action: Action)
    requires !action.Handles? && !action.Admits? && !action.Hears? && !action.Drops? && !action.Breaks?
    requires t < |w.clients| && action.client != t
    ensures t < |ClientStep(w, action).clients| && ClientStep(w, action).clients[t] == w.clients[t]
  {
    hide AfterAccept, AfterFrame, AfterConnect, AfterClose, AfterTransportClosed, SentSealed, AfterSendHello, InState;
  }

  // What one action can do to the socket of a client.
  predicate LinkMoves(before: Client, after: Client, action: Action, t: nat) {
    match before.link
    case Unlinked => after.link == if Connects(action, t) && Pairing.MayConnect(before.conn.state) then Opening else Unlinked
    case Opening => true
    case Attached(s, _) => (after.link.Attached? && after.link.socket == s) || after.link == Gone || after.link == Unlinked
    case Gone => after.link == if action == Closes(t) && before.conn.state != Closed then Unlinked else Gone
  }

  lemma OwnLinkMoves(w: World, t: nat, action: Action)
    requires !action.Handles? && !action.Admits? && !action.Hears? && !action.Drops? && !action.Breaks?
    requires t < |w.clients| && action.client == t && !w.clients[t].conn.closeRequested
    ensures t < |ClientStep(w, action).clients| && LinkMoves(w.clients[t], ClientStep(w, action).clients[t], action, t)
  {
    hide AfterAccept, AfterFrame;
  }

  lemma NextLinkMoves(w: World, p: Primitives, t: nat, action: Action)
    requires Inv(w, p) && t < |w.clients|
    ensures t < |Next(w, action).clients| && LinkMoves(w.clients[t], Next(w, action).clients[t], action, t)
  {
    hide RoomStep, ClientStep;
    assert ClientFits(w.clients[t], p);
    if action.Handles? || action.Admits? || action.Hears? || action.Drops? || action.Breaks? {
      RoomKeepsClients(w, action);
    } else if action.client != t {
      OthersKept(w, t, action);
    } else {
      OwnLinkMoves(w, t, action);
    }
  }

  lemma RunMore(configs: seq<Config>, actions: seq<Action>, action: Action)
    ensures RunClients(configs, actions + [action]) == Next(RunClients(configs, actions), action)
  {
    assert (actions + [action])[..|actions|] == actions;
  }

  // One more action of a longer run.
  lemma RunStep(configs: seq<Config>, actions: seq<Action>, more: seq<Action>)
    requires more != []
    ensures RunClients(configs, actions + more) ==
            Next(RunClients(configs, actions + more[..|more| - 1]), more[|more| - 1])
  {
    hide RunClients, Next;
    RunMore(configs, actions + more[..|more| - 1], more[|more| - 1]);
    assert actions + more == actions + more[..|more| - 1] + [more[|more| - 1]];
  }

  // A client that lost its socket stays down, however often it connects, until it closes its connection:
  // the transport keeps the socket that is gone and waits for it to open.
  lemma {:induction false} LostUntilClosed(configs: seq<Config>, p: Primitives, actions: seq<Action>, t: nat, more: seq<Action>)
    requires Agreement.Configured(configs, p)
    requires var w := RunClients(configs, actions); t < |w.clients| && w.clients[t].link == Gone
    requires forall k | 0 <= k < |more| :: more[k] != Closes(t)
    ensures var w := RunClients(configs, actions + more);
            t < |w.clients| && w.clients[t].link == Gone && !Up(w.clients[t].conn) && w.clients[t].conn.keys.None?
    decreases |more|
  {
    hide Next, Inv;
    if more == [] {
      assert actions + more == actions;
    } else {
      var init := more[..|more| - 1];
      LostUntilClosed(configs, p, actions, t, init);
      RunKeepsInv(configs, p, actions + init);
      NextLinkMoves(RunClients(configs, actions + init), p, t, more[|more| - 1]);
      RunStep(configs, actions, more);
    }
    OnlyAttachedHoldKeys(configs, p, actions + more, t);
  }

  lemma {:induction false} UnlinkedUntilConnect(configs: seq<Config>, p: Primitives, actions: seq<Action>, t: nat, more: seq<Action>)
    requires Agreement.Configured(configs, p) && NoConnect(more, t)
    requires var w := RunClients(configs, actions); t < |w.clients| && w.clients[t].link == Unlinked
    ensures var w := RunClients(configs, actions + more); t < |w.clients| && w.clients[t].link == Unlinked
    decreases |more|
  {
    hide Next, Inv;
    if more == [] {
      assert actions + more == actions;
    } else {
      var init := more[..|more| - 1];
      UnlinkedUntilConnect(configs, p, actions, t, init);
      RunKeepsInv(configs, p, actions + init);
      NextLinkMoves(RunClients(configs, actions + init), p, t, more[|more| - 1]);
      RunStep(configs, actions, more);
    }
  }

  lemma FirstClose(more: seq<Action>, t: nat) returns (j: nat)
    ensures j <= |more| && forall k | 0 <= k < j :: more[k] != Closes(t)
    ensures j < |more| ==> more[j] == Closes(t)
  {
    j := 0;
    while j < |more| && more[j] != Closes(t)
      invariant j <= |more| && forall k | 0 <= k < j :: more[k] != Closes(t)
    {
      j := j + 1;
    }
  }

  lemma FirstConnect(more: seq<Action>, t: nat, start: nat) returns (i: nat)
    requires start <= |more|
    ensures start <= i <= |more| && NoConnect(more[start..i], t)
    ensures i < |more| ==> Connects(more[i], t)
  {
    i := start;
    while i < |more| && !Connects(more[i], t)
      invariant start <= i <= |more| && forall k | start <= k < i :: !Connects(more[k], t)
    {
      i := i + 1;
    }
  }

  // Up to and including the first close no socket is created, and none without a connect.
  lemma NoSocketBeforeClose(configs: seq<Config>, p: Primitives, actions: seq<Action>, t: nat, more: seq<Action>, i: nat)
    requires Agreement.Configured(configs, p) && i < |more|
    requires var w := RunClients(configs, actions); t < |w.clients| && w.clients[t].link == Gone
    requires (forall k | 0 <= k < i :: more[k] != Closes(t)) || !Connects(more[i], t)
    ensures !GetsSocket(RunClients(configs, actions + more[..i]), more[i], t)
  {
    hide Next, GetsSocket, RunClients;
    OnlyConnectsGetSockets(RunClients(configs, actions + more[..i]), more[i], t);
    if Connects(more[i], t) {
      LostUntilClosed(configs, p, actions, t, more[..i]);
      LostGetsNoSocket(configs, p, actions + more[..i], more[i], t);
    }
  }

  // The first connect after a close creates one.
  lemma SocketAfterClose(configs: seq<Config>, p: Primitives, actions: seq<Action>, t: nat, more: seq<Action>, j: nat, i: nat)
    requires Agreement.Configured(configs, p) && j < i < |more| && Connects(more[i], t) && NoConnect(more[j + 1..i], t)
    requires var w := RunClients(configs, actions + more[..j + 1]); t < |w.clients| && w.clients[t].link == Unlinked
    ensures GetsSocket(RunClients(configs, actions + more[..i]), more[i], t)
  {
    hide Next, GetsSocket, RunClients;
    UnlinkedUntilConnect(configs, p, actions + more[..j + 1], t, more[j + 1..i]);
    assert more[..i] == more[..j + 1] + more[j + 1..i];
    assert actions + more[..j + 1] + more[j + 1..i] == actions + more[..i];
    GetsSocketExactly(configs, p, actions + more[..i], t, more[i].secretKey);
    assert more[i] == Connect(t, more[i].secretKey);
  }

  // After a loss and whatever follows it, the client has got a new socket exactly if it closed its
  // connection and connected again after that.
  lemma GetsSocketAfterLossExactly(configs: seq<Config>, p: Primitives, actions: seq<Action>, t: nat, more: seq<Action>)
    requires Agreement.Configured(configs, p)
    requires var w := RunClients(configs, actions); t < |w.clients| && w.clients[t].link == Gone
    ensures (exists i | 0 <= i < |more| :: GetsSocket(RunClients(configs, actions + more[..i]), more[i], t))
       <==> exists j, i | 0 <= j < i < |more| :: more[j] == Closes(t) && Connects(more[i], t)
  {
    hide Next, GetsSocket, RunClients, Connects;
    var j := FirstClose(more, t);
    if j == |more| {
      forall i | 0 <= i < |more|
        ensures !GetsSocket(RunClients(configs, actions + more[..i]), more[i], t)
      {
        NoSocketBeforeClose(configs, p, actions, t, more, i);
      }
    } else {
      CloseLetsGo(configs, p, actions, t, more, j);
      var i := FirstConnect(more, t, j + 1);
      if i < |more| {
        SocketAfterClose(configs, p, actions, t, more, j, i);
      } else {
        forall k | 0 <= k < |more|
          ensures !GetsSocket(RunClients(configs, actions + more[..k]), more[k], t)
          ensures j < k ==> !Connects(more[k], t)
        {
          if j < k {
            assert more[j + 1..i][k - j - 1] == more[k];
          }
          NoSocketBeforeClose(configs, p, actions, t, more, k);
        }
      }
    }
  }

  lemma LostGetsNoSocket(configs: seq<Config>, p: Primitives, actions: seq<Action>, action: Action, t: nat)
    requires Agreement.Configured(configs, p)
    requires var w := RunClients(configs, actions); t < |w.clients| && w.clients[t].link == Gone
    ensures !GetsSocket(RunClients(configs, actions), action, t)
  {
    hide Next, Inv;
    RunKeepsInv(configs, p, actions);
    NextLinkMoves(RunClients(configs, actions), p, t, action);
  }

  lemma OnlyConnectsGetSockets(w: World, action: Action, t: nat)
    ensures GetsSocket(w, action, t) ==> Connects(action, t)
  {
  }

  lemma CloseLetsGo(configs: seq<Config>, p: Primitives, actions: seq<Action>, t: nat, more: seq<Action>, j: nat)
    requires Agreement.Configured(configs, p) && j < |more| && more[j] == Closes(t)
    requires var w := RunClients(configs, actions); t < |w.clients| && w.clients[t].link == Gone
    requires forall k | 0 <= k < j :: more[k] != Closes(t)
    ensures var w := RunClients(configs, actions + more[..j + 1]); t < |w.clients| && w.clients[t].link == Unlinked
  {
    hide Next, Inv, RunClients;
    LostUntilClosed(configs, p, actions, t, more[..j]);
    OnlyAttachedHoldKeys(configs, p, actions + more[..j], t);
    RunKeepsInv(configs, p, actions + more[..j]);
    NextLinkMoves(RunClients(configs, actions + more[..j]), p, t, more[j]);
    RunMore(configs, actions + more[..j], more[j]);
    assert more[..j + 1] == more[..j] + [more[j]];
    assert actions + more[..j + 1] == actions + more[..j] + [more[j]];
  }

  // How many hellos a socket has said or is about to say

  function Hellos(frames: seq<Frame>): nat {
    if frames == [] then 0 else (if frames[0].Hello? then 1 else 0) + Hellos(frames[1..])
  }

  lemma {:induction false} HellosJoined(a: seq<Frame>, b: seq<Frame>)
    ensures Hellos(a + b) == Hellos(a) + Hellos(b)
    decreases |a|
  {
    if a == [] {
      assert a + b == b;
    } else {
      assert (a + b)[1..] == a[1..] + b;
      HellosJoined(a[1..], b);
    }
  }

  lemma {:induction false} HellosAndLast(frames: seq<Frame>)
    ensures LastHello(frames).None? <==> Hellos(frames) == 0
    decreases |frames|
  {
    if frames != [] {
      HellosAndLast(frames[1..]);
      PoppedHello(frames);
    }
  }

  // As long as the room has the socket open, at least `n` hellos on it were taken or are on their way.
  predicate Announced(w: World, s: nat, n: nat) {
    s < |w.sockets| &&
    (w.sockets[s].open ==> (if w.sockets[s].hello.Some? then 1 else 0) + Hellos(UpstreamOf(w, s)) >= n)
  }

  lemma FlushingAnnounces(w: World, t: nat, c: Conn, link: Link, s: nat)
    requires t < |w.clients|
    ensures var w' := Flushed(w, t, c, link);
            && w'.sockets == w.sockets
            && UpstreamOf(w', s) == if link.Attached? && link.socket == s && s < |w.upstream|
                                    then UpstreamOf(w, s) + c.sent else UpstreamOf(w, s)
  {
  }

  lemma FlushingKeepsAnnounced(w: World, t: nat, c: Conn, link: Link, s: nat, n: nat)
    requires t < |w.clients| && Announced(w, s, n)
    ensures Announced(Flushed(w, t, c, link), s, n)
  {
    hide Flushed, Hellos, UpstreamOf;
    FlushingAnnounces(w, t, c, link, s);
    HellosJoined(UpstreamOf(w, s), c.sent);
  }

  lemma AdmittingKeepsAnnounced(w: World, role: Role, s: nat, n: nat)
    requires |w.upstream| == |w.sockets| && Announced(w, s, n)
    ensures Announced(w.(sockets := AfterAccept(w.sockets, role), upstream := w.upstream + [[]]), s, n)
  {
    hide Hellos;
    AcceptGrows(w.sockets, role);
    assert Extends(w.sockets[s], AfterAccept(w.sockets, role)[s]);
  }

  lemma ClientKeepsAnnounced(w: World, action: Action, s: nat, n: nat)
    requires !action.Handles? && !action.Admits? && !action.Hears? && !action.Drops? && !action.Breaks?
    requires |w.upstream| == |w.sockets| && Announced(w, s, n)
    ensures Announced(ClientStep(w, action), s, n)
  {
    hide Flushed, Announced, AfterFrame, AfterSendHello, AfterConnect, AfterAccept, AfterClose, SentSealed;
    var t := action.client;
    if t < |w.clients| {
      var Client(config, conn, link) := w.clients[t];
      match action
      case Connect(_, secretKey) =>
        var c := AfterConnect(conn, MakeKeyPair(config.primitives, secretKey));
        FlushingKeepsAnnounced(w, t, AfterSendHello(c, config), link, s, n);
        PlaceKeepsAnnounced(w, t, c, Opening, s, n);
        PlaceKeepsAnnounced(w, t, c, link, s, n);
      case Opens(_) =>
        if link.Opening? {
          AdmittingKeepsAnnounced(w, config.role, s, n);
          var admitted := w.(sockets := AfterAccept(w.sockets, config.role), upstream := w.upstream + [[]]);
          FlushingKeepsAnnounced(admitted, t, AfterSendHello(conn, config), Attached(|w.sockets|, 0), s, n);
        }
      case FailsToOpen(_, _) =>
        PlaceKeepsAnnounced(w, t, InState(conn, Failed), link, s, n);
        PlaceKeepsAnnounced(w, t, InState(conn, Failed), Gone, s, n);
      case Reads(_, clocks) =>
        if link.Attached? && link.socket < |w.sockets| && link.read < |w.sockets[link.socket].sent| {
          var c := AfterFrame(conn, config, w.sockets[link.socket].sent[link.read], clocks);
          FlushingKeepsAnnounced(w, t, c, link.(read := link.read + 1), s, n);
        }
      case Sends(_, inner) => FlushingKeepsAnnounced(w, t, SentSealed(conn, inner), link, s, n);
      case Closes(_) => FlushingKeepsAnnounced(w, t, AfterClose(conn), link, s, n);
      case Loses(_, kept) =>
        PlaceKeepsAnnounced(w, t, AfterTransportClosed(conn), if kept || link.Unlinked? then link else Gone, s, n);
    }
  }

  lemma PlaceKeepsAnnounced(w: World, t: nat, c: Conn, link: Link, s: nat, n: nat)
    requires t < |w.clients| && Announced(w, s, n)
    ensures Announced(WithClient(w, t, c, link), s, n)
  {
  }

  // The room takes a first hello from the way to the socket's state, and closes the socket on another.
  lemma HandlingKeepsAnnounced(w: World, h: nat, s: nat, n: nat)
    requires RoomInv(w.sockets) && |w.upstream| == |w.sockets| && Announced(w, s, n)
    ensures Announced(AfterHandling(w, h), s, n)
  {
    hide AfterLine;
    if h < |w.sockets| && UpstreamOf(w, h) != [] {
      OpenIsListed(w.sockets, h);
      LineGrows(w.sockets, h, LineOf(UpstreamOf(w, h)[0]));
      UnparsedHello(w.sockets, h, UpstreamOf(w, h)[0]);
    }
  }

  lemma HearingKeepsAnnounced(w: World, h: nat, line: Line, s: nat, n: nat)
    requires RoomInv(w.sockets) && h < |w.sockets| && Announced(w, s, n)
    ensures Announced(w.(sockets := AfterLine(w.sockets, h, line).sockets), s, n)
  {
    hide AfterLine, Hellos;
    LineGrows(w.sockets, h, line);
  }

  lemma RoomKeepsAnnounced(w: World, action: Action, s: nat, n: nat)
    requires action.Handles? || action.Admits? || action.Hears? || action.Drops? || action.Breaks?
    requires RoomInv(w.sockets) && |w.upstream| == |w.sockets| && Announced(w, s, n)
    ensures Announced(RoomStep(w, action), s, n)
  {
    hide AfterLine, AfterHandling, AfterSocketClose, AfterAccept, Hellos;
    match action
    case Handles(h) => HandlingKeepsAnnounced(w, h, s, n);
    case Admits(role) => AdmittingKeepsAnnounced(w, role, s, n);
    case Hears(h, line) =>
      if h < |w.sockets| {
        HearingKeepsAnnounced(w, h, line, s, n);
      }
    case Drops(h) =>
      if h < |w.sockets| {
        CloseGrows(w.sockets, h);
        assert Extends(w.sockets[s], AfterSocketClose(w.sockets, h)[s]);
      }
    case Breaks(_) =>
  }

  lemma NextKeepsAnnounced(w: World, p: Primitives, action: Action, s: nat, n: nat)
    requires Inv(w, p) && Announced(w, s, n)
    ensures Announced(Next(w, action), s, n)
  {
    hide RoomStep, ClientStep, Announced;
    RoomOf(w.sockets);
    if action.Handles? || action.Admits? || action.Hears? || action.Drops? || action.Breaks? {
      RoomKeepsAnnounced(w, action, s, n);
    } else {
      ClientKeepsAnnounced(w, action, s, n);
    }
  }

  // Every attached client has said hello on its socket, or is about to.
  ghost predicate AllAnnounced(w: World) {
    forall t | 0 <= t < |w.clients| && w.clients[t].link.Attached? :: Announced(w, w.clients[t].link.socket, 1)
  }

  lemma OpeningAnnounces(w: World, p: Primitives, t: nat)
    requires Inv(w, p) && t < |w.clients| && w.clients[t].link.Opening?
    ensures Announced(AfterOpening(w, t), |w.sockets|, 1)
  {
    hide Flushed, AfterAccept, PairInv;
    var Client(config, conn, _) := w.clients[t];
    assert ClientFits(w.clients[t], p);
    var s := |w.sockets|;
    var admitted := w.(sockets := AfterAccept(w.sockets, config.role), upstream := w.upstream + [[]]);
    assert |admitted.sockets| == s + 1 by { AcceptedLast(w.sockets, config.role); }
    FlushingAnnounces(admitted, t, AfterSendHello(conn, config), Attached(s, 0), s);
    var hello := Hello(HelloOf(config, conn.ephemeral.value));
    assert AfterSendHello(conn, config).sent == [hello];
    assert [] + [hello] == [hello] && [hello][1..] == [];
    assert Hellos([hello]) == 1;
  }

  lemma AcceptedLast(sockets: Sockets, role: Role)
    ensures |AfterAccept(sockets, role)| == |sockets| + 1
    ensures AfterAccept(sockets, role)[|sockets|] == Socket(role, true, true, false, false, None, [])
  {
  }

  lemma NextKeepsAllAnnounced(w: World, p: Primitives, action: Action)
    requires Inv(w, p) && AllAnnounced(w)
    ensures AllAnnounced(Next(w, action))
  {
    hide Next, Inv, Announced;
    var w' := Next(w, action);
    forall t | 0 <= t < |w'.clients| && w'.clients[t].link.Attached?
      ensures Announced(w', w'.clients[t].link.socket, 1)
    {
      ClientsStay(w, action);
      NextLinkMoves(w, p, t, action);
      if w.clients[t].link.Attached? {
        NextKeepsAnnounced(w, p, action, w.clients[t].link.socket, 1);
      } else {
        OnlyOpensAttaches(w, t, action);
        OpeningAnnounces(w, p, t);
      }
    }
  }

  lemma ClientsStay(w: World, action: Action)
    ensures |Next(w, action).clients| == |w.clients|
  {
    hide AfterLine, AfterSocketClose, AfterAccept, AfterFrame;
  }

  lemma OnlyOpensAttaches(w: World, t: nat, action: Action)
    requires t < |w.clients| && !w.clients[t].link.Attached?
    requires t < |Next(w, action).clients| && Next(w, action).clients[t].link.Attached?
    ensures action == Opens(t) && w.clients[t].link.Opening?
    ensures Next(w, action) == AfterOpening(w, t)
    ensures Next(w, action).clients[t].link.socket == |w.sockets|
  {
    hide AfterLine, AfterSocketClose, AfterAccept, AfterFrame, AfterSendHello;
    if action.Handles? || action.Admits? || action.Hears? || action.Drops? || action.Breaks? {
      RoomKeepsClients(w, action);
    } else if action.client != t {
      OthersKept(w, t, action);
    }
  }

  lemma {:induction false} RunIsAnnounced(configs: seq<Config>, p: Primitives, actions: seq<Action>)
    requires Agreement.Configured(configs, p)
    ensures AllAnnounced(RunClients(configs, actions))
    decreases |actions|
  {
    hide Next, Inv, AllAnnounced;
    if actions == [] {
      NobodyAttached(configs);
    } else {
      RunIsAnnounced(configs, p, actions[..|actions| - 1]);
      RunKeepsInv(configs, p, actions[..|actions| - 1]);
      NextKeepsAllAnnounced(RunClients(configs, actions[..|actions| - 1]), p, actions[|actions| - 1]);
    }
  }

  lemma NobodyAttached(configs: seq<Config>)
    ensures AllAnnounced(Start(configs))
  {
  }

  // Getting through

  // The room has taken the latest hello of the client and holds its socket open.
  predicate GetsThrough(w: World, t: nat) {
    && t < |w.clients| && w.clients[t].link.Attached?
    && var s := w.clients[t].link.socket;
       s < |w.sockets| && w.sockets[s].open && w.sockets[s].hello.Some? && LastHello(UpstreamOf(w, s)).None?
  }

  // That it is the latest one.
  lemma ThroughIsLatest(configs: seq<Config>, p: Primitives, actions: seq<Action>, t: nat)
    requires Agreement.Configured(configs, p) && GetsThrough(RunClients(configs, actions), t)
    ensures var w := RunClients(configs, actions);
            var client := w.clients[t];
            client.conn.ephemeral.Some?
            && w.sockets[client.link.socket].hello == Some(HelloOf(client.config, client.conn.ephemeral.value))
  {
    var w := RunClients(configs, actions);
    RunKeepsInv(configs, p, actions);
    assert LinkFits(w, t);
  }

  // No socket, or one on which a second hello is on its way or was said.
  predicate Stuck(w: World, t: nat, s: nat) {
    t < |w.clients| &&
    match w.clients[t].link
    case Opening => false
    case Attached(socket, _) => socket == s && Announced(w, s, 2)
    case _ => true
  }

  lemma StuckIsNotThrough(w: World, t: nat, s: nat)
    requires Stuck(w, t, s)
    ensures !GetsThrough(w, t)
  {
    hide Hellos, LastHello;
    HellosAndLast(UpstreamOf(w, s));
  }

  lemma NextKeepsStuck(w: World, p: Primitives, action: Action, t: nat, s: nat)
    requires Inv(w, p) && Stuck(w, t, s) && !Connects(action, t)
    ensures Stuck(Next(w, action), t, s)
  {
    hide Next, Inv, Announced;
    NextLinkMoves(w, p, t, action);
    if w.clients[t].link.Attached? {
      NextKeepsAnnounced(w, p, action, s, 2);
    }
  }

  lemma {:induction false} StuckUntilConnect(
      configs: seq<Config>, p: Primitives, actions: seq<Action>, t: nat, s: nat, more: seq<Action>)
    requires Agreement.Configured(configs, p) && NoConnect(more, t) && Stuck(RunClients(configs, actions), t, s)
    ensures Stuck(RunClients(configs, actions + more), t, s)
    decreases |more|
  {
    hide Next, Inv, Stuck;
    if more == [] {
      assert actions + more == actions;
    } else {
      var init := more[..|more| - 1];
      StuckUntilConnect(configs, p, actions, t, s, init);
      RunKeepsInv(configs, p, actions + init);
      NextKeepsStuck(RunClients(configs, actions + init), p, more[|more| - 1], t, s);
      RunStep(configs, actions, more);
    }
  }

  // On a socket that is open a second hello goes out.
  lemma ConnectingAgainIsStuck(w: World, p: Primitives, t: nat, secretKey: Bytes)
    requires Inv(w, p) && AllAnnounced(w) && t < |w.clients| && Pairing.MayConnect(w.clients[t].conn.state)
    requires w.clients[t].link.Attached?
    ensures Stuck(Next(w, Connect(t, secretKey)), t, w.clients[t].link.socket)
  {
    hide Flushed, PairInv, Hellos, Linked;
    var Client(config, conn, link) := w.clients[t];
    var s := link.socket;
    assert ClientFits(w.clients[t], p) && LinkFits(w, t) && Announced(w, s, 1);
    var c := AfterConnect(conn, MakeKeyPair(config.primitives, secretKey));
    var said := AfterSendHello(c, config);
    var hello := Hello(HelloOf(config, c.ephemeral.value));
    assert said.sent == [hello] && !said.closeRequested;
    FlushingAnnounces(w, t, said, link, s);
    HellosJoined(UpstreamOf(w, s), [hello]);
    OneHello(hello);
    FlushedClient(w, t, said, link);
  }

  lemma OneHello(hello: Frame)
    requires hello.Hello?
    ensures Hellos([hello]) == 1
  {
    assert [hello][1..] == [];
  }

  lemma FlushedClient(w: World, t: nat, c: Conn, link: Link)
    requires t < |w.clients|
    ensures |Flushed(w, t, c, link).clients| == |w.clients|
    ensures Flushed(w, t, c, link).clients[t].link == if c.closeRequested then Unlinked else link
  {
  }

  predicate Speaks(config: Config) {
    0 < |config.connectionId| <= MAX_CONNECTION_ID && IsPublicKey(config.identity.publicKey)
  }

  // A client whose socket is opening gets through once it has opened and the room has read its hello.
  lemma OpeningGetsThrough(w: World, p: Primitives, t: nat)
    requires Inv(w, p) && FixedLength(p) && t < |w.clients| && w.clients[t].link.Opening? && Speaks(w.clients[t].config)
    ensures GetsThrough(Next(Next(w, Opens(t)), Handles(|w.sockets|)), t)
  {
    hide Flushed, AfterAccept, PairInv, AfterLine;
    var Client(config, conn, _) := w.clients[t];
    assert ClientFits(w.clients[t], p);
    var s := |w.sockets|;
    AcceptedLast(w.sockets, config.role);
    var admitted := w.(sockets := AfterAccept(w.sockets, config.role), upstream := w.upstream + [[]]);
    var said := AfterSendHello(conn, config);
    var hello := Hello(HelloOf(config, conn.ephemeral.value));
    assert said.sent == [hello] && !said.closeRequested;
    FlushingAnnounces(admitted, t, said, Attached(s, 0), s);
    FlushedClient(admitted, t, said, Attached(s, 0));
    assert [] + [hello] == [hello] && [hello][1..] == [];
    var w1 := Next(w, Opens(t));
    assert UpstreamOf(w1, s) == [hello] && |w1.upstream| > s;
    FirstHelloTaken(w1.sockets, s, hello);
    var w2 := Next(w1, Handles(s));
    assert w2.clients == w1.clients && UpstreamOf(w2, s) == [];
  }

  lemma FirstHelloTaken(sockets: Sockets, s: nat, hello: Frame)
    requires s < |sockets| && hello.Hello? && Parses(hello)
    requires sockets[s] == Socket(hello.hello.role, true, true, false, false, None, [])
    ensures var after := AfterLine(sockets, s, LineOf(hello)).sockets;
            after[s].open && after[s].hello == Some(hello.hello)
  {
    hide AfterAcknowledgePair;
    AcknowledgeGrows(Registered(sockets, s, hello.hello));
    AcknowledgeOnlySends(Registered(sockets, s, hello.hello));
  }

  // In every run, a `connect` that is not ignored can get through, without another one, exactly if the
  // transport holds no socket or one that is still opening. On a socket that has closed it waits for
  // ever; on one that is open it says hello a second time, which the room answers by closing the socket.
  lemma ConnectGetsThroughExactly(configs: seq<Config>, p: Primitives, actions: seq<Action>, t: nat, secretKey: Bytes)
    requires Agreement.Configured(configs, p) && FixedLength(p) && t < |RunClients(configs, actions).clients|
    requires var client := RunClients(configs, actions).clients[t];
             Pairing.MayConnect(client.conn.state) && Speaks(client.config)
    ensures
      var link := RunClients(configs, actions).clients[t].link;
      (exists more: seq<Action> ::
         NoConnect(more, t) && GetsThrough(RunClients(configs, actions + [Connect(t, secretKey)] + more), t))
      <==> link.Unlinked? || link.Opening?
  {
    hide Next, Inv, GetsThrough, Stuck, NoConnect;
    var w, connecting := RunClients(configs, actions), actions + [Connect(t, secretKey)];
    var link := w.clients[t].link;
    RunKeepsInv(configs, p, actions);
    RunKeepsInv(configs, p, connecting);
    RunMore(configs, actions, Connect(t, secretKey));
    var w1 := RunClients(configs, connecting);
    if link.Unlinked? || link.Opening? {
      ConnectingOpens(w, t, secretKey);
      OpeningGetsThrough(w1, p, t);
      var more := [Opens(t), Handles(|w1.sockets|)];
      RunMore(configs, connecting, Opens(t));
      RunMore(configs, connecting + [Opens(t)], Handles(|w1.sockets|));
      assert connecting + more == connecting + [Opens(t)] + [Handles(|w1.sockets|)];
      assert NoConnect(more, t) by { NeitherConnects(t, |w1.sockets|); }
    } else {
      var s: nat := if link.Attached? then link.socket else 0;
      RunIsAnnounced(configs, p, actions);
      if link.Attached? {
        ConnectingAgainIsStuck(w, p, t, secretKey);
      } else {
        NextLinkMoves(w, p, t, Connect(t, secretKey));
        GoneIsStuck(w1, t, s);
      }
      forall more: seq<Action> | NoConnect(more, t)
        ensures !GetsThrough(RunClients(configs, connecting + more), t)
      {
        StuckUntilConnect(configs, p, connecting, t, s, more);
        StuckIsNotThrough(RunClients(configs, connecting + more), t, s);
      }
    }
  }

  lemma NeitherConnects(t: nat, s: nat)
    ensures NoConnect([Opens(t), Handles(s)], t)
  {
  }

  lemma GoneIsStuck(w: World, t: nat, s: nat)
    requires t < |w.clients| && w.clients[t].link == Gone
    ensures Stuck(w, t, s)
  {
  }

  lemma ConnectingOpens(w: World, t: nat, secretKey: Bytes)
    requires t < |w.clients| && Pairing.MayConnect(w.clients[t].conn.state)
    requires w.clients[t].link.Unlinked? || w.clients[t].link.Opening?
    ensures var w' := Next(w, Connect(t, secretKey));
            t < |w'.clients| && w'.clients[t].link.Opening? && w'.clients[t].config == w.clients[t].config
  {
    hide AfterConnect, AfterSendHello;
  }
}
