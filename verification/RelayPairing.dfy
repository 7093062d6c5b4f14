/**
 Any number of connections meeting in one relay room: the step relation, and what every
 run of it keeps.

 Each party is one connection with its own transport. `generated` are the ephemeral public
 keys ever made, `announced` those that were sent in a `hello`. A new ephemeral key is never
 one that was made before.
 */
module RelayPairing {
  import opened Results
  import opened RemoteCrypto
  import opened EventJournal
  import opened RemoteConnection
  import opened FakeRelay
  import opened KeyEffects

  datatype Party = Party(config: Config, conn: Conn, helloDue: nat)

  datatype World = World(room: Room, parties: seq<Party>, generated: set<Bytes>, announced: set<Bytes>)

  datatype Action =
    | Connect(party: nat, secretKey: Bytes)
    | SendHello(party: nat)
    | Receive(party: nat, clocks: nat -> Clock)
    | Transmit(party: nat, inner: SessionFrame)
    | Close(party: nat)

  function RoleOf(w: World, t: nat): Role
    requires t < |w.parties|
  {
    w.parties[t].config.role
  }

  function WithConn(w: World, t: nat, c: Conn): World
    requires t < |w.parties|
  {
    w.(parties := w.parties[t := w.parties[t].(conn := c)])
  }

  // Frames are sent one after the other; a refused one is only logged.
  function Routed(room: Room, t: nat, role: Role, frames: seq<Frame>): Room
    decreases |frames|
  {
    if frames == [] then room
    else
      var next := AfterSend(room, t, role, frames[0]);
      Routed(if next.Some? then next.value else room, t, role, frames[1..])
  }

  function Flushed(w: World, t: nat, c: Conn): World
    requires t < |w.parties|
  {
    var sent := WithConn(w, t, c.(sent := [], closeRequested := false));
    var room := Routed(w.room, t, RoleOf(w, t), c.sent);
    sent.(room := if c.closeRequested then AfterLeave(room, t, RoleOf(w, t)) else room)
  }

  function WithoutDisplaced(w: World, t: nat): World
    requires t < |w.parties|
  {
    var slot := SlotOf(w.room, RoleOf(w, t));
    if slot.Some? && slot.value.transport != t && slot.value.transport in w.room.connected
       && slot.value.transport < |w.parties|
    then WithConn(w, slot.value.transport, AfterTransportClosed(w.parties[slot.value.transport].conn))
    else w
  }

  predicate MayConnect(state: State) {
    state != Online && state != Connecting && state != PendingApproval
  }

  function AfterPartyConnect(w: World, t: nat, secretKey: Bytes): World
    requires t < |w.parties|
  {
    var party := w.parties[t];
    var ephemeral := MakeKeyPair(party.config.primitives, secretKey);
    if !MayConnect(party.conn.state) || ephemeral.publicKey in w.generated then w
    else
      var joined := WithoutDisplaced(w, t).(room := AfterJoin(w.room, t, party.config.role));
      joined.(parties := joined.parties[t := Party(party.config, AfterConnect(party.conn, ephemeral), party.helloDue + 1)],
              generated := w.generated + {ephemeral.publicKey})
  }

  function AfterPartyHello(w: World, t: nat): World
    requires t < |w.parties|
  {
    var party := w.parties[t];
    var due := w.(parties := w.parties[t := party.(helloDue := if party.helloDue > 0 then party.helloDue - 1 else 0)]);
    if party.helloDue == 0 then w
    else if party.conn.ephemeral.None? then WithConn(due, t, InState(party.conn, Failed))
    else
      var hello := HelloOf(party.config, party.conn.ephemeral.value);
      match AfterSend(w.room, t, party.config.role, Hello(hello))
      case None => WithConn(due, t, InState(party.conn, Failed))
      case Some(room) => due.(room := room, announced := w.announced + {hello.ephemeralKey})
  }

  function Next(w: World, action: Action): World {
    var t := action.party;
    if t >= |w.parties| then w
    else match action
      case Connect(_, secretKey) => AfterPartyConnect(w, t, secretKey)
      case SendHello(_) => AfterPartyHello(w, t)
      case Receive(_, clocks) =>
        var inbox := InboxOf(w.room, t);
        if t !in w.room.connected || inbox == [] then w
        else Flushed(w.(room := Popped(w.room, t)), t,
                     AfterFrame(w.parties[t].conn, w.parties[t].config, inbox[0], clocks))
      case Transmit(_, inner) => Flushed(w, t, SentSealed(w.parties[t].conn, inner))
      case Close(_) => Flushed(w, t, AfterClose(w.parties[t].conn))
  }

  function Start(configs: seq<Config>): World {
    World(EMPTY_ROOM, seq(|configs|, i requires 0 <= i < |configs| => Party(configs[i], NewConn(0, EMPTY_HISTORY, []), 0)), {}, {})
  }

  function RunRelay(configs: seq<Config>, actions: seq<Action>): World {
    if actions == [] then Start(configs)
    else Next(RunRelay(configs, actions[..|actions| - 1]), actions[|actions| - 1])
  }

  // Inboxes

  predicate Decides(frame: Frame) {
    frame.HelloAck? || frame.PeerStatus?
  }

  // The last frame of an inbox that can bring its reader up or take it down.
  function LastWord(inbox: seq<Frame>): Option<Frame> {
    if inbox == [] then None
    else if Decides(inbox[|inbox| - 1]) then Some(inbox[|inbox| - 1])
    else LastWord(inbox[..|inbox| - 1])
  }

  // A frame sealed under `key` is waiting, with no acknowledgement behind it.
  predicate WaitsUnder(inbox: seq<Frame>, key: Bytes) {
    inbox != [] &&
    var last := inbox[|inbox| - 1];
    !last.HelloAck? && ((last.SealedFrame? && last.sealed.key == key) || WaitsUnder(inbox[..|inbox| - 1], key))
  }

  lemma AppendedWord(inbox: seq<Frame>, frame: Frame, key: Bytes)
    ensures LastWord(inbox + [frame]) == if Decides(frame) then Some(frame) else LastWord(inbox)
    ensures WaitsUnder(inbox + [frame], key) <==>
            !frame.HelloAck? && ((frame.SealedFrame? && frame.sealed.key == key) || WaitsUnder(inbox, key))
  {
    assert (inbox + [frame])[..|inbox|] == inbox;
  }

  lemma {:induction false} PoppedWord(inbox: seq<Frame>, key: Bytes)
    requires inbox != []
    ensures LastWord(inbox) == if LastWord(inbox[1..]).Some? then LastWord(inbox[1..])
                               else if Decides(inbox[0]) then Some(inbox[0]) else None
    ensures WaitsUnder(inbox, key) ==>
              WaitsUnder(inbox[1..], key) || (inbox[0].SealedFrame? && inbox[0].sealed.key == key)
    decreases |inbox|
  {
    if |inbox| > 1 {
      var init := inbox[..|inbox| - 1];
      assert inbox[1..][..|inbox| - 2] == init[1..];
      PoppedWord(init, key);
    }
  }

  // Invariants

  ghost predicate DerivedFrom(party: Party, peerIdentityKey: Bytes, peerEphemeralKey: Bytes) {
    && IsPublicKey(peerIdentityKey) && IsPublicKey(peerEphemeralKey)
    && party.conn.ephemeral.Some? && party.conn.keys.Some?
    && party.conn.keys.value == DeriveSessionKeys(party.config.primitives, party.config.role, party.config.identity,
                                                  party.conn.ephemeral.value, peerIdentityKey, peerEphemeralKey)
  }

  ghost predicate DerivedFromAnnounced(party: Party, announced: set<Bytes>) {
    exists peerIdentityKey, peerEphemeralKey ::
      DerivedFrom(party, peerIdentityKey, peerEphemeralKey) && peerEphemeralKey in announced
  }

  ghost predicate PartyFits(party: Party, p: Primitives, generated: set<Bytes>) {
    && party.config.primitives == p
    && party.config.handshake == Initiate
    && Matching(p, party.config.identity)
    && party.conn.sent == [] && !party.conn.closeRequested
    && (party.conn.ephemeral.Some? ==>
          Matching(p, party.conn.ephemeral.value) && party.conn.ephemeral.value.publicKey in generated)
  }

  ghost predicate DistinctEphemerals(parties: seq<Party>) {
    forall i, j | 0 <= i < j < |parties| ::
      parties[i].conn.ephemeral.Some? && parties[j].conn.ephemeral.Some? ==>
        parties[i].conn.ephemeral.value.publicKey != parties[j].conn.ephemeral.value.publicKey
  }

  ghost predicate ConnectedFits(w: World, t: nat) {
    && t < |w.parties|
    && Occupies(w.room, t, RoleOf(w, t))
    && KeysIffUp(w.parties[t].conn)
    && (w.parties[t].conn.keys.Some? ==> DerivedFromAnnounced(w.parties[t], w.announced))
  }

  ghost predicate SlotFits(w: World, role: Role) {
    SlotOf(w.room, role).Some? ==>
      var slot := SlotOf(w.room, role).value;
      && slot.transport in w.room.connected
      && slot.transport < |w.parties|
      && RoleOf(w, slot.transport) == role
      && var party := w.parties[slot.transport];
         && party.conn.ephemeral.Some?
         && match slot.hello
            case None => party.conn.ephemeral.value.publicKey !in w.announced
            case Some(hello) =>
              hello == HelloOf(party.config, party.conn.ephemeral.value) && hello.ephemeralKey in w.announced
  }

  ghost predicate InboxFits(inbox: seq<Frame>, announced: set<Bytes>) {
    forall f | f in inbox :: FromRelay(f) && (f.HelloAck? ==> f.ack.peerEphemeralKey in announced)
  }

  ghost predicate Base(w: World, p: Primitives) {
    && (forall t | 0 <= t < |w.parties| :: PartyFits(w.parties[t], p, w.generated))
    && DistinctEphemerals(w.parties)
    && (forall t | t in w.room.connected :: ConnectedFits(w, t))
    && SlotFits(w, Mobile) && SlotFits(w, Desktop)
    && (forall t :: InboxFits(InboxOf(w.room, t), w.announced))
    && w.announced <= w.generated
  }

  predicate Occupied(w: World, role: Role) {
    SlotOf(w.room, role).Some? && SlotOf(w.room, role).value.transport < |w.parties|
  }

  function PartyAt(w: World, role: Role): Party
    requires Occupied(w, role)
  {
    w.parties[SlotOf(w.room, role).value.transport]
  }

  function InboxAt(w: World, role: Role): seq<Frame>
    requires Occupied(w, role)
  {
    InboxOf(w.room, SlotOf(w.room, role).value.transport)
  }

  // With both hellos in, the party in `role` ends up with keys for the other's hello, or down.
  ghost predicate Paired(w: World, role: Role) {
    Occupied(w, role) && HasHello(w.room, role) && HasHello(w.room, Opposite(role)) ==>
      var party, peer := PartyAt(w, role), HelloAt(w.room, Opposite(role));
      match LastWord(InboxAt(w, role))
      case Some(frame) => frame == HelloAck(AckFor(HelloAt(w.room, role), peer))
      case None => Up(party.conn) ==> DerivedFrom(party, peer.identityKey, peer.ephemeralKey)
  }

  // While the hello of `role` is outstanding, two parties that are up cannot both stay up:
  // one was told its peer is offline, or is about to read a frame it cannot open.
  ghost predicate Guarded(w: World, role: Role) {
    Occupied(w, role) && Occupied(w, Opposite(role)) && !HasHello(w.room, role)
    && Up(PartyAt(w, role).conn) && Up(PartyAt(w, Opposite(role)).conn) ==>
      || LastWord(InboxAt(w, role)) == Some(PeerStatus(false))
      || LastWord(InboxAt(w, Opposite(role))) == Some(PeerStatus(false))
      || (HasHello(w.room, Opposite(role)) && PartyAt(w, role).conn.keys.Some?
          && WaitsUnder(InboxAt(w, Opposite(role)), PartyAt(w, role).conn.keys.value.sendKey))
  }

  ghost predicate Sane(w: World, p: Primitives) {
    Base(w, p) && Paired(w, Mobile) && Paired(w, Desktop)
  }

  ghost predicate Inv(w: World, p: Primitives) {
    Sane(w, p) && Guarded(w, Mobile) && Guarded(w, Desktop)
  }
}
