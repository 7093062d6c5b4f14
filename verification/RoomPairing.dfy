/**
 What the deployed relay room has last told the sockets of a pair, in every run of it.
 */
module RoomPairing {
  import opened Results
  import opened RemoteCrypto
  import opened RemoteConnection
  import opened FakeRelay
  import opened KeyEffects
  import opened RelayPairing
  import opened RemotePairRoom

  // Two open sockets of different roles, both of which have said hello.
  predicate Faces(sockets: Sockets, s: nat, d: nat) {
    && s < |sockets| && d < |sockets|
    && sockets[s].open && sockets[d].open
    && sockets[s].hello.Some? && sockets[d].hello.Some?
    && sockets[d].role == Opposite(sockets[s].role)
  }

  // The last word on a socket of a pair is the acknowledgement with the other's keys.
  ghost predicate Told(sockets: Sockets) {
    forall s: nat, d: nat :: Faces(sockets, s, d) ==>
      LastWord(sockets[s].sent) == Some(HelloAck(AckFor(sockets[s].hello.value, sockets[d].hello.value)))
  }

  // At most one socket of each role has neither gone nor been replaced.
  ghost predicate Unreplaced(sockets: Sockets) {
    forall i, j | 0 <= i < j < |sockets| ::
      sockets[i].listed && !sockets[i].superseded && sockets[j].listed && !sockets[j].superseded ==>
        sockets[i].role != sockets[j].role
  }

  ghost predicate SocketFits(socket: Socket) {
    && (socket.hello.Some? ==> IsComplete(socket.hello.value))
    && forall f | f in socket.sent ::
      && FromRelay(f)
      && (f.HelloAck? ==> socket.hello.Some? && f.ack.connectionId == socket.hello.value.connectionId)
  }

  ghost predicate AllFit(sockets: Sockets) {
    forall i | 0 <= i < |sockets| :: SocketFits(sockets[i])
  }

  ghost predicate PairInv(sockets: Sockets) {
    RoomInv(sockets) && Unreplaced(sockets) && AllFit(sockets) && Told(sockets)
  }

  // A `hello` whose fields are empty does not parse.
  predicate WellFormed(line: Line) {
    line.Parsed? && line.frame.Hello? ==> IsComplete(line.frame.hello)
  }

  // Which sockets face each other

  lemma FacesUnique(sockets: Sockets, s: nat, d: nat, s': nat, d': nat)
    requires RoomInv(sockets) && Faces(sockets, s, d) && Faces(sockets, s', d')
    ensures (s' == s && d' == d) || (s' == d && d' == s)
  {
  }

  // The authenticated sockets of a role: the open one, if it has said hello.
  lemma AuthenticatedIs(sockets: Sockets, role: Role)
    requires RoomInv(sockets)
    ensures |Authenticated(sockets, role)| <= 1
    ensures forall k | 0 <= k < |sockets| && sockets[k].open && sockets[k].role == role && sockets[k].hello.Some? ::
              Authenticated(sockets, role) == [k]
  {
    if k :| 0 <= k < |sockets| && sockets[k].open && sockets[k].role == role {
      OnlyAuthenticated(sockets, role, 0, k);
      forall l | 0 <= l < |sockets| && sockets[l].open && sockets[l].role == role && sockets[l].hello.Some?
        ensures Authenticated(sockets, role) == [l]
      {
        OnlyAuthenticated(sockets, role, 0, l);
      }
    } else {
      NoneAuthenticated(sockets, role, 0);
    }
  }

  // Single steps

  lemma SentFits(sockets: Sockets, i: nat, frame: Frame)
    requires RoomInv(sockets) && Unreplaced(sockets) && AllFit(sockets) && i < |sockets| && FromRelay(frame)
    requires frame.HelloAck? ==> sockets[i].hello.Some? && frame.ack.connectionId == sockets[i].hello.value.connectionId
    ensures RoomInv(Sent(sockets, i, frame)) && Unreplaced(Sent(sockets, i, frame)) && AllFit(Sent(sockets, i, frame))
    ensures LastWord(Sent(sockets, i, frame)[i].sent) == if Decides(frame) then Some(frame) else LastWord(sockets[i].sent)
  {
    AppendedWord(sockets[i].sent, frame, []);
    assert SocketFits(sockets[i]);
  }

  // A frame that decides nothing, or that goes to a socket without a peer, leaves what others were told.
  lemma SentKeepsPairInv(sockets: Sockets, i: nat, frame: Frame)
    requires PairInv(sockets) && i < |sockets| && FromRelay(frame) && !frame.HelloAck?
    requires Decides(frame) ==> forall d: nat :: !Faces(sockets, i, d)
    ensures PairInv(Sent(sockets, i, frame))
  {
    hide LastWord;
    var after := Sent(sockets, i, frame);
    SentFits(sockets, i, frame);
    forall s: nat, d: nat | Faces(after, s, d)
      ensures LastWord(after[s].sent) == Some(HelloAck(AckFor(after[s].hello.value, after[d].hello.value)))
    {
      assert Faces(sockets, s, d);
    }
  }

  lemma AcceptKeepsPairInv(sockets: Sockets, role: Role)
    requires PairInv(sockets)
    ensures PairInv(AfterAccept(sockets, role))
  {
    hide LastWord;
    var after := AfterAccept(sockets, role);
    AcceptKeepsInv(sockets, role);
    forall i | 0 <= i < |after|
      ensures SocketFits(after[i])
    {
      assert i < |sockets| ==> SocketFits(sockets[i]);
    }
    forall s: nat, d: nat | Faces(after, s, d)
      ensures LastWord(after[s].sent) == Some(HelloAck(AckFor(after[s].hello.value, after[d].hello.value)))
    {
      assert Faces(sockets, s, d);
    }
  }

  // Closing a socket, in whichever way, parts its pair and touches no other.
  lemma ShutKeepsPairInv(sockets: Sockets, i: nat, listed: bool)
    requires PairInv(sockets) && i < |sockets| && (listed ==> sockets[i].listed)
    ensures PairInv(sockets[i := sockets[i].(open := false, listed := listed)])
  {
    hide LastWord;
    var after := sockets[i := sockets[i].(open := false, listed := listed)];
    assert SocketFits(sockets[i]);
    forall s: nat, d: nat | Faces(after, s, d)
      ensures LastWord(after[s].sent) == Some(HelloAck(AckFor(after[s].hello.value, after[d].hello.value)))
    {
      assert Faces(sockets, s, d);
    }
  }

  lemma RejectKeepsPairInv(sockets: Sockets, i: nat)
    requires PairInv(sockets) && i < |sockets|
    ensures PairInv(Rejected(sockets, i))
  {
    ShutKeepsPairInv(sockets, i, sockets[i].listed);
  }

  // Once the socket of a role that was not replaced is gone, the other role has no peer left.
  lemma GoneFacesNobody(sockets: Sockets, i: nat, s: nat, d: nat)
    requires PairInv(sockets) && i < |sockets| && sockets[i].listed && !sockets[i].superseded
    requires s < |sockets| && sockets[s].role == Opposite(sockets[i].role)
    ensures !Faces(sockets[i := sockets[i].(open := false, listed := false)], s, d)
  {
  }

  lemma CloseKeepsPairInv(sockets: Sockets, i: nat)
    requires PairInv(sockets) && i < |sockets| && sockets[i].listed
    ensures PairInv(AfterSocketClose(sockets, i))
  {
    hide PairInv, Faces, Sent, Authenticated;
    var gone := sockets[i := sockets[i].(open := false, listed := false)];
    var peers := Authenticated(gone, Opposite(sockets[i].role));
    ShutKeepsPairInv(sockets, i, false);
    assert |peers| <= 1 by { RoomOf(gone); AuthenticatedIs(gone, Opposite(sockets[i].role)); }
    if !sockets[i].superseded && sockets[i].authenticated {
      if peers == [] {
        SentToNone(gone, PeerStatus(false));
      } else {
        assert peers == [peers[0]];
        SentToOne(gone, peers[0], PeerStatus(false));
        forall d: nat
          ensures !Faces(gone, peers[0], d)
        {
          GoneFacesNobody(sockets, i, peers[0], d);
        }
        SentKeepsPairInv(gone, peers[0], PeerStatus(false));
      }
    }
  }

  lemma RoomOf(sockets: Sockets)
    requires PairInv(sockets)
    ensures RoomInv(sockets)
  {
  }

  lemma ForwardKeepsPairInv(sockets: Sockets, i: nat, frame: Frame)
    requires PairInv(sockets) && i < |sockets| && frame.SealedFrame?
    ensures PairInv(AfterForward(sockets, i, frame))
  {
    hide PairInv, Authenticated, Sent;
    var peers := Authenticated(sockets, Opposite(sockets[i].role));
    if peers != [] {
      SentKeepsPairInv(sockets, peers[0], frame);
    } else {
      RoomOf(sockets);
      AuthenticatedIs(sockets, Opposite(sockets[i].role));
      SentKeepsPairInv(sockets, i, PeerStatus(false));
    }
  }

  // The first hello of a socket

  function Registered(sockets: Sockets, i: nat, hello: HelloInfo): Sockets
    requires i < |sockets|
  {
    sockets[i := sockets[i].(authenticated := true, hello := Some(hello))]
  }

  ghost predicate FitsButTold(sockets: Sockets) {
    RoomInv(sockets) && Unreplaced(sockets) && AllFit(sockets)
  }

  lemma RegisteredFits(sockets: Sockets, i: nat, hello: HelloInfo)
    requires PairInv(sockets) && i < |sockets| && !sockets[i].authenticated
    requires hello.role == sockets[i].role && IsComplete(hello)
    ensures FitsButTold(Registered(sockets, i, hello))
  {
    assert SocketFits(sockets[i]);
  }

  // Telling a pair each other's keys is telling everybody who faces anybody.
  lemma AcknowledgingTells(sockets: Sockets, m: nat, d: nat)
    requires FitsButTold(sockets) && Faces(sockets, m, d) && sockets[m].role == Mobile
    ensures PairInv(AfterAcknowledgePair(sockets))
  {
    hide LastWord, RoomInv, Unreplaced, AllFit;
    assert RoomInv(sockets);
    AuthenticatedIs(sockets, Mobile);
    AuthenticatedIs(sockets, Desktop);
    var hm, hd := sockets[m].hello.value, sockets[d].hello.value;
    assert IsComplete(hm) && IsComplete(hd) by { FitsAt(sockets, m); FitsAt(sockets, d); }
    var first := Sent(sockets, m, HelloAck(AckFor(hm, hd)));
    SentFits(sockets, m, HelloAck(AckFor(hm, hd)));
    SentFits(first, d, HelloAck(AckFor(hd, hm)));
    var after := Sent(first, d, HelloAck(AckFor(hd, hm)));
    assert after == AfterAcknowledgePair(sockets);
    assert LastWord(after[m].sent) == Some(HelloAck(AckFor(hm, hd)));
    assert LastWord(after[d].sent) == Some(HelloAck(AckFor(hd, hm)));
    forall s: nat, e: nat | Faces(after, s, e)
      ensures LastWord(after[s].sent) == Some(HelloAck(AckFor(after[s].hello.value, after[e].hello.value)))
    {
      assert Faces(after, m, d);
      FacesUnique(after, m, d, s, e);
    }
  }

  lemma FitsAt(sockets: Sockets, i: nat)
    requires AllFit(sockets) && i < |sockets|
    ensures SocketFits(sockets[i])
  {
  }

  lemma NobodyToTell(sockets: Sockets)
    requires FitsButTold(sockets) && forall s: nat, d: nat :: !Faces(sockets, s, d)
    ensures PairInv(AfterAcknowledgePair(sockets))
  {
    var mobiles, desktops := Authenticated(sockets, Mobile), Authenticated(sockets, Desktop);
    if mobiles != [] && desktops != [] {
      assert Faces(sockets, mobiles[0], desktops[0]);
    }
  }

  lemma AcknowledgeKeepsPairInv(sockets: Sockets)
    requires FitsButTold(sockets)
    ensures PairInv(AfterAcknowledgePair(sockets))
  {
    hide PairInv, FitsButTold, AfterAcknowledgePair;
    if s: nat, d: nat :| Faces(sockets, s, d) {
      if sockets[s].role == Mobile {
        AcknowledgingTells(sockets, s, d);
      } else {
        AcknowledgingTells(sockets, d, s);
      }
    } else {
      NobodyToTell(sockets);
    }
  }

  lemma LineKeepsPairInv(sockets: Sockets, i: nat, line: Line)
    requires PairInv(sockets) && i < |sockets| && WellFormed(line)
    ensures PairInv(AfterLine(sockets, i, line).sockets)
  {
    hide PairInv, FitsButTold, AfterAcknowledgePair, AfterForward, Rejected;
    RejectKeepsPairInv(sockets, i);
    if line.Parsed? && !sockets[i].authenticated && line.frame.Hello? && line.frame.hello.role == sockets[i].role {
      RegisteredFits(sockets, i, line.frame.hello);
      AcknowledgeKeepsPairInv(Registered(sockets, i, line.frame.hello));
    } else if line.Parsed? && sockets[i].authenticated && line.frame.SealedFrame? {
      ForwardKeepsPairInv(sockets, i, line.frame);
    }
  }

  lemma {:induction false} LinesKeepPairInv(sockets: Sockets, i: nat, lines: seq<Line>)
    requires PairInv(sockets) && i < |sockets| && forall line | line in lines :: WellFormed(line)
    ensures PairInv(AfterLines(sockets, i, lines))
    decreases |lines|
  {
    hide PairInv, AfterLine, WellFormed;
    if lines != [] {
      LineKeepsPairInv(sockets, i, lines[0]);
      if !AfterLine(sockets, i, lines[0]).rejected {
        LinesKeepPairInv(AfterLine(sockets, i, lines[0]).sockets, i, lines[1..]);
      }
    }
  }

  // Whole runs

  predicate ParsedEvent(e: RoomEvent) {
    e.Message? ==> forall n | 0 <= n < |e.lines| :: WellFormed(e.lines[n])
  }

  lemma StepKeepsPairInv(sockets: Sockets, e: RoomEvent)
    requires PairInv(sockets) && ParsedEvent(e)
    ensures PairInv(Step(sockets, e))
  {
    hide PairInv, AfterAccept, AfterLines, AfterSocketClose, WellFormed;
    match e
    case Accepted(role) => AcceptKeepsPairInv(sockets, role);
    case Message(i, _, lines) =>
      if i < |sockets| {
        LinesKeepPairInv(sockets, i, lines);
        RejectKeepsPairInv(sockets, i);
      }
    case SocketClosed(i) =>
      if i < |sockets| && sockets[i].listed {
        CloseKeepsPairInv(sockets, i);
      }
    case SocketError(i) =>
      if i < |sockets| {
        RejectKeepsPairInv(sockets, i);
      }
  }

  lemma {:induction false} RunKeepsPairInv(events: seq<RoomEvent>)
    requires forall n | 0 <= n < |events| :: ParsedEvent(events[n])
    ensures PairInv(RunRoom(events))
  {
    hide PairInv, Step, ParsedEvent;
    if events == [] {
      EmptyIsPairInv();
    } else {
      RunKeepsPairInv(events[..|events| - 1]);
      StepKeepsPairInv(RunRoom(events[..|events| - 1]), events[|events| - 1]);
    }
  }

  lemma EmptyIsPairInv()
    ensures PairInv([])
  {
  }

  // In every run of the room, whenever an open mobile and an open desktop socket have both said hello,
  // the last thing each was told about its peer is the other's keys, however often either side was
  // replaced, rejected or closed before.
  lemma EachIsToldTheOther(events: seq<RoomEvent>, s: nat, d: nat)
    requires forall n | 0 <= n < |events| :: ParsedEvent(events[n])
    requires Faces(RunRoom(events), s, d)
    ensures var sockets := RunRoom(events);
            LastWord(sockets[s].sent) == Some(HelloAck(AckFor(sockets[s].hello.value, sockets[d].hello.value)))
  {
    RunKeepsPairInv(events);
  }
}
