/**
 The positions a receiver reports (acknowledgements and resumes): how one connection sends
 them and how one connection applies them, as long as no resync event is involved.
 */
module AckOrdering {
  import opened Results
  import opened RemoteCrypto
  import opened EventJournal
  import opened RemoteConnection

  function Reported(inner: SessionFrame): seq<nat> {
    match inner
    case Acknowledgement(sequence) => [sequence]
    case Resume(lastEventSequence) => [lastEventSequence]
    case _ => []
  }

  // The positions reported by a queue of sealed frames.
  function Positions(frames: seq<Sealed>): seq<nat> {
    if frames == [] then [] else Reported(frames[0].inner) + Positions(frames[1..])
  }

  function SealedOf(frames: seq<Frame>): seq<Sealed> {
    if frames == [] then []
    else (if frames[0].SealedFrame? then [frames[0].sealed] else []) + SealedOf(frames[1..])
  }

  lemma {:induction false} PositionsOfConcat(a: seq<Sealed>, b: seq<Sealed>)
    ensures Positions(a + b) == Positions(a) + Positions(b)
    decreases |a|
  {
    if a == [] {
      assert a + b == b;
    } else {
      assert (a + b)[1..] == a[1..] + b;
      PositionsOfConcat(a[1..], b);
    }
  }

  lemma {:induction false} SealedOfConcat(a: seq<Frame>, b: seq<Frame>)
    ensures SealedOf(a + b) == SealedOf(a) + SealedOf(b)
    decreases |a|
  {
    if a == [] {
      assert a + b == b;
    } else {
      var whole, first := a + b, if a[0].SealedFrame? then [a[0].sealed] else [];
      assert whole[1..] == a[1..] + b;
      SealedOfConcat(a[1..], b);
      assert SealedOf(whole) == first + SealedOf(whole[1..]);
      assert SealedOf(a) == first + SealedOf(a[1..]);
    }
  }

  function Queued(frames: seq<Frame>): seq<nat> {
    Positions(SealedOf(frames))
  }

  lemma QueuedConcat(a: seq<Frame>, b: seq<Frame>)
    ensures Queued(a + b) == Queued(a) + Queued(b)
  {
    SealedOfConcat(a, b);
    PositionsOfConcat(SealedOf(a), SealedOf(b));
  }

  lemma NothingQueued(frame: Frame)
    requires !frame.SealedFrame?
    ensures Queued([frame]) == []
  {
    assert SealedOf([frame]) == SealedOf([frame][1..]);
  }

  ghost predicate Sorted(xs: seq<nat>) {
    forall i, j | 0 <= i < j < |xs| :: xs[i] <= xs[j]
  }

  // The sending side: everything reported lies between `low` and the current position, in order.
  ghost predicate ReportsFrom(c: Conn, low: nat) {
    var reported := Queued(c.sent);
    && low <= c.lastEventSequence
    && Sorted(reported)
    && (forall v | v in reported :: low <= v <= c.lastEventSequence)
  }

  predicate IsResync(inner: SessionFrame) {
    inner.Event? && inner.event.name == RESYNC
  }

  lemma SortedAppend(xs: seq<nat>, ys: seq<nat>, v: nat)
    requires Sorted(xs) && (forall x | x in xs :: x <= v) && (forall y | y in ys :: y == v)
    ensures Sorted(xs + ys)
  {
    var all := xs + ys;
    forall i, j | 0 <= i < j < |all|
      ensures all[i] <= all[j]
    {
      assert all[i] in xs || all[i] in ys;
      assert j >= |xs| ==> all[j] in ys;
    }
  }

  lemma SentSealedReports(c: Conn, inner: SessionFrame, low: nat)
    requires ReportsFrom(c, low)
    requires forall v | v in Reported(inner) :: v == c.lastEventSequence
    ensures ReportsFrom(SentSealed(c, inner), low)
  {
    if c.keys.Some? {
      var sealed := Sealed(c.keys.value.sendKey, inner);
      SealedOfConcat(c.sent, [SealedFrame(sealed)]);
      assert SealedOf([SealedFrame(sealed)]) == [sealed];
      PositionsOfConcat(SealedOf(c.sent), [sealed]);
      assert Positions([sealed]) == Reported(inner);
      SortedAppend(Queued(c.sent), Reported(inner), c.lastEventSequence);
    }
  }

  lemma EventReports(c: Conn, event: RemoteEvent, low: nat)
    requires ReportsFrom(c, low) && event.name != RESYNC
    ensures ReportsFrom(AfterEvent(c, event), low)
  {
    if event.sequence == c.lastEventSequence + 1 {
      var adopted := c.(lastEventSequence := event.sequence);
      var online := if c.state == Recovering then InState(adopted, Online) else adopted;
      SentSealedReports(Told(online, Delivered(event)), Acknowledgement(event.sequence), low);
    } else if event.sequence > c.lastEventSequence {
      SentSealedReports(InState(c, Recovering), Resume(c.lastEventSequence), low);
    }
  }

  lemma ReplayReports(c: Conn, config: Config, after: nat, clock: Clock, low: nat)
    requires ReportsFrom(c, low)
    ensures ReportsFrom(AfterReplay(c, config, after, clock), low)
  {
    hide Step, Queued, ReplayAnswer;
    var asked := c.(journal := Step(c.journal, Query(clock.asked), config.bounds));
    var answer := ReplayAnswer(asked.journal.log, after);
    if answer.None? {
      var op := Emit(RESYNC, "", clock.recordedAt, clock.now);
      SentSealedReports(asked.(journal := Step(asked.journal, op, config.bounds)),
                        Event(RemoteEvent(asked.journal.log.sequence + 1, RESYNC, "")), low);
    } else if answer.value != [] {
      SentSealedReports(asked.(replays := asked.replays + [answer.value]), Event(answer.value[0]), low);
    }
  }

  lemma SessionFrameReports(c: Conn, config: Config, inner: SessionFrame, clock: Clock, low: nat)
    requires ReportsFrom(c, low) && !IsResync(inner)
    ensures ReportsFrom(AfterSessionFrame(c, config, inner, clock), low)
  {
    match inner
    case Event(event) => EventReports(c, event, low);
    case Resume(after) => ReplayReports(c, config, after, clock, low);
    case Acknowledgement(_) =>
    case Request(_) =>
    case Response(_) =>
  }

  lemma SealedReports(c: Conn, config: Config, sealed: Sealed, clock: Clock, low: nat)
    requires ReportsFrom(c, low) && !IsResync(sealed.inner)
    ensures ReportsFrom(AfterSealed(c, config, sealed, clock), low)
  {
    SessionFrameReports(c, config, sealed.inner, clock, low);
  }

  lemma {:induction false} EarlyReports(c: Conn, config: Config, early: seq<Sealed>, clock: nat -> Clock, low: nat)
    requires ReportsFrom(c, low) && forall s | s in early :: !IsResync(s.inner)
    ensures ReportsFrom(AfterEarly(c, config, early, clock), low)
    decreases |early|
  {
    if early != [] && c.state == Online {
      SealedReports(c, config, early[0], clock(|early|), low);
      EarlyReports(AfterSealed(c, config, early[0], clock(|early|)), config, early[1..], clock, low);
    }
  }

  lemma GoOnlineReports(c: Conn, config: Config, clock: nat -> Clock, low: nat)
    requires ReportsFrom(c, low) && forall s | s in c.earlySealed :: !IsResync(s.inner)
    ensures ReportsFrom(AfterGoOnline(c, config, clock), low)
  {
    var online := InState(c, Online).(earlySealed := []);
    EarlyReports(online, config, c.earlySealed, clock, low);
    var drained := AfterEarly(online, config, c.earlySealed, clock);
    SentSealedReports(drained, Resume(drained.lastEventSequence), low);
  }

  lemma HelloAckReports(c: Conn, config: Config, ack: AckInfo, clock: nat -> Clock, low: nat)
    requires ReportsFrom(c, low) && forall s | s in c.earlySealed :: !IsResync(s.inner)
    ensures ReportsFrom(AfterHelloAck(c, config, ack, clock), low)
  {
    HelloAckCases(c, config, ack, clock);
    if AcceptsAck(c, config, ack) {
      GoOnlineReports(Keyed(c, config, ack), config, clock, low);
    } else {
      assert AfterHelloAck(c, config, ack, clock).sent == c.sent;
    }
  }

  lemma HelloReports(c: Conn, config: Config, hello: HelloInfo, secretKey: Bytes)
    ensures var c' := AfterHello(c, config, hello, secretKey);
            c'.sent == c.sent && c'.lastEventSequence == c.lastEventSequence
  {
  }

  lemma HandshakeFrameReports(c: Conn, config: Config, frame: Frame, clock: nat -> Clock)
    requires !frame.SealedFrame? && !frame.HelloAck?
    ensures var c' := AfterFrame(c, config, frame, clock);
            c'.sent == c.sent && c'.lastEventSequence == c.lastEventSequence
  {
    if frame.Hello? {
      HelloReports(c, config, frame.hello, clock(0).secretKey);
    }
  }

  lemma PlainFrameReports(c: Conn, frame: Frame, inbound: seq<Inbound>, keys: Option<SessionKeys>, low: nat)
    requires ReportsFrom(c, low) && !frame.SealedFrame?
    ensures ReportsFrom(c.(keys := keys, sent := c.sent + [frame], inbound := inbound), low)
  {
    QueuedConcat(c.sent, [frame]);
    NothingQueued(frame);
    assert Queued(c.sent) + [] == Queued(c.sent);
  }

  lemma AgreeReports(c: Conn, config: Config, hello: HelloInfo, low: nat)
    requires ReportsFrom(c, low)
    ensures ReportsFrom(AfterAgree(c, config, hello), low)
  {
    var c' := AfterAgree(c, config, hello);
    if c'.inbound != c.inbound {
      PlainFrameReports(c, c'.sent[|c.sent|], c'.inbound, c'.keys, low);
    }
  }

  // Answering a hello reports nothing but the position, once online.
  lemma InboundReports(c: Conn, config: Config, index: nat, answer: Answer, clock: nat -> Clock, low: nat)
    requires index < |c.inbound| && ReportsFrom(c, low) && forall s | s in c.earlySealed :: !IsResync(s.inner)
    ensures ReportsFrom(AfterInbound(c, config, index, answer, clock), low)
  {
    hide AfterGoOnline, AfterAgree, Queued;
    var rest := c.(inbound := c.inbound[..index] + c.inbound[index + 1..]);
    match c.inbound[index]
    case Deciding(hello) =>
      AgreeReports(rest, config, hello, low);
      var pending := InState(rest, PendingApproval);
      var frame := PairingPending(hello.connectionId, config.identity.publicKey);
      PlainFrameReports(pending, frame, pending.inbound + [Approving(hello)], pending.keys, low);
      assert pending.(sent := pending.sent + [frame], inbound := pending.inbound + [Approving(hello)])
          == pending.(keys := pending.keys, sent := pending.sent + [frame], inbound := pending.inbound + [Approving(hello)]);
    case Approving(hello) => AgreeReports(rest, config, hello, low);
    case Answering => GoOnlineReports(rest, config, clock, low);
  }

  // Whatever arrives, a receiver reports its position in order and never behind where it was.
  lemma FrameReports(c: Conn, config: Config, frame: Frame, clock: nat -> Clock, low: nat)
    requires ReportsFrom(c, low)
    requires forall s | s in c.earlySealed :: !IsResync(s.inner)
    requires frame.SealedFrame? ==> !IsResync(frame.sealed.inner)
    ensures ReportsFrom(AfterFrame(c, config, frame, clock), low)
  {
    hide AfterHelloAck, AfterSealed, Queued;
    match frame
    case SealedFrame(sealed) => SealedReports(c, config, sealed, clock(0), low);
    case HelloAck(ack) => HelloAckReports(c, config, ack, clock, low);
    case _ => HandshakeFrameReports(c, config, frame, clock);
  }

  // The applying side: the positions still to come are sorted, end at `high`, and are never
  // below one already applied.
  ghost predicate InOrder(applied: set<nat>, coming: seq<nat>, high: nat) {
    && Sorted(coming)
    && (forall v | v in coming :: v <= high)
    && (forall n | n in applied :: n <= high)
    && (forall n, v | n in applied && v in coming :: n <= v)
  }

  lemma ApplyFirst(applied: set<nat>, first: nat, coming: seq<nat>, high: nat)
    requires InOrder(applied, [first] + coming, high)
    ensures InOrder(applied + {first}, coming, high)
  {
    var all := [first] + coming;
    forall i, j | 0 <= i < j < |coming|
      ensures coming[i] <= coming[j]
    {
      assert all[i + 1] == coming[i] && all[j + 1] == coming[j];
    }
    forall v | v in coming
      ensures first <= v <= high
    {
      var i :| 0 <= i < |coming| && coming[i] == v;
      assert all[0] <= all[i + 1];
      assert v in all;
    }
    assert first in all;
  }

  lemma SkipMiddle(applied: set<nat>, before: seq<nat>, skipped: seq<nat>, after: seq<nat>, high: nat)
    requires InOrder(applied, before + skipped + after, high)
    ensures InOrder(applied, before + after, high)
  {
    var all := before + skipped + after;
    var kept := before + after;
    forall i, j | 0 <= i < j < |kept|
      ensures kept[i] <= kept[j]
    {
      var i' := if i < |before| then i else i + |skipped|;
      var j' := if j < |before| then j else j + |skipped|;
      assert all[i'] == kept[i] && all[j'] == kept[j];
    }
    assert forall v | v in kept :: v in all;
  }

  lemma SkipFirst(applied: set<nat>, skipped: seq<nat>, after: seq<nat>, high: nat)
    requires InOrder(applied, skipped + after, high)
    ensures InOrder(applied, after, high)
  {
    hide InOrder;
    assert [] + skipped + after == skipped + after && [] + after == after;
    SkipMiddle(applied, [], skipped, after, high);
  }

  lemma SealedAppliesInOrder(c: Conn, config: Config, sealed: Sealed, clock: Clock, coming: seq<nat>, high: nat)
    requires InOrder(c.journal.acked, Positions([sealed]) + coming, high)
    ensures InOrder(AfterSealed(c, config, sealed, clock).journal.acked, coming, high)
  {
    assert Positions([sealed]) == Reported(sealed.inner);
    if sealed.inner.Acknowledgement? {
      ApplyFirst(c.journal.acked, sealed.inner.sequence, coming, high);
    }
    SkipFirst(c.journal.acked, Positions([sealed]), coming, high);
  }

  lemma {:induction false} EarlyAppliesInOrder(
      c: Conn, config: Config, early: seq<Sealed>, clock: nat -> Clock, coming: seq<nat>, high: nat)
    requires InOrder(c.journal.acked, Positions(early) + coming, high)
    ensures InOrder(AfterEarly(c, config, early, clock).journal.acked, coming, high)
    decreases |early|
  {
    hide AfterSealed, InOrder;
    var reported := Positions(early);
    if early == [] {
      assert reported + coming == coming;
    } else if c.state != Online {
      SkipFirst(c.journal.acked, reported, coming, high);
    } else {
      PositionsOfConcat([early[0]], early[1..]);
      assert early == [early[0]] + early[1..];
      var rest := Positions(early[1..]) + coming;
      assert reported + coming == Positions([early[0]]) + rest;
      SealedAppliesInOrder(c, config, early[0], clock(|early|), rest, high);
      EarlyAppliesInOrder(AfterSealed(c, config, early[0], clock(|early|)), config, early[1..], clock, coming, high);
    }
  }

  // Frames are held back only before the keys exist, and only by an initiating end; only an accepting
  // end answers hellos.
  ghost predicate HoldsOnlyWithoutKeys(c: Conn, config: Config) {
    && (c.keys.Some? || config.handshake == Accept ==> c.earlySealed == [])
    && (config.handshake == Initiate ==> c.inbound == [])
  }

  lemma SealedKeepsHolding(c: Conn, config: Config, sealed: Sealed, clock: Clock)
    ensures AfterSealed(c, config, sealed, clock).earlySealed == c.earlySealed
    ensures AfterSealed(c, config, sealed, clock).inbound == c.inbound
    ensures c.keys.None? ==> AfterSealed(c, config, sealed, clock).keys.None?
  {
    hide Step;
  }

  lemma {:induction false} EarlyKeepsHolding(c: Conn, config: Config, early: seq<Sealed>, clock: nat -> Clock)
    ensures AfterEarly(c, config, early, clock).earlySealed == c.earlySealed
    ensures AfterEarly(c, config, early, clock).inbound == c.inbound
    decreases |early|
  {
    if early != [] && c.state == Online {
      SealedKeepsHolding(c, config, early[0], clock(|early|));
      EarlyKeepsHolding(AfterSealed(c, config, early[0], clock(|early|)), config, early[1..], clock);
    }
  }

  lemma GoOnlineAppliesInOrder(c: Conn, config: Config, clock: nat -> Clock, coming: seq<nat>, high: nat)
    requires config.handshake == Initiate ==> c.inbound == []
    requires InOrder(c.journal.acked, Positions(c.earlySealed) + coming, high)
    ensures var c' := AfterGoOnline(c, config, clock);
            HoldsOnlyWithoutKeys(c', config) && InOrder(c'.journal.acked, Positions(c'.earlySealed) + coming, high)
  {
    hide InOrder;
    var online := InState(c, Online).(earlySealed := []);
    EarlyKeepsHolding(online, config, c.earlySealed, clock);
    EarlyAppliesInOrder(online, config, c.earlySealed, clock, coming, high);
    assert Positions([]) + coming == coming;
  }

  lemma HelloAckAppliesInOrder(c: Conn, config: Config, ack: AckInfo, clock: nat -> Clock, coming: seq<nat>, high: nat)
    requires HoldsOnlyWithoutKeys(c, config)
    requires InOrder(c.journal.acked, Positions(c.earlySealed) + coming, high)
    ensures var c' := AfterHelloAck(c, config, ack, clock);
            HoldsOnlyWithoutKeys(c', config) && InOrder(c'.journal.acked, Positions(c'.earlySealed) + coming, high)
  {
    hide AfterHelloAck, AfterGoOnline, InOrder, Positions;
    HelloAckCases(c, config, ack, clock);
    if AcceptsAck(c, config, ack) {
      GoOnlineAppliesInOrder(Keyed(c, config, ack), config, clock, coming, high);
    }
  }

  lemma SealedFrameAppliesInOrder(c: Conn, config: Config, sealed: Sealed, clock: nat -> Clock, coming: seq<nat>, high: nat)
    requires HoldsOnlyWithoutKeys(c, config)
    requires InOrder(c.journal.acked, Positions(c.earlySealed) + Positions([sealed]) + coming, high)
    ensures var c' := AfterFrame(c, config, SealedFrame(sealed), clock);
            HoldsOnlyWithoutKeys(c', config) && InOrder(c'.journal.acked, Positions(c'.earlySealed) + coming, high)
  {
    if c.keys.Some? {
      assert Positions(c.earlySealed) + Positions([sealed]) + coming == Positions([sealed]) + coming;
      SealedAppliesInOrder(c, config, sealed, clock(0), coming, high);
      SealedKeepsHolding(c, config, sealed, clock(0));
      assert [] + coming == coming;
    } else {
      PositionsOfConcat(c.earlySealed, [sealed]);
      SkipMiddle(c.journal.acked, Positions(c.earlySealed), Positions([sealed]), coming, high);
    }
  }

  // What neither applies an acknowledgement nor adds to the held frames; it may forget them.
  ghost predicate Quiet(c: Conn, c': Conn, config: Config) {
    && HoldsOnlyWithoutKeys(c', config)
    && c'.journal.acked == c.journal.acked
    && (c'.earlySealed == c.earlySealed || c'.earlySealed == [])
  }

  lemma HelloIsQuiet(c: Conn, config: Config, hello: HelloInfo, secretKey: Bytes)
    requires HoldsOnlyWithoutKeys(c, config)
    ensures Quiet(c, AfterHello(c, config, hello, secretKey), config)
  {
  }

  lemma InboundIsQuiet(c: Conn, config: Config, index: nat, answer: Answer, clock: nat -> Clock)
    requires index < |c.inbound| && HoldsOnlyWithoutKeys(c, config)
    ensures Quiet(c, AfterInbound(c, config, index, answer, clock), config)
  {
    var rest := c.(inbound := c.inbound[..index] + c.inbound[index + 1..]);
    if c.inbound[index].Answering? {
      NothingHeld(rest, config, clock);
    }
  }

  lemma NothingHeld(c: Conn, config: Config, clock: nat -> Clock)
    requires c.earlySealed == []
    ensures AfterGoOnline(c, config, clock) == SentSealed(InState(c, Online), Resume(c.lastEventSequence))
  {
    assert InState(c, Online).(earlySealed := []) == InState(c, Online);
  }

  lemma HandshakeFrameIsQuiet(c: Conn, config: Config, frame: Frame, clock: nat -> Clock)
    requires HoldsOnlyWithoutKeys(c, config) && !frame.SealedFrame? && !frame.HelloAck?
    ensures Quiet(c, AfterFrame(c, config, frame, clock), config)
  {
    if frame.Hello? {
      HelloIsQuiet(c, config, frame.hello, clock(0).secretKey);
    }
  }

  lemma QuietAppliesInOrder(c: Conn, c': Conn, config: Config, coming: seq<nat>, high: nat)
    requires Quiet(c, c', config) && InOrder(c.journal.acked, Positions(c.earlySealed) + coming, high)
    ensures InOrder(c'.journal.acked, Positions(c'.earlySealed) + coming, high)
  {
    SkipFirst(c.journal.acked, Positions(c.earlySealed), coming, high);
    assert Positions([]) + coming == coming;
  }

  // A handshake frame leaves the order of what was held and what is still to come.
  lemma HandshakeFrameAppliesInOrder(c: Conn, config: Config, frame: Frame, clock: nat -> Clock, coming: seq<nat>, high: nat)
    requires HoldsOnlyWithoutKeys(c, config) && !frame.SealedFrame?
    requires InOrder(c.journal.acked, Positions(c.earlySealed) + coming, high)
    ensures var c' := AfterFrame(c, config, frame, clock);
            HoldsOnlyWithoutKeys(c', config) && InOrder(c'.journal.acked, Positions(c'.earlySealed) + coming, high)
  {
    hide AfterHelloAck, AfterSealed, InOrder;
    if frame.HelloAck? {
      HelloAckAppliesInOrder(c, config, frame.ack, clock, coming, high);
    } else {
      HandshakeFrameIsQuiet(c, config, frame, clock);
      QuietAppliesInOrder(c, AfterFrame(c, config, frame, clock), config, coming, high);
    }
  }
}
