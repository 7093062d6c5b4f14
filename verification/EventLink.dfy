/**
 Two connections joined by a forward and a reverse queue, as one step relation.

 Either end may initiate or accept, emit, replay, reconnect, be replaced by a new connection that
 resumes where the old one stopped, or lose its transport. Between them frames may be lost, duplicated
 or overtaken, and any plaintext handshake frame may arrive at any time. Each end keeps one event
 journal for the whole run.
 */
module EventLink {
  import opened Results
  import opened RemoteCrypto
  import opened EventJournal
  import opened RemoteConnection
  import opened EventDelivery
  import opened AckOrdering

  datatype End = Near | Far

  function Other(end: End): End {
    if end == Near then Far else Near
  }

  datatype Configs = Configs(near: Config, far: Config)

  function ConfigOf(p: Configs, end: End): Config {
    if end == Near then p.near else p.far
  }

  datatype Link = Link(near: Conn, far: Conn, toNear: seq<Frame>, toFar: seq<Frame>)

  function ConnOf(l: Link, end: End): Conn {
    if end == Near then l.near else l.far
  }

  function QueueTo(l: Link, end: End): seq<Frame> {
    if end == Near then l.toNear else l.toFar
  }

  function WithConn(l: Link, end: End, c: Conn): Link {
    if end == Near then l.(near := c) else l.(far := c)
  }

  function WithQueue(l: Link, end: End, queue: seq<Frame>): Link {
    if end == Near then l.(toNear := queue) else l.(toFar := queue)
  }

  datatype Action =
    | EmitEvent(end: End, name: string, payload: string, clock: Clock)
    | Redeliver(end: End, index: nat)
    | ContinueReplay(end: End, index: nat)
    | Receive(end: End, clocks: nat -> Clock)
    | AnswerInbound(end: End, index: nat, answer: Answer, clocks: nat -> Clock)
    | Lose(end: End, index: nat)
    | Repeat(end: End, index: nat, at: nat)
    | RelayFrame(end: End, frame: Frame)
    | Connect(end: End, ephemeral: KeyPair)
    | SendHello(end: End)
    | FailConnect(end: End)
    | CloseConnection(end: End)
    | LoseTransport(end: End)
    | Replace(end: End)

  // Sealed frames reach the other end; what becomes of handshake frames is left to `RelayFrame`.
  function Carried(frames: seq<Frame>): seq<Frame> {
    if frames == [] then []
    else if frames[0].SealedFrame? then [frames[0]] + Carried(frames[1..])
    else Carried(frames[1..])
  }

  function Settle(l: Link, end: End, c: Conn): Link {
    WithQueue(WithConn(l, end, c.(sent := [])), Other(end), QueueTo(l, Other(end)) + Carried(c.sent))
  }

  const START := Link(NewConn(0, EMPTY_HISTORY, []), NewConn(0, EMPTY_HISTORY, []), [], [])

  // The connection at `end` after its own part of `action`.
  function Acting(l: Link, p: Configs, action: Action): Conn {
    var c := ConnOf(l, action.end);
    var config := ConfigOf(p, action.end);
    match action
    case EmitEvent(_, name, payload, clock) => AfterEmit(c, config, name, payload, clock)
    case Redeliver(_, index) =>
      if index < |c.journal.emitted| then AfterDeliver(c, c.journal.emitted[index]) else c
    case ContinueReplay(_, index) => if index < |c.replays| then AfterReplayStep(c, index) else c
    case Receive(_, clocks) =>
      var queue := QueueTo(l, action.end);
      if queue == [] then c else AfterFrame(c, config, queue[0], clocks)
    case AnswerInbound(_, index, answer, clocks) =>
      if index < |c.inbound| then AfterInbound(c, config, index, answer, clocks) else c
    case Connect(_, ephemeral) => AfterConnect(c, ephemeral)
    case SendHello(_) => AfterSendHello(c, config)
    case FailConnect(_) => InState(c, Failed)
    case CloseConnection(_) => AfterClose(c)
    case LoseTransport(_) => AfterTransportClosed(c)
    case Replace(_) => NewConn(c.lastEventSequence, c.journal, c.notices)
    case Lose(_, _) => c
    case Repeat(_, _, _) => c
    case RelayFrame(_, _) => c
  }

  // The queue towards `action.end` after `action`.
  function Remaining(l: Link, action: Action): seq<Frame> {
    var queue := QueueTo(l, action.end);
    match action
    case Receive(_, _) => if queue == [] then [] else queue[1..]
    case Lose(_, index) => if index < |queue| then queue[..index] + queue[index + 1..] else queue
    // A copy turns up elsewhere: with a loss of the original, a frame that was overtaken.
    case Repeat(_, index, at) => if index < |queue| && at <= |queue| then queue[..at] + [queue[index]] + queue[at..] else queue
    case RelayFrame(_, frame) => if frame.SealedFrame? then queue else queue + [frame]
    case _ => queue
  }

  function Next(l: Link, p: Configs, action: Action): Link {
    Settle(WithQueue(l, action.end, Remaining(l, action)), action.end, Acting(l, p, action))
  }

  function RunLink(p: Configs, actions: seq<Action>): Link {
    if actions == [] then START
    else Next(RunLink(p, actions[..|actions| - 1]), p, actions[|actions| - 1])
  }

  // Frames may be lost but arrive once and in order, as over one transport.
  predicate InOrderDelivery(actions: seq<Action>) {
    forall i | 0 <= i < |actions| :: !actions[i].Repeat?
  }

  lemma NextParts(l: Link, p: Configs, action: Action)
    ensures var end, c', l' := action.end, Acting(l, p, action), Next(l, p, action);
            && ConnOf(l', end) == c'.(sent := [])
            && ConnOf(l', Other(end)) == ConnOf(l, Other(end))
            && QueueTo(l', end) == Remaining(l, action)
            && QueueTo(l', Other(end)) == QueueTo(l, Other(end)) + Carried(c'.sent)
  {
  }

  // What every run keeps, seen from each end.

  ghost predicate HealthyAt(l: Link, p: Configs, end: End) {
    var c, peer := ConnOf(l, end), ConnOf(l, Other(end));
    && Well(c, ConfigOf(p, end).bounds, 0, peer.journal.emitted)
    && c.sent == []
    && FramesGenuine(QueueTo(l, end), peer.journal.emitted)
  }

  ghost predicate Healthy(l: Link, p: Configs) {
    HealthyAt(l, p, Near) && HealthyAt(l, p, Far)
  }

  lemma {:induction false} CarriedMembers(frames: seq<Frame>)
    ensures forall f | f in Carried(frames) :: f in frames && f.SealedFrame?
  {
    if frames != [] {
      CarriedMembers(frames[1..]);
    }
  }

  lemma ReceivingKeepsWell(l: Link, p: Configs, action: Action)
    requires Healthy(l, p) && action.Receive?
    ensures var c, peer := ConnOf(l, action.end), ConnOf(l, Other(action.end));
            KeepsWell(c, Acting(l, p, action), ConfigOf(p, action.end).bounds, 0, peer.journal.emitted)
  {
    assert HealthyAt(l, p, action.end);
    var queue := QueueTo(l, action.end);
    if queue != [] {
      assert queue[0] in queue;
      FrameKeepsWell(ConnOf(l, action.end), ConfigOf(p, action.end), queue[0], action.clocks, 0,
                     ConnOf(l, Other(action.end)).journal.emitted);
    }
  }

  lemma NumberedIsGenuine(h: History, b: Bounds, index: nat)
    requires Sound(h, b) && index < |h.emitted|
    ensures Genuine(h.emitted[index], h.emitted)
  {
  }

  lemma SendingKeepsWell(l: Link, p: Configs, action: Action)
    requires Healthy(l, p) && (action.EmitEvent? || action.Redeliver? || action.ContinueReplay?)
    ensures var c, peer := ConnOf(l, action.end), ConnOf(l, Other(action.end));
            KeepsWell(c, Acting(l, p, action), ConfigOf(p, action.end).bounds, 0, peer.journal.emitted)
  {
    hide AfterEmit, AfterReplayStep, Continuous, Deliveries, SentSealed, ReplaysGenuine, Sound;
    var c, config := ConnOf(l, action.end), ConfigOf(p, action.end);
    var emitted := ConnOf(l, Other(action.end)).journal.emitted;
    assert HealthyAt(l, p, action.end);
    match action
    case EmitEvent(_, name, payload, clock) => EmitKeepsWell(c, config, name, payload, clock, 0, emitted);
    case Redeliver(_, index) =>
      if index < |c.journal.emitted| {
        NumberedIsGenuine(c.journal, config.bounds, index);
        SentSealedKeepsWell(c, Event(c.journal.emitted[index]), config.bounds, 0, emitted);
      }
    case ContinueReplay(_, index) =>
      if index < |c.replays| {
        ReplayStepKeepsWell(c, index, config.bounds, 0, emitted);
      }
  }

  lemma LifecycleKeepsWell(l: Link, p: Configs, action: Action)
    requires Healthy(l, p)
    requires action.Connect? || action.SendHello? || action.CloseConnection? || action.LoseTransport? || action.Replace?
             || action.AnswerInbound? || action.FailConnect?
    ensures var c, peer := ConnOf(l, action.end), ConnOf(l, Other(action.end));
            KeepsWell(c, Acting(l, p, action), ConfigOf(p, action.end).bounds, 0, peer.journal.emitted)
  {
    hide AfterInbound, AfterConnect, AfterSendHello, InState;
    var c, b := ConnOf(l, action.end), ConfigOf(p, action.end).bounds;
    var emitted := ConnOf(l, Other(action.end)).journal.emitted;
    assert HealthyAt(l, p, action.end);
    match action
    case Connect(_, ephemeral) => ConnectKeepsWell(c, ephemeral, b, 0, emitted);
    case SendHello(_) => SendHelloKeepsWell(c, ConfigOf(p, action.end), b, 0, emitted);
    case FailConnect(_) => InStateKeepsWell(c, Failed, b, 0, emitted);
    case AnswerInbound(_, index, answer, clocks) =>
      if index < |c.inbound| {
        InboundKeepsWell(c, ConfigOf(p, action.end), index, answer, clocks, 0, emitted);
      }
    case CloseConnection(_) => CloseKeepsWell(c, b, 0, emitted);
    case LoseTransport(_) => TransportClosedKeepsWell(c, b, 0, emitted);
    case Replace(_) =>
  }

  lemma ActingKeepsWell(l: Link, p: Configs, action: Action)
    requires Healthy(l, p)
    ensures var c, peer := ConnOf(l, action.end), ConnOf(l, Other(action.end));
            KeepsWell(c, Acting(l, p, action), ConfigOf(p, action.end).bounds, 0, peer.journal.emitted)
  {
    if action.Receive? {
      ReceivingKeepsWell(l, p, action);
    } else if action.EmitEvent? || action.Redeliver? || action.ContinueReplay? {
      SendingKeepsWell(l, p, action);
    } else if action.Lose? || action.Repeat? || action.RelayFrame? {
      assert HealthyAt(l, p, action.end);
    } else {
      LifecycleKeepsWell(l, p, action);
    }
  }

  lemma RemainingKeepsGenuine(l: Link, action: Action, emitted: seq<RemoteEvent>)
    requires FramesGenuine(QueueTo(l, action.end), emitted)
    ensures FramesGenuine(Remaining(l, action), emitted)
  {
    var queue := QueueTo(l, action.end);
    forall f | f in Remaining(l, action) && f.SealedFrame?
      ensures f in queue
    {
    }
  }

  lemma GenuineGrows(c: Conn, start: nat, queue: seq<Frame>, emitted: seq<RemoteEvent>, more: seq<RemoteEvent>)
    requires ReceivesWell(c, start, emitted) && FramesGenuine(queue, emitted) && emitted <= more
    ensures ReceivesWell(c, start, more) && FramesGenuine(queue, more)
  {
    MoreIsGenuine(c, start, emitted, more);
    assert forall e | Genuine(e, emitted) :: Genuine(e, more);
  }

  lemma NextKeepsHealthy(l: Link, p: Configs, action: Action)
    requires Healthy(l, p)
    ensures Healthy(Next(l, p, action), p)
    ensures forall end :: ConnOf(l, end).journal.emitted <= ConnOf(Next(l, p, action), end).journal.emitted
  {
    hide Next, Acting, Remaining, Sound, Continuous, Deliveries;
    NextParts(l, p, action);
    var end := action.end;
    var l' := Next(l, p, action);
    var c, peer := ConnOf(l, end), ConnOf(l, Other(end));
    var c' := Acting(l, p, action);
    assert HealthyAt(l, p, end) && HealthyAt(l, p, Other(end));
    ActingKeepsWell(l, p, action);
    RemainingKeepsGenuine(l, action, peer.journal.emitted);
    CarriedMembers(c'.sent);
    var queue := QueueTo(l, Other(end));
    GenuineGrows(peer, 0, queue, c.journal.emitted, c'.journal.emitted);
    forall f | f in queue + Carried(c'.sent) && f.SealedFrame?
      ensures GenuineSealed(f.sealed, c'.journal.emitted)
    {
    }
    assert HealthyAt(l', p, end);
    assert HealthyAt(l', p, Other(end));
  }

  lemma {:induction false} RunIsHealthy(p: Configs, actions: seq<Action>)
    ensures Healthy(RunLink(p, actions), p)
    decreases |actions|
  {
    if actions != [] {
      RunIsHealthy(p, actions[..|actions| - 1]);
      NextKeepsHealthy(RunLink(p, actions[..|actions| - 1]), p, actions[|actions| - 1]);
    }
  }

  // In every run the application at either end is given, between two resyncs, consecutive
  // events, each once and in order, and each is the event its sender gave that number.
  lemma DeliveryInEveryRun(p: Configs, actions: seq<Action>, end: End)
    ensures var l := RunLink(p, actions);
            var log := Deliveries(ConnOf(l, end).notices);
            && Continuous(0, log)
            && Position(0, log) == ConnOf(l, end).lastEventSequence
            && AllGenuine(log, ConnOf(l, Other(end)).journal.emitted)
  {
    RunIsHealthy(p, actions);
    assert HealthyAt(RunLink(p, actions), p, end);
  }
}
