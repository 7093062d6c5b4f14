/**
 Runs in which the sender emits no resync event: the positions on their way back never
 decrease and never fall behind an acknowledgement already applied, so a resume is refused
 only for an event that was evicted.
 */
module ResumeSafety {
  import opened Results
  import opened RemoteCrypto
  import opened EventJournal
  import opened RemoteConnection
  import opened EventDelivery
  import opened AckOrdering
  import opened EventLink

  ghost predicate NoResync(events: seq<RemoteEvent>) {
    forall e | e in events :: e.name != RESYNC
  }

  // The positions still on their way to `sender`: held before its keys existed, then queued.
  function Coming(l: Link, sender: End): seq<nat> {
    Positions(ConnOf(l, sender).earlySealed) + Queued(QueueTo(l, sender))
  }

  ghost predicate Ordered(l: Link, p: Configs, sender: End) {
    && HoldsOnlyWithoutKeys(ConnOf(l, sender), ConfigOf(p, sender))
    && InOrder(ConnOf(l, sender).journal.acked, Coming(l, sender), ConnOf(l, Other(sender)).lastEventSequence)
  }

  lemma {:induction false} SealedOfCarried(frames: seq<Frame>)
    ensures SealedOf(Carried(frames)) == SealedOf(frames)
  {
    if frames != [] {
      SealedOfCarried(frames[1..]);
      var rest := Carried(frames[1..]);
      if frames[0].SealedFrame? {
        assert Carried(frames) == [frames[0]] + rest && Carried(frames)[1..] == rest;
        assert SealedOf(Carried(frames)) == [frames[0].sealed] + SealedOf(rest);
      }
    }
  }

  lemma ReceivingReports(l: Link, p: Configs, action: Action)
    requires Healthy(l, p) && NoResync(ConnOf(l, Other(action.end)).journal.emitted) && action.Receive?
    ensures ReportsFrom(Acting(l, p, action), ConnOf(l, action.end).lastEventSequence)
  {
    hide AfterFrame, Genuine;
    var c, queue := ConnOf(l, action.end), QueueTo(l, action.end);
    assert HealthyAt(l, p, action.end);
    if queue != [] {
      assert queue[0] in queue;
      GenuineIsEmitted(ConnOf(l, Other(action.end)).journal.emitted);
      FrameReports(c, ConfigOf(p, action.end), queue[0], action.clocks, c.lastEventSequence);
    }
  }

  lemma AnsweringReports(l: Link, p: Configs, action: Action)
    requires Healthy(l, p) && NoResync(ConnOf(l, Other(action.end)).journal.emitted) && action.AnswerInbound?
    ensures ReportsFrom(Acting(l, p, action), ConnOf(l, action.end).lastEventSequence)
  {
    hide AfterInbound, Genuine;
    var c := ConnOf(l, action.end);
    assert HealthyAt(l, p, action.end);
    if action.index < |c.inbound| {
      GenuineIsEmitted(ConnOf(l, Other(action.end)).journal.emitted);
      InboundReports(c, ConfigOf(p, action.end), action.index, action.answer, action.clocks, c.lastEventSequence);
    }
  }

  lemma GenuineIsEmitted(peer: seq<RemoteEvent>)
    ensures forall e | Genuine(e, peer) :: e in peer
  {
  }

  lemma GreetingReports(c: Conn, config: Config, low: nat)
    requires ReportsFrom(c, low)
    ensures ReportsFrom(AfterSendHello(c, config), low)
  {
    if c.ephemeral.Some? {
      var hello := Frame.Hello(HelloOf(config, c.ephemeral.value));
      QueuedConcat(c.sent, [hello]);
      NothingQueued(hello);
    }
  }

  lemma SendingReports(l: Link, p: Configs, action: Action)
    requires Healthy(l, p) && (action.EmitEvent? || action.Redeliver? || action.ContinueReplay?)
    ensures ReportsFrom(Acting(l, p, action), ConnOf(l, action.end).lastEventSequence)
  {
    hide Step;
    var c, config := ConnOf(l, action.end), ConfigOf(p, action.end);
    var low := c.lastEventSequence;
    NothingReported(l, p, action.end);
    match action
    case EmitEvent(_, name, payload, clock) =>
      var op := Op.Emit(name, payload, clock.recordedAt, clock.now);
      SentSealedReports(c.(journal := Step(c.journal, op, config.bounds)),
                        Event(RemoteEvent(c.journal.log.sequence + 1, name, payload)), low);
    case Redeliver(_, index) =>
      if index < |c.journal.emitted| {
        SentSealedReports(c, Event(c.journal.emitted[index]), low);
      }
    case ContinueReplay(_, index) =>
      if index < |c.replays| && c.replays[index] != [] {
        SentSealedReports(c, Event(c.replays[index][0]), low);
      }
  }

  lemma NothingReported(l: Link, p: Configs, end: End)
    requires Healthy(l, p)
    ensures ConnOf(l, end).sent == [] && ReportsFrom(ConnOf(l, end), ConnOf(l, end).lastEventSequence)
  {
    hide Well;
    assert HealthyAt(l, p, end);
  }

  // The receiver's own part of any action reports positions from where it was onwards.
  lemma ActingReports(l: Link, p: Configs, action: Action)
    requires Healthy(l, p) && NoResync(ConnOf(l, Other(action.end)).journal.emitted)
    ensures ReportsFrom(Acting(l, p, action), ConnOf(l, action.end).lastEventSequence)
  {
    hide AfterFrame, AfterSendHello, AfterInbound, AfterEmit, AfterDeliver, AfterReplayStep, Healthy;
    var c, config := ConnOf(l, action.end), ConfigOf(p, action.end);
    NothingReported(l, p, action.end);
    match action
    case EmitEvent(_, _, _, _) => SendingReports(l, p, action);
    case Redeliver(_, _) => SendingReports(l, p, action);
    case ContinueReplay(_, _) => SendingReports(l, p, action);
    case Receive(_, _) => ReceivingReports(l, p, action);
    case SendHello(_) => GreetingReports(c, config, c.lastEventSequence);
    case FailConnect(_) =>
    case AnswerInbound(_, _, _, _) => AnsweringReports(l, p, action);
    case Connect(_, _) =>
    case CloseConnection(_) =>
    case LoseTransport(_) =>
    case Replace(_) =>
    case Lose(_, _) =>
    case Repeat(_, _, _) =>
    case RelayFrame(_, _) =>
  }

  lemma MorePositions(applied: set<nat>, coming: seq<nat>, more: seq<nat>, low: nat, high: nat)
    requires InOrder(applied, coming, low) && low <= high
    requires Sorted(more) && forall v | v in more :: low <= v <= high
    ensures InOrder(applied, coming + more, high)
  {
    var all := coming + more;
    forall i, j | 0 <= i < j < |all|
      ensures all[i] <= all[j]
    {
      if j < |coming| {
        assert all[i] == coming[i] && all[j] == coming[j];
      } else if i >= |coming| {
        assert all[i] == more[i - |coming|] && all[j] == more[j - |coming|];
      } else {
        assert all[i] in coming && all[j] in more;
      }
    }
  }

  lemma ReportsExtendOrdered(l: Link, l': Link, p: Configs, sender: End, sent: seq<Frame>)
    requires Ordered(l, p, sender) && ConnOf(l', sender) == ConnOf(l, sender)
    requires QueueTo(l', sender) == QueueTo(l, sender) + Carried(sent)
    requires var low, high := ConnOf(l, Other(sender)).lastEventSequence, ConnOf(l', Other(sender)).lastEventSequence;
             low <= high && Sorted(Queued(sent)) && forall v | v in Queued(sent) :: low <= v <= high
    ensures Ordered(l', p, sender)
  {
    hide Positions, SealedOf, Carried;
    SealedOfCarried(sent);
    QueuedConcat(QueueTo(l, sender), Carried(sent));
    assert Queued(Carried(sent)) == Queued(sent);
    assert Coming(l', sender) == Coming(l, sender) + Queued(sent);
    MorePositions(ConnOf(l, sender).journal.acked, Coming(l, sender), Queued(sent),
                  ConnOf(l, Other(sender)).lastEventSequence, ConnOf(l', Other(sender)).lastEventSequence);
  }

  // A step of the receiver puts its reports behind those already on their way.
  lemma ReceiverKeepsOrdered(l: Link, p: Configs, action: Action, sender: End)
    requires Healthy(l, p) && Ordered(l, p, sender) && action.end == Other(sender)
    requires NoResync(ConnOf(l, sender).journal.emitted)
    ensures Ordered(Next(l, p, action), p, sender)
  {
    hide Acting, Next, Ordered;
    NextParts(l, p, action);
    ActingReports(l, p, action);
    ReportsExtendOrdered(l, Next(l, p, action), p, sender, Acting(l, p, action).sent);
  }

  lemma SenderReceivesInOrder(l: Link, p: Configs, action: Action, sender: End)
    requires Ordered(l, p, sender) && action.end == sender && action.Receive?
    ensures var c' := Acting(l, p, action);
            && HoldsOnlyWithoutKeys(c', ConfigOf(p, action.end))
            && InOrder(c'.journal.acked, Positions(c'.earlySealed) + Queued(Remaining(l, action)),
                       ConnOf(l, Other(sender)).lastEventSequence)
  {
    var c, config, queue := ConnOf(l, sender), ConfigOf(p, sender), QueueTo(l, sender);
    var high := ConnOf(l, Other(sender)).lastEventSequence;
    if queue != [] {
      var rest := Queued(queue[1..]);
      if queue[0].SealedFrame? {
        var sealed := queue[0].sealed;
        assert SealedOf(queue) == [sealed] + SealedOf(queue[1..]);
        PositionsOfConcat([sealed], SealedOf(queue[1..]));
        assert Queued(queue) == Positions([sealed]) + rest;
        assert Coming(l, sender) == Positions(c.earlySealed) + Positions([sealed]) + rest;
        SealedFrameAppliesInOrder(c, config, sealed, action.clocks, rest, high);
      } else {
        assert SealedOf(queue) == SealedOf(queue[1..]);
        HandshakeFrameAppliesInOrder(c, config, queue[0], action.clocks, rest, high);
      }
    }
  }

  lemma LosingKeepsInOrder(l: Link, p: Configs, action: Action, sender: End)
    requires Ordered(l, p, sender) && action.end == sender && action.Lose?
    ensures InOrder(ConnOf(l, sender).journal.acked,
                    Positions(ConnOf(l, sender).earlySealed) + Queued(Remaining(l, action)),
                    ConnOf(l, Other(sender)).lastEventSequence)
  {
    hide InOrder, Queued, Positions;
    var c, queue := ConnOf(l, sender), QueueTo(l, sender);
    var high := ConnOf(l, Other(sender)).lastEventSequence;
    if action.index < |queue| {
      var before, lost, after := queue[..action.index], [queue[action.index]], queue[action.index + 1..];
      assert queue == before + (lost + after) && Remaining(l, action) == before + after;
      QueuedConcat(before, lost + after);
      QueuedConcat(lost, after);
      QueuedConcat(before, after);
      var head := Positions(c.earlySealed) + Queued(before);
      assert Coming(l, sender) == head + Queued(lost) + Queued(after);
      SkipMiddle(c.journal.acked, head, Queued(lost), Queued(after), high);
      assert head + Queued(after) == Positions(c.earlySealed) + Queued(Remaining(l, action));
    }
  }

  lemma RelayingKeepsQueued(l: Link, action: Action)
    requires action.RelayFrame?
    ensures Queued(Remaining(l, action)) == Queued(QueueTo(l, action.end))
  {
    QueuedConcat(QueueTo(l, action.end), [action.frame]);
    if !action.frame.SealedFrame? {
      NothingQueued(action.frame);
    }
  }

  // Any other step of the sender applies no acknowledgement; it may only forget held frames.
  lemma ActingElsewhere(l: Link, p: Configs, action: Action)
    requires HoldsOnlyWithoutKeys(ConnOf(l, action.end), ConfigOf(p, action.end)) && !action.Receive?
    ensures var c, c' := ConnOf(l, action.end), Acting(l, p, action);
            && HoldsOnlyWithoutKeys(c', ConfigOf(p, action.end))
            && c'.journal.acked == c.journal.acked
            && (c'.earlySealed == c.earlySealed || c'.earlySealed == [])
  {
    hide AfterInbound;
    if action.AnswerInbound? {
      var c := ConnOf(l, action.end);
      if action.index < |c.inbound| {
        InboundIsQuiet(c, ConfigOf(p, action.end), action.index, action.answer, action.clocks);
      }
    }
  }

  lemma SenderElsewhereKeepsInOrder(l: Link, p: Configs, action: Action, sender: End)
    requires Ordered(l, p, sender) && action.end == sender && !action.Receive? && !action.Lose? && !action.Repeat?
    ensures var c' := Acting(l, p, action);
            && HoldsOnlyWithoutKeys(c', ConfigOf(p, action.end))
            && InOrder(c'.journal.acked, Positions(c'.earlySealed) + Queued(Remaining(l, action)),
                       ConnOf(l, Other(sender)).lastEventSequence)
  {
    var c, c' := ConnOf(l, sender), Acting(l, p, action);
    var high := ConnOf(l, Other(sender)).lastEventSequence;
    var queued := Queued(QueueTo(l, sender));
    if action.RelayFrame? {
      RelayingKeepsQueued(l, action);
    } else {
      assert Remaining(l, action) == QueueTo(l, sender);
    }
    ActingElsewhere(l, p, action);
    SkipFirst(c.journal.acked, Positions(c.earlySealed), queued, high);
    assert Positions([]) + queued == queued;
  }

  lemma SenderKeepsOrdered(l: Link, p: Configs, action: Action, sender: End)
    requires Ordered(l, p, sender) && action.end == sender && !action.Repeat?
    ensures Ordered(Next(l, p, action), p, sender)
  {
    hide InOrder, Next, Positions, Queued;
    NextParts(l, p, action);
    if action.Receive? {
      SenderReceivesInOrder(l, p, action, sender);
    } else if action.Lose? {
      LosingKeepsInOrder(l, p, action, sender);
    } else {
      SenderElsewhereKeepsInOrder(l, p, action, sender);
    }
  }

  lemma {:induction false} RunIsOrdered(p: Configs, actions: seq<Action>, sender: End)
    requires InOrderDelivery(actions) && NoResync(ConnOf(RunLink(p, actions), sender).journal.emitted)
    ensures Ordered(RunLink(p, actions), p, sender)
    decreases |actions|
  {
    if actions != [] {
      var before, action := actions[..|actions| - 1], actions[|actions| - 1];
      var l := RunLink(p, before);
      RunIsHealthy(p, before);
      NextKeepsHealthy(l, p, action);
      assert ConnOf(l, sender).journal.emitted <= ConnOf(RunLink(p, actions), sender).journal.emitted;
      assert forall e | e in ConnOf(l, sender).journal.emitted :: e in ConnOf(RunLink(p, actions), sender).journal.emitted;
      RunIsOrdered(p, before, sender);
      if action.end == sender {
        SenderKeepsOrdered(l, p, action, sender);
      } else {
        ReceiverKeepsOrdered(l, p, action, sender);
      }
    }
  }

  // In every run that delivers in order, without a resync from `sender`, the acknowledgements and
  // resumes on their way to it never decrease and are never below one it has applied.
  lemma ReportsNeverDecrease(p: Configs, actions: seq<Action>, sender: End)
    requires InOrderDelivery(actions) && NoResync(ConnOf(RunLink(p, actions), sender).journal.emitted)
    ensures var l := RunLink(p, actions);
            && Sorted(Coming(l, sender))
            && forall n, v | n in ConnOf(l, sender).journal.acked && v in Coming(l, sender) :: n <= v
  {
    RunIsOrdered(p, actions, sender);
  }

  // A position that no acknowledgement has passed is refused only because of an eviction.
  lemma RefusedByEviction(h: History, b: Bounds, position: nat)
    requires Sound(h, b) && position <= |h.emitted|
    requires forall n | n in h.acked :: n <= position
    ensures ReplayAnswer(h.log, position).None? <==> exists n :: n in h.evicted && position < n
  {
    hide ReplayAnswer;
    ReplayExact(h, position, b);
    assert forall n :: n in Passed(h) && position < n <==> n in h.evicted && position < n;
  }

  // A reported position lies within what the sender has numbered.
  lemma ReportedPositionExists(l: Link, p: Configs, sender: End, position: nat)
    requires Healthy(l, p) && Ordered(l, p, sender) && position in Coming(l, sender)
    ensures position <= |ConnOf(l, sender).journal.emitted|
    ensures forall n | n in ConnOf(l, sender).journal.acked :: n <= position
  {
    hide Coming, SendsWell, Continuous, Deliveries;
    assert HealthyAt(l, p, Other(sender));
    var log := Deliveries(ConnOf(l, Other(sender)).notices);
    if log != [] {
      assert log[|log| - 1] in log;
    }
  }

  // Were a resume on its way answered now, it would be refused exactly if some event above
  // its position was evicted by count or age; acknowledgements never cause a refusal.
  lemma RefusedExactlyWhenEvicted(p: Configs, actions: seq<Action>, sender: End, position: nat, now: int)
    requires InOrderDelivery(actions) && NoResync(ConnOf(RunLink(p, actions), sender).journal.emitted)
    requires position in Coming(RunLink(p, actions), sender)
    ensures var bounds := ConfigOf(p, sender).bounds;
            var journal := Step(ConnOf(RunLink(p, actions), sender).journal, Query(now), bounds);
            ReplayAnswer(journal.log, position).None? <==> exists n :: n in journal.evicted && position < n
  {
    hide RunLink, Coming, Ordered, Evicted, ReplayAnswer, Sound;
    var l := RunLink(p, actions);
    var journal, bounds := ConnOf(l, sender).journal, ConfigOf(p, sender).bounds;
    RunIsHealthy(p, actions);
    assert HealthyAt(l, p, sender);
    RunIsOrdered(p, actions, sender);
    ReportedPositionExists(l, p, sender, position);
    StepKeepsSound(journal, Query(now), bounds);
    RefusedByEviction(Step(journal, Query(now), bounds), bounds, position);
  }
}
