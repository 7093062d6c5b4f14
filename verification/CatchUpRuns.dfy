/**
 Catching up in whole runs of the link: once a resume has been answered, and as long as both ends keep
 talking, the receiver gets past everything that was numbered when it was answered.
 */
module CatchUpRuns {
  import opened Results
  import opened RemoteCrypto
  import opened EventJournal
  import opened RemoteConnection
  import opened KeyEffects
  import opened EventDelivery
  import opened AckOrdering
  import opened EventLink
  import opened ResumeSafety
  import opened CatchUp

  // What both ends do while their transports and keys stay: nothing is lost, repeated or overtaken.
  predicate Calm(action: Action) {
    action.EmitEvent? || action.Redeliver? || action.ContinueReplay? || action.Receive?
  }

  // The events on their way in a queue.
  function EventsIn(frames: seq<Frame>): seq<RemoteEvent> {
    if frames == [] then []
    else (if frames[0].SealedFrame? && frames[0].sealed.inner.Event? then [frames[0].sealed.inner.event] else [])
         + EventsIn(frames[1..])
  }

  lemma {:induction false} EventsInJoined(a: seq<Frame>, b: seq<Frame>)
    ensures EventsIn(a + b) == EventsIn(a) + EventsIn(b)
    decreases |a|
  {
    if a == [] {
      assert a + b == b;
    } else {
      assert (a + b)[1..] == a[1..] + b;
      EventsInJoined(a[1..], b);
    }
  }

  lemma {:induction false} SealedAreCarried(frames: seq<Frame>)
    requires AllSealed(frames)
    ensures Carried(frames) == frames
    decreases |frames|
  {
    if frames != [] {
      assert frames[0] in frames && forall f | f in frames[1..] :: f in frames;
      SealedAreCarried(frames[1..]);
      assert frames == [frames[0]] + frames[1..];
    }
  }

  // Both ends hold mirrored keys, and all that is on its way is sealed under them.
  ghost predicate Talking(l: Link) {
    && l.near.keys.Some? && l.far.keys.Some? && Agree(l.near.keys.value, l.far.keys.value)
    && AllSealedUnder(l.toNear, l.near.keys.value.receiveKey)
    && AllSealedUnder(l.toFar, l.far.keys.value.receiveKey)
  }

  // One end

  // A calm step keeps the keys and seals all it sends under them.
  ghost predicate KeepsTalking(c: Conn, c': Conn) {
    c.keys.Some? && c'.keys == c.keys && AllSealedUnder(c'.sent, c.keys.value.sendKey)
  }

  lemma EventTalks(c: Conn, event: RemoteEvent)
    requires c.keys.Some? && c.sent == []
    ensures KeepsTalking(c, AfterEvent(c, event))
    ensures AfterEvent(c, event).replays == c.replays && EventsIn(AfterEvent(c, event).sent) == []
  {
  }

  lemma ReplayTalks(c: Conn, config: Config, after: nat, clock: Clock)
    requires c.keys.Some? && c.sent == []
    ensures KeepsTalking(c, AfterReplay(c, config, after, clock))
    ensures forall tail | tail in c.replays :: tail in AfterReplay(c, config, after, clock).replays
    ensures AfterReplay(c, config, after, clock).lastEventSequence == c.lastEventSequence
  {
    hide Step, ReplayAnswer;
    var asked := c.(journal := Step(c.journal, Query(clock.asked), config.bounds));
    var answer := ReplayAnswer(asked.journal.log, after);
    if answer.Some? {
      var replays := asked.replays + [answer.value];
      forall tail | tail in c.replays
        ensures tail in AfterReplay(c, config, after, clock).replays
      {
        var k :| 0 <= k < |c.replays| && c.replays[k] == tail;
        assert AfterReplay(c, config, after, clock).replays[k] == tail;
      }
    }
  }

  lemma ReadingTalks(c: Conn, config: Config, frame: Frame, clocks: nat -> Clock)
    requires c.keys.Some? && c.sent == [] && frame.SealedFrame? && frame.sealed.key == c.keys.value.receiveKey
    ensures var c' := AfterFrame(c, config, frame, clocks);
            && KeepsTalking(c, c')
            && (forall tail | tail in c.replays :: tail in c'.replays)
            && (frame.sealed.inner.Event? ==> c'.lastEventSequence == AfterEvent(c, frame.sealed.inner.event).lastEventSequence)
            && (!frame.sealed.inner.Event? ==> c'.lastEventSequence == c.lastEventSequence)
  {
    hide AfterEvent, AfterReplay, Step;
    match frame.sealed.inner
    case Event(event) => EventTalks(c, event);
    case Resume(after) => ReplayTalks(c, config, after, clocks(0));
    case Acknowledgement(_) =>
    case Request(_) =>
    case Response(_) =>
  }

  lemma SendingTalks(l: Link, p: Configs, action: Action)
    requires action.EmitEvent? || action.Redeliver? || action.ContinueReplay?
    requires ConnOf(l, action.end).keys.Some? && ConnOf(l, action.end).sent == []
    ensures KeepsTalking(ConnOf(l, action.end), Acting(l, p, action))
    ensures Acting(l, p, action).lastEventSequence == ConnOf(l, action.end).lastEventSequence
    ensures !action.ContinueReplay? ==> Acting(l, p, action).replays == ConnOf(l, action.end).replays
  {
    hide Step;
  }

  // What is left of a replay, if anything is.
  predicate Left(c: Conn, tail: seq<RemoteEvent>) {
    tail == [] || tail in c.replays
  }

  // The replay that is continued, and the others.
  lemma ContinuedMoves(c: Conn, index: nat)
    requires index < |c.replays| && c.keys.Some? && c.sent == [] && c.replays[index] != []
    ensures var c' := AfterReplayStep(c, index);
            c.replays[index][1..] in c'.replays && c.replays[index] == EventsIn(c'.sent) + c.replays[index][1..]
  {
    var c', rest := AfterReplayStep(c, index), c.replays[index];
    var frame := SealedFrame(Sealed(c.keys.value.sendKey, Event(rest[0])));
    assert c'.sent == [frame] && [frame][1..] == [];
    assert EventsIn([frame]) == [rest[0]];
    assert c'.replays[index] == rest[1..];
  }

  lemma OtherReplaysStay(c: Conn, index: nat, k: nat)
    requires index < |c.replays| && k < |c.replays| && k != index
    ensures c.replays[k] in AfterReplayStep(c, index).replays
  {
    var replays := AfterReplayStep(c, index).replays;
    if c.replays[index] == [] || c.keys.None? {
      assert replays[if k < index then k else k - 1] == c.replays[k];
    } else {
      assert replays[k] == c.replays[k];
    }
  }

  // Continuing a replay moves its next event from what is left to what is on its way.
  lemma ContinuingMoves(c: Conn, index: nat, tail: seq<RemoteEvent>) returns (tail': seq<RemoteEvent>)
    requires index < |c.replays| && c.keys.Some? && c.sent == [] && Left(c, tail)
    ensures var c' := AfterReplayStep(c, index);
            Left(c', tail') && (tail' == tail || tail == EventsIn(c'.sent) + tail')
  {
    hide AfterReplayStep, EventsIn;
    tail' := tail;
    if tail != [] {
      var k :| 0 <= k < |c.replays| && c.replays[k] == tail;
      if k == index {
        ContinuedMoves(c, index);
        tail' := tail[1..];
      } else {
        OtherReplaysStay(c, index, k);
      }
    }
  }

  // Subsequences

  lemma {:induction false} FewerStillFit(part: seq<RemoteEvent>, whole: seq<RemoteEvent>)
    requires part != [] && Subsequence(part, whole)
    ensures Subsequence(part[1..], whole)
    decreases |whole|
  {
    if part[0] == whole[0] && Subsequence(part[1..], whole[1..]) {
    } else {
      FewerStillFit(part, whole[1..]);
    }
  }

  lemma {:induction false} MoreInFront(part: seq<RemoteEvent>, front: seq<RemoteEvent>, whole: seq<RemoteEvent>)
    requires Subsequence(part, whole)
    ensures Subsequence(part, front + whole)
    decreases |front|
  {
    if front == [] {
      assert front + whole == whole;
    } else {
      MoreInFront(part, front[1..], whole);
      assert (front + whole)[1..] == front[1..] + whole;
    }
  }

  lemma {:induction false} MoreInBetween(
      part: seq<RemoteEvent>, front: seq<RemoteEvent>, more: seq<RemoteEvent>, back: seq<RemoteEvent>)
    requires Subsequence(part, front + back)
    ensures Subsequence(part, front + more + back)
    decreases |front|
  {
    if front == [] {
      assert front + back == back && front + more + back == more + back;
      MoreInFront(part, more, back);
    } else if part != [] {
      var whole, longer := front + back, front + more + back;
      assert whole[1..] == front[1..] + back && longer[1..] == front[1..] + more + back;
      if part[0] == whole[0] && Subsequence(part[1..], whole[1..]) {
        MoreInBetween(part[1..], front[1..], more, back);
      } else {
        MoreInBetween(part, front[1..], more, back);
      }
    }
  }

  lemma {:induction false} SuffixFits(whole: seq<RemoteEvent>, from: nat)
    requires from <= |whole|
    ensures Subsequence(whole[from..], whole)
    decreases |whole|
  {
    if from < |whole| {
      if from == 0 {
        SuffixFits(whole[1..], 0);
        assert whole[1..][0..] == whole[1..] && whole[0..] == whole;
      } else {
        SuffixFits(whole[1..], from - 1);
        assert whole[1..][from - 1..] == whole[from..];
      }
    }
  }

  // What is owed

  // The receiver is past `high`, or the events that it lacks up to there are on their way and in what is
  // left of a replay, in order.
  ghost predicate Owed(l: Link, sender: End, high: nat) {
    var c, position := ConnOf(l, sender), ConnOf(l, Other(sender)).lastEventSequence;
    high <= |c.journal.emitted| &&
    (position < high ==>
       exists tail :: Left(c, tail)
                      && Subsequence(c.journal.emitted[position..high], EventsIn(QueueTo(l, Other(sender))) + tail))
  }

  // The sender adds to what is on its way.
  lemma SendingKeepsOwed(l: Link, l': Link, sender: End, high: nat, sent: seq<Frame>, tail: seq<RemoteEvent>, tail': seq<RemoteEvent>)
    requires var c, position := ConnOf(l, sender), ConnOf(l, Other(sender)).lastEventSequence;
             && position < high <= |c.journal.emitted|
             && Subsequence(c.journal.emitted[position..high], EventsIn(QueueTo(l, Other(sender))) + tail)
    requires ConnOf(l', Other(sender)) == ConnOf(l, Other(sender)) && Left(ConnOf(l', sender), tail')
    requires ConnOf(l, sender).journal.emitted <= ConnOf(l', sender).journal.emitted
    requires QueueTo(l', Other(sender)) == QueueTo(l, Other(sender)) + sent
    requires tail' == tail || tail == EventsIn(sent) + tail'
    ensures Owed(l', sender, high)
  {
    var c, position := ConnOf(l, sender), ConnOf(l, Other(sender)).lastEventSequence;
    var part, flying := c.journal.emitted[position..high], EventsIn(QueueTo(l, Other(sender)));
    EventsInJoined(QueueTo(l, Other(sender)), sent);
    assert ConnOf(l', sender).journal.emitted[position..high] == part;
    if tail' == tail {
      MoreInBetween(part, flying, EventsIn(sent), tail);
    } else {
      assert flying + tail == flying + EventsIn(sent) + tail';
    }
    assert Subsequence(part, EventsIn(QueueTo(l', Other(sender))) + tail');
  }

  // The receiver takes the next event off the way, if it is the one it waits for.
  lemma ReadingKeepsOwed(emitted: seq<RemoteEvent>, c: Conn, event: RemoteEvent, high: nat, flying: seq<RemoteEvent>)
    requires Numbered(emitted) && Genuine(event, emitted) && event.name != RESYNC
    requires c.lastEventSequence < high <= |emitted|
    requires Subsequence(emitted[c.lastEventSequence..high], [event] + flying)
    ensures var position' := AfterEvent(c, event).lastEventSequence;
            position' < high ==> Subsequence(emitted[position'..high], flying)
  {
    var position := c.lastEventSequence;
    var part := emitted[position..high];
    EventDelivers(c, event);
    assert ([event] + flying)[1..] == flying && part[0] == emitted[position];
    assert part[1..] == emitted[position + 1..high];
    if event.sequence == position + 1 {
      if !Subsequence(part[1..], flying) {
        FewerStillFit(part, flying);
      }
    }
  }

  // Calm steps

  lemma CalmSends(l: Link, p: Configs, action: Action)
    requires Healthy(l, p) && Talking(l) && Calm(action)
    ensures KeepsTalking(ConnOf(l, action.end), Acting(l, p, action))
  {
    hide AfterFrame, AfterEmit, AfterDeliver, AfterReplayStep, Well;
    assert HealthyAt(l, p, action.end);
    var queue := QueueTo(l, action.end);
    if action.Receive? {
      if queue != [] {
        assert queue[0] in queue;
        ReadingTalks(ConnOf(l, action.end), ConfigOf(p, action.end), queue[0], action.clocks);
      }
    } else {
      SendingTalks(l, p, action);
    }
  }

  lemma SentIsCarried(c: Conn, c': Conn)
    requires KeepsTalking(c, c')
    ensures Carried(c'.sent) == c'.sent
  {
    SealedAreCarried(c'.sent);
  }

  lemma CalmKeepsTalking(l: Link, p: Configs, action: Action)
    requires Healthy(l, p) && Talking(l) && Calm(action)
    ensures Talking(Next(l, p, action))
  {
    hide Acting, Next, Healthy, Remaining, Carried;
    var c, c' := ConnOf(l, action.end), Acting(l, p, action);
    NextParts(l, p, action);
    CalmSends(l, p, action);
    SentIsCarried(c, c');
    RemainingIsLess(l, action);
    var l', end := Next(l, p, action), action.end;
    assert forall f | f in QueueTo(l, Other(end)) + c'.sent :: f in QueueTo(l, Other(end)) || f in c'.sent;
    assert ConnOf(l', end).keys == c.keys && ConnOf(l', Other(end)).keys == ConnOf(l, Other(end)).keys;
  }

  lemma RemainingIsLess(l: Link, action: Action)
    requires Calm(action)
    ensures forall f | f in Remaining(l, action) :: f in QueueTo(l, action.end)
    ensures !action.Receive? ==> Remaining(l, action) == QueueTo(l, action.end)
  {
  }

  lemma SenderKeepsOwed(l: Link, p: Configs, action: Action, sender: End, high: nat)
    requires Healthy(l, p) && Talking(l) && Calm(action) && action.end == sender && Owed(l, sender, high)
    ensures Owed(Next(l, p, action), sender, high)
  {
    hide Next, Acting, Healthy, Talking, Carried, EventsIn, AfterReplayStep, Subsequence;
    var c, c', l' := ConnOf(l, sender), Acting(l, p, action), Next(l, p, action);
    NextParts(l, p, action);
    NextKeepsHealthy(l, p, action);
    CalmSends(l, p, action);
    SentIsCarried(c, c');
    assert c.journal.emitted <= ConnOf(l', sender).journal.emitted;
    var position := ConnOf(l, Other(sender)).lastEventSequence;
    if position < high {
      var tail :| Left(c, tail)
                  && Subsequence(c.journal.emitted[position..high], EventsIn(QueueTo(l, Other(sender))) + tail);
      var tail' := TailAfter(l, p, action, tail);
      SendingKeepsOwed(l, l', sender, high, c'.sent, tail, tail');
    }
  }

  // What is left after a step of the sender.
  lemma TailAfter(l: Link, p: Configs, action: Action, tail: seq<RemoteEvent>) returns (tail': seq<RemoteEvent>)
    requires Healthy(l, p) && Talking(l) && Calm(action) && Left(ConnOf(l, action.end), tail)
    ensures var c' := Acting(l, p, action);
            Left(c'.(sent := []), tail') && (tail' == tail || tail == EventsIn(c'.sent) + tail')
  {
    hide AfterFrame, AfterEmit, AfterDeliver, AfterReplayStep, Well, EventsIn;
    var c, queue := ConnOf(l, action.end), QueueTo(l, action.end);
    assert HealthyAt(l, p, action.end);
    tail' := tail;
    if action.Receive? {
      if queue != [] {
        assert queue[0] in queue;
        ReadingTalks(c, ConfigOf(p, action.end), queue[0], action.clocks);
      }
    } else if action.ContinueReplay? {
      if action.index < |c.replays| {
        tail' := ContinuingMoves(c, action.index, tail);
      }
    } else {
      SendingTalks(l, p, action);
    }
  }

  lemma ReceiverKeepsOwed(l: Link, p: Configs, action: Action, sender: End, high: nat)
    requires Healthy(l, p) && Talking(l) && Calm(action) && action.end == Other(sender) && Owed(l, sender, high)
    requires NoResync(ConnOf(l, sender).journal.emitted)
    ensures Owed(Next(l, p, action), sender, high)
  {
    hide Next, Acting, Carried, AfterFrame, AfterEvent, Subsequence, Well;
    var r := Other(sender);
    var c, queue, emitted := ConnOf(l, r), QueueTo(l, r), ConnOf(l, sender).journal.emitted;
    NextParts(l, p, action);
    var position, position' := c.lastEventSequence, Acting(l, p, action).lastEventSequence;
    assert HealthyAt(l, p, r) && HealthyAt(l, p, sender);
    if !action.Receive? || queue == [] {
      ReceiverStays(l, p, action);
    } else {
      ReceiverReads(l, p, action, sender);
      if position < high {
        var tail :| Left(ConnOf(l, sender), tail) && Subsequence(emitted[position..high], EventsIn(queue) + tail);
        if queue[0].sealed.inner.Event? {
          var event := queue[0].sealed.inner.event;
          assert EventsIn(queue) + tail == [event] + (EventsIn(queue[1..]) + tail);
          SenderNumbers(l, p, sender);
          ReadingKeepsOwed(emitted, c, event, high, EventsIn(queue[1..]) + tail);
        } else {
          assert [] + EventsIn(queue[1..]) == EventsIn(queue[1..]);
        }
      } else if queue[0].sealed.inner.Event? {
        EventDelivers(c, queue[0].sealed.inner.event);
      }
    }
  }

  lemma SenderNumbers(l: Link, p: Configs, sender: End)
    requires Healthy(l, p)
    ensures Numbered(ConnOf(l, sender).journal.emitted)
  {
    assert HealthyAt(l, p, sender);
  }

  lemma ReceiverStays(l: Link, p: Configs, action: Action)
    requires Healthy(l, p) && Talking(l) && Calm(action) && (!action.Receive? || QueueTo(l, action.end) == [])
    ensures Acting(l, p, action).lastEventSequence == ConnOf(l, action.end).lastEventSequence
    ensures Remaining(l, action) == QueueTo(l, action.end)
  {
    hide Well, AfterFrame;
    assert HealthyAt(l, p, action.end);
    if !action.Receive? {
      SendingTalks(l, p, action);
    }
  }

  lemma ReceiverReads(l: Link, p: Configs, action: Action, sender: End)
    requires Healthy(l, p) && Talking(l) && action.Receive? && action.end == Other(sender) && QueueTo(l, action.end) != []
    requires NoResync(ConnOf(l, sender).journal.emitted)
    ensures var c, head := ConnOf(l, action.end), QueueTo(l, action.end)[0];
            && head.SealedFrame? && Remaining(l, action) == QueueTo(l, action.end)[1..]
            && Acting(l, p, action).lastEventSequence ==
               (if head.sealed.inner.Event? then AfterEvent(c, head.sealed.inner.event).lastEventSequence else c.lastEventSequence)
            && (head.sealed.inner.Event? ==>
                  Genuine(head.sealed.inner.event, ConnOf(l, sender).journal.emitted) && head.sealed.inner.event.name != RESYNC)
  {
    hide Well, AfterFrame, AfterEvent;
    var c, queue := ConnOf(l, action.end), QueueTo(l, action.end);
    assert HealthyAt(l, p, action.end) && queue[0] in queue;
    ReadingTalks(c, ConfigOf(p, action.end), queue[0], action.clocks);
  }

  // Runs

  // The next action of `sender` reads a resume from `position` and answers it without a refusal.
  ghost predicate Answers(l: Link, p: Configs, action: Action, position: nat) {
    && action.Receive? && QueueTo(l, action.end) != []
    && QueueTo(l, action.end)[0].SealedFrame? && QueueTo(l, action.end)[0].sealed.inner == Resume(position)
    && var c := ConnOf(l, action.end);
       ReplayAnswer(Step(c.journal, Query(action.clocks(0).asked), ConfigOf(p, action.end).bounds).log, position).Some?
  }

  lemma AnswerIsExact(h: History, b: Bounds, now: int, position: nat)
    requires Sound(h, b) && ReplayAnswer(Step(h, Query(now), b).log, position).Some?
    ensures position <= |h.emitted|
    ensures ReplayAnswer(Step(h, Query(now), b).log, position).value == h.emitted[position..]
  {
    hide Sound, ReplayAnswer, Evicted;
    StepKeepsSound(h, Query(now), b);
    ReplayExact(Step(h, Query(now), b), position, b);
  }

  // The answer leaves the sender with the rest of a replay, its first event on its way.
  lemma AnswerIsLeft(c: Conn, config: Config, position: nat, clock: Clock) returns (tail: seq<RemoteEvent>)
    requires c.keys.Some? && c.sent == [] && Sound(c.journal, config.bounds)
    requires ReplayAnswer(Step(c.journal, Query(clock.asked), config.bounds).log, position).Some?
    ensures position <= |c.journal.emitted|
    ensures var c' := AfterReplay(c, config, position, clock);
            && c'.journal.emitted == c.journal.emitted
            && Left(c', tail) && c.journal.emitted[position..] == EventsIn(c'.sent) + tail
  {
    hide ReplayAnswer, Evicted, Sound;
    AnswerIsExact(c.journal, config.bounds, clock.asked, position);
    var events := c.journal.emitted[position..];
    var asked := c.(journal := Step(c.journal, Query(clock.asked), config.bounds));
    var replaying := asked.(replays := asked.replays + [events]);
    var c' := AfterReplay(c, config, position, clock);
    assert c' == AfterReplayStep(replaying, |asked.replays|);
    if events == [] {
      tail := [];
      assert c'.sent == [];
    } else {
      tail := events[1..];
      assert c'.replays[|asked.replays|] == tail;
      var frame := SealedFrame(Sealed(c.keys.value.sendKey, Event(events[0])));
      assert c'.sent == [frame] && [frame][1..] == [];
      assert EventsIn([frame]) == [events[0]];
    }
  }

  lemma AnswersReplay(l: Link, p: Configs, action: Action, position: nat) returns (tail: seq<RemoteEvent>)
    requires Healthy(l, p) && Talking(l) && Answers(l, p, action, position)
    ensures var c, c' := ConnOf(l, action.end), Acting(l, p, action);
            && position <= |c.journal.emitted| && c'.journal.emitted == c.journal.emitted
            && Left(c', tail) && c.journal.emitted[position..] == EventsIn(c'.sent) + tail
  {
    hide ReplayAnswer, AfterReplay, Step, EventsIn, ReceivesWell;
    var c, config, queue := ConnOf(l, action.end), ConfigOf(p, action.end), QueueTo(l, action.end);
    assert HealthyAt(l, p, action.end) && queue[0] in queue;
    tail := AnswerIsLeft(c, config, position, action.clocks(0));
  }

  lemma SuffixStillFits(answer: seq<RemoteEvent>, from: nat, flying: seq<RemoteEvent>, sent: seq<RemoteEvent>, tail: seq<RemoteEvent>)
    requires from <= |answer| && answer == sent + tail
    ensures Subsequence(answer[from..], flying + sent + tail)
  {
    hide Subsequence;
    SuffixFits(answer, from);
    MoreInFront(answer[from..], flying, answer);
    assert flying + answer == flying + sent + tail;
  }

  // From then on everything numbered up to the answer is owed.
  lemma AnsweringOwes(l: Link, p: Configs, action: Action, position: nat)
    requires Healthy(l, p) && Talking(l) && Answers(l, p, action, position)
    requires position <= ConnOf(l, Other(action.end)).lastEventSequence
    ensures Owed(Next(l, p, action), action.end, |ConnOf(l, action.end).journal.emitted|)
  {
    hide Next, Acting, Carried, Answers, Talking, Healthy, EventsIn, Subsequence;
    var sender := action.end;
    var c, l', c' := ConnOf(l, sender), Next(l, p, action), Acting(l, p, action);
    NextParts(l, p, action);
    AnswersIsCalm(l, p, action, position);
    CalmSends(l, p, action);
    SentIsCarried(c, c');
    var tail := AnswersReplay(l, p, action, position);
    var high, at := |c.journal.emitted|, ConnOf(l, Other(sender)).lastEventSequence;
    if at < high {
      var answer, flying := c.journal.emitted[position..], EventsIn(QueueTo(l, Other(sender)));
      EventsInJoined(QueueTo(l, Other(sender)), c'.sent);
      SuffixStillFits(answer, at - position, flying, EventsIn(c'.sent), tail);
      assert answer[at - position..] == c.journal.emitted[at..high];
      assert Left(ConnOf(l', sender), tail);
    }
  }

  lemma {:induction false} CalmRunOwes(p: Configs, actions: seq<Action>, sender: End, high: nat, more: seq<Action>)
    requires forall k | 0 <= k < |more| :: Calm(more[k])
    requires var l := RunLink(p, actions); Talking(l) && Owed(l, sender, high)
    requires NoResync(ConnOf(RunLink(p, actions + more), sender).journal.emitted)
    ensures Talking(RunLink(p, actions + more)) && Owed(RunLink(p, actions + more), sender, high)
    decreases |more|
  {
    hide Next, Talking, Owed, Healthy, Calm;
    if more == [] {
      assert actions + more == actions;
    } else {
      var init, last := more[..|more| - 1], more[|more| - 1];
      var l := RunLink(p, actions + init);
      assert (actions + more)[..|actions + more| - 1] == actions + init;
      RunIsHealthy(p, actions + init);
      NextKeepsHealthy(l, p, last);
      NoResyncBefore(ConnOf(l, sender).journal.emitted, ConnOf(Next(l, p, last), sender).journal.emitted);
      CalmRunOwes(p, actions, sender, high, init);
      CalmKeepsTalking(l, p, last);
      if last.end == sender {
        SenderKeepsOwed(l, p, last, sender, high);
      } else {
        ReceiverKeepsOwed(l, p, last, sender, high);
      }
    }
  }

  lemma NoResyncBefore(emitted: seq<RemoteEvent>, more: seq<RemoteEvent>)
    requires emitted <= more && NoResync(more)
    ensures NoResync(emitted)
  {
    assert forall e | e in emitted :: e in more;
  }

  // In every run that delivers in order and without a resync from the sender: once a resume has been
  // answered without a refusal and both ends go on talking, then, when no replay is left and the
  // receiver has read all that was sent to it, it has got at least as far as the sender had numbered
  // when it answered.
  lemma CatchesUpInEveryRun(p: Configs, before: seq<Action>, answer: Action, position: nat, more: seq<Action>)
    requires InOrderDelivery(before) && Talking(RunLink(p, before)) && Answers(RunLink(p, before), p, answer, position)
    requires forall k | 0 <= k < |more| :: Calm(more[k])
    requires NoResync(ConnOf(RunLink(p, before + [answer] + more), answer.end).journal.emitted)
    ensures var l := RunLink(p, before + [answer] + more);
            ConnOf(l, answer.end).replays == [] && QueueTo(l, Other(answer.end)) == [] ==>
              ConnOf(l, Other(answer.end)).lastEventSequence >= |ConnOf(RunLink(p, before), answer.end).journal.emitted|
  {
    hide Next, Talking, Owed, Healthy, Answers, Ordered;
    var l0, sender := RunLink(p, before), answer.end;
    var answered := before + [answer];
    assert answered[..|answered| - 1] == before;
    RunIsHealthy(p, before);
    EmittedGrows(p, answered, more, sender);
    NextKeepsHealthy(l0, p, answer);
    NoResyncBefore(ConnOf(RunLink(p, answered), sender).journal.emitted, ConnOf(RunLink(p, answered + more), sender).journal.emitted);
    NoResyncBefore(ConnOf(l0, sender).journal.emitted, ConnOf(RunLink(p, answered), sender).journal.emitted);
    RunIsOrdered(p, before, sender);
    AskedFromBehind(l0, p, answer, position);
    AnswersIsCalm(l0, p, answer, position);
    AnsweringOwes(l0, p, answer, position);
    CalmKeepsTalking(l0, p, answer);
    CalmRunOwes(p, answered, sender, |ConnOf(l0, sender).journal.emitted|, more);
    NothingOwed(RunLink(p, answered + more), sender, |ConnOf(l0, sender).journal.emitted|);
  }

  lemma {:induction false} EmittedGrows(p: Configs, actions: seq<Action>, more: seq<Action>, end: End)
    ensures ConnOf(RunLink(p, actions), end).journal.emitted <= ConnOf(RunLink(p, actions + more), end).journal.emitted
    decreases |more|
  {
    hide Next, Healthy;
    if more == [] {
      assert actions + more == actions;
    } else {
      var init := more[..|more| - 1];
      assert (actions + more)[..|actions + more| - 1] == actions + init;
      EmittedGrows(p, actions, init, end);
      RunIsHealthy(p, actions + init);
      NextKeepsHealthy(RunLink(p, actions + init), p, more[|more| - 1]);
    }
  }

  lemma AnswersIsCalm(l: Link, p: Configs, action: Action, position: nat)
    requires Answers(l, p, action, position)
    ensures Calm(action)
  {
  }

  // A resume on its way asks for nothing that the receiver had not reached.
  lemma AskedFromBehind(l: Link, p: Configs, action: Action, position: nat)
    requires Ordered(l, p, action.end) && Answers(l, p, action, position)
    ensures position <= ConnOf(l, Other(action.end)).lastEventSequence
  {
    hide ReplayAnswer, Step;
    var queue := QueueTo(l, action.end);
    var sealed := queue[0].sealed;
    assert SealedOf(queue) == [sealed] + SealedOf(queue[1..]);
    PositionsOfConcat([sealed], SealedOf(queue[1..]));
    assert [sealed][1..] == [] && Positions([sealed]) == [position];
    assert position in Coming(l, action.end);
  }

  lemma NothingOwed(l: Link, sender: End, high: nat)
    requires Owed(l, sender, high)
    ensures ConnOf(l, sender).replays == [] && QueueTo(l, Other(sender)) == [] ==>
              ConnOf(l, Other(sender)).lastEventSequence >= high
  {
  }
}
