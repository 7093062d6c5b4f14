/**
 Resumes that are refused, in whole runs of the link: the sender numbers a resync and sends it, and the
 receiver is given it as soon as it has read what was on its way.
 */
module RefusedResume {
  import opened Results
  import opened RemoteCrypto
  import opened EventJournal
  import opened RemoteConnection
  import opened KeyEffects
  import opened EventDelivery
  import opened EventLink
  import opened CatchUp
  import opened CatchUpRuns
  import opened FrameOutcomes

  // The next action of `sender` reads a resume from `position` and refuses it.
  ghost predicate Refuses(l: Link, p: Configs, action: Action, position: nat) {
    && action.Receive? && QueueTo(l, action.end) != []
    && QueueTo(l, action.end)[0].SealedFrame? && QueueTo(l, action.end)[0].sealed.inner == Resume(position)
    && var c := ConnOf(l, action.end);
       ReplayAnswer(Step(c.journal, Query(action.clocks(0).asked), ConfigOf(p, action.end).bounds).log, position).None?
  }

  // The next number of a sender, as a resync.
  function NextResync(l: Link, sender: End): RemoteEvent {
    RemoteEvent(|ConnOf(l, sender).journal.emitted| + 1, RESYNC, "")
  }

  // The resync is on its way to `receiver`.
  ghost predicate Flying(l: Link, receiver: End, resync: RemoteEvent) {
    exists i | 0 <= i < |QueueTo(l, receiver)| ::
      QueueTo(l, receiver)[i].SealedFrame? && QueueTo(l, receiver)[i].sealed.inner == Event(resync)
  }

  // The last event that the application was given is the resync, and the receiver stands at its number.
  ghost predicate HasJustGot(c: Conn, resync: RemoteEvent) {
    && Deliveries(c.notices) != [] && Deliveries(c.notices)[|Deliveries(c.notices)| - 1] == resync
    && c.lastEventSequence == resync.sequence && c.state != Recovering
  }

  // A refusal numbers the resync and puts it on its way.
  lemma RefusingSends(l: Link, p: Configs, action: Action, position: nat)
    requires Healthy(l, p) && Talking(l) && Refuses(l, p, action, position) && ConnOf(l, action.end).state == Online
    ensures
      var l', resync := Next(l, p, action), NextResync(l, action.end);
      && ConnOf(l', action.end).journal.emitted == ConnOf(l, action.end).journal.emitted + [resync]
      && Flying(l', Other(action.end), resync)
  {
    hide Next, Acting, Carried, AfterFrame, Well, Step, ReplayAnswer;
    var sender, resync := action.end, NextResync(l, action.end);
    var c, queue, l' := ConnOf(l, sender), QueueTo(l, sender), Next(l, p, action);
    assert HealthyAt(l, p, sender) && queue[0] in queue;
    assert queue[0] == Arriving(c, Resume(position));
    ResumeOutcome(c, ConfigOf(p, sender), position, action.clocks);
    SequenceIsCount(l, p, sender);
    NextParts(l, p, action);
    CalmSends(l, p, action);
    SentIsCarried(c, Acting(l, p, action));
    ActsByReading(l, p, action);
    var towards := QueueTo(l', Other(sender));
    assert towards[|towards| - 1] == Departing(c, Event(resync));
  }

  lemma ActsByReading(l: Link, p: Configs, action: Action)
    requires action.Receive? && QueueTo(l, action.end) != []
    ensures Acting(l, p, action) ==
            AfterFrame(ConnOf(l, action.end), ConfigOf(p, action.end), QueueTo(l, action.end)[0], action.clocks)
  {
  }

  lemma SequenceIsCount(l: Link, p: Configs, end: End)
    requires Healthy(l, p)
    ensures ConnOf(l, end).journal.log.sequence == |ConnOf(l, end).journal.emitted|
  {
    assert HealthyAt(l, p, end);
  }

  // The resync stays on its way until the receiver reads it.
  lemma FlyingOrGot(l: Link, p: Configs, action: Action, receiver: End, resync: RemoteEvent)
    requires Healthy(l, p) && Talking(l) && Calm(action) && Flying(l, receiver, resync) && resync.name == RESYNC
    ensures Flying(Next(l, p, action), receiver, resync) || HasJustGot(ConnOf(Next(l, p, action), receiver), resync)
  {
    hide Next, Acting, Carried, AfterFrame, Well, Healthy;
    var queue := QueueTo(l, receiver);
    var i :| 0 <= i < |queue| && queue[i].SealedFrame? && queue[i].sealed.inner == Event(resync);
    NextParts(l, p, action);
    var queue' := QueueTo(Next(l, p, action), receiver);
    if action.end != receiver {
      assert queue'[i] == queue[i];
    } else if !action.Receive? {
      RemainingIsLess(l, action);
      assert queue'[i] == queue[i];
    } else if i > 0 {
      assert queue' == queue[1..] && queue'[i - 1] == queue[i];
    } else {
      ActsByReading(l, p, action);
      ReadingResyncGets(ConnOf(l, receiver), ConfigOf(p, receiver), resync, action.clocks);
      assert queue[0] in queue;
      assert queue[0] == Arriving(ConnOf(l, receiver), Event(resync));
    }
  }

  lemma ReadingResyncGets(c: Conn, config: Config, resync: RemoteEvent, clock: nat -> Clock)
    requires c.keys.Some? && resync.name == RESYNC
    ensures HasJustGot(AfterFrame(c, config, Arriving(c, Event(resync)), clock), resync)
  {
    hide Deliveries;
    EventOutcome(c, config, resync, clock);
    ResyncDelivers(c, resync);
  }

  // How far a run has got, and what is left of it.
  lemma OneMore(actions: seq<Action>, more: seq<Action>)
    requires more != []
    ensures (actions + more)[..|actions + more| - 1] == actions + more[..|more| - 1]
    ensures (actions + more)[|actions + more| - 1] == more[|more| - 1]
  {
  }

  lemma {:induction false} FlyingUntilGot(p: Configs, actions: seq<Action>, receiver: End, resync: RemoteEvent, more: seq<Action>)
    requires forall k | 0 <= k < |more| :: Calm(more[k])
    requires Talking(RunLink(p, actions)) && Flying(RunLink(p, actions), receiver, resync) && resync.name == RESYNC
    ensures Talking(RunLink(p, actions + more))
    ensures || Flying(RunLink(p, actions + more), receiver, resync)
            || exists k: nat :: k <= |more| && HasJustGot(ConnOf(RunLink(p, actions + more[..k]), receiver), resync)
    decreases |more|
  {
    hide Next, Talking, Flying, HasJustGot, Healthy, Calm;
    if more == [] {
      assert actions + more == actions;
    } else {
      var init, last := more[..|more| - 1], more[|more| - 1];
      var l := RunLink(p, actions + init);
      OneMore(actions, more);
      RunIsHealthy(p, actions + init);
      FlyingUntilGot(p, actions, receiver, resync, init);
      CalmKeepsTalking(l, p, last);
      if Flying(l, receiver, resync) {
        FlyingOrGot(l, p, last, receiver, resync);
        assert more[..|more|] == more;
      } else {
        var k: nat :| k <= |init| && HasJustGot(ConnOf(RunLink(p, actions + init[..k]), receiver), resync);
        assert more[..k] == init[..k];
      }
    }
  }

  // In every run in which an online sender refuses a resume: it numbers exactly one more event, the
  // resync, and once both ends have gone on talking until the receiver has read all that was sent to it,
  // the receiver was given the resync on the way, and stood at its number.
  lemma RefusalReachesTheReceiver(p: Configs, before: seq<Action>, refusal: Action, position: nat, more: seq<Action>)
    requires Talking(RunLink(p, before)) && Refuses(RunLink(p, before), p, refusal, position)
    requires ConnOf(RunLink(p, before), refusal.end).state == Online
    requires forall k | 0 <= k < |more| :: Calm(more[k])
    ensures
      var resync := NextResync(RunLink(p, before), refusal.end);
      && ConnOf(RunLink(p, before + [refusal]), refusal.end).journal.emitted
         == ConnOf(RunLink(p, before), refusal.end).journal.emitted + [resync]
      && (QueueTo(RunLink(p, before + [refusal] + more), Other(refusal.end)) == [] ==>
            exists k: nat :: k <= |more| && HasJustGot(ConnOf(RunLink(p, before + [refusal] + more[..k]), Other(refusal.end)), resync))
  {
    hide Next, Talking, HasJustGot, Healthy, Refuses;
    var l, refused := RunLink(p, before), before + [refusal];
    var resync := NextResync(l, refusal.end);
    assert refused[..|refused| - 1] == before;
    RunIsHealthy(p, before);
    RefusingSends(l, p, refusal, position);
    RefusesIsCalm(l, p, refusal, position);
    CalmKeepsTalking(l, p, refusal);
    FlyingUntilGot(p, refused, Other(refusal.end), resync, more);
  }

  lemma RefusesIsCalm(l: Link, p: Configs, action: Action, position: nat)
    requires Refuses(l, p, action, position)
    ensures Calm(action)
  {
  }
}
