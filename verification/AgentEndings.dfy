/**
 Why a run of the agent loop ends: the first answer that stops it, and what it has streamed by then
 (packages/agent/src/agent-loop.ts).
 */
module AgentEndings {
  import opened Results
  import opened AgentLoop
  import opened AgentRuns
  import opened AgentAccounts

  // Whether the host is asked for a checkpoint after reply `i`.
  predicate AsksCheckpoint(env: Environment, i: nat) {
    && env.hasCheckpoints && env.model(i).Replied?
    && match env.model(i).stopReason
       case AssistantAborted => false
       case AssistantError => true
       case AssistantDone => env.model(i).toolCalls == [] && !env.aborted(i + 1)
  }

  function CheckpointsBefore(env: Environment, asked: nat): nat {
    if asked == 0 then 0 else CheckpointsBefore(env, asked - 1) + if AsksCheckpoint(env, asked - 1) then 1 else 0
  }

  // What the host answers after reply `i`, if it is asked.
  function CheckpointAt(env: Environment, i: nat): CheckpointReply {
    env.checkpoint(CheckpointsBefore(env, i))
  }

  // Reply `i` lets the run go on.
  predicate GoesOn(env: Environment, i: nat) {
    && env.model(i).Replied?
    && match env.model(i).stopReason
       case AssistantAborted => false
       case AssistantError => env.hasCheckpoints && CheckpointAt(env, i) == Retry
       case AssistantDone => !env.aborted(i + 1) && (AsksCheckpoint(env, i) ==> CheckpointAt(env, i) != CheckpointFailed)
  }

  // Nothing that reply `i` brought has to be done any more.
  predicate Satisfied(env: Environment, i: nat) {
    env.model(i).Replied? && env.model(i).stopReason == AssistantDone ==>
      env.model(i).toolCalls == [] && (AsksCheckpoint(env, i) ==> CheckpointAt(env, i) != Retry)
  }

  predicate Surpasses(env: Environment, asked: nat, limit: Option<int>) {
    limit.Some? && |CallsMade(env, asked)| > limit.value
  }

  ghost predicate AllGoOn(env: Environment, asked: nat) {
    forall i: nat | i < asked :: GoesOn(env, i)
  }

  // Between two turns.
  ghost predicate Going(env: Environment, limits: Limits, s: State) {
    && s.turns == s.asked == s.modelCalls && s.checkpoints == CheckpointsBefore(env, s.asked)
    && AllGoOn(env, s.asked)
    && s.toolCalls == |CallsMade(env, s.asked)| && !Exceeds(s.toolCalls, limits.maxToolCalls) && !Exceeds(s.asked, limits.maxModelCalls)
    && (!s.hasMoreToolCalls ==> s.asked > 0 && Satisfied(env, s.asked - 1))
    && (s.pending == [] ==> s.polls > 0 && env.steering(s.polls - 1) == [])
  }

  // The reply whose calls exceed the limit on tool calls.
  predicate SurpassesFirst(env: Environment, i: nat, limit: Option<int>) {
    Surpasses(env, i + 1, limit) && !Surpasses(env, i, limit)
  }

  predicate IsDone(reply: Reply) {
    reply.Replied? && reply.stopReason == AssistantDone
  }

  // Whether the answer to request `i` stops the run, and how.
  predicate StoppedBy(env: Environment, limits: Limits, i: nat, next: Next) {
    var reply := env.model(i);
    match next
    case Failed(ModelThrew) => reply.ReplyThrew?
    case Ended(ModelCheckpointFailed) => reply.ReplyCheckpointFailed?
    case Failed(ToolCallLimit) => IsDone(reply) && SurpassesFirst(env, i, limits.maxToolCalls)
    case Ended(StoppedBySignal) => IsDone(reply) && !Surpasses(env, i + 1, limits.maxToolCalls) && env.aborted(i + 1)
    case Ended(HostCheckpointFailed) =>
      && AsksCheckpoint(env, i) && CheckpointAt(env, i) == CheckpointFailed
      && (IsDone(reply) ==> !Surpasses(env, i + 1, limits.maxToolCalls))
    case Ended(StoppedByAssistant) =>
      && reply.Replied?
      && (reply.stopReason == AssistantError || reply.stopReason == AssistantAborted)
      && (AsksCheckpoint(env, i) ==> CheckpointAt(env, i) == Declined)
    case _ => false
  }

  // The last answer of the oracles is the one that ends the run.
  ghost predicate Explained(env: Environment, limits: Limits, horizon: nat, turned: Turned) {
    var s := turned.state;
    match turned.next
    case Continue => Going(env, limits, s)
    case Unfinished => AllGoOn(env, s.asked) && s.asked >= horizon
    case Ended(Finished) =>
      && AllGoOn(env, s.asked) && s.asked > 0 && Satisfied(env, s.asked - 1)
      && s.polls > 0 && env.steering(s.polls - 1) == []
      && s.continuations > 0 && env.continuation(s.continuations - 1) == []
    case Failed(ModelCallLimit) => AllGoOn(env, s.asked) && limits.maxModelCalls == Some(s.asked)
    case Failed(InvalidLimit) => !ValidLimit(limits.maxModelCalls) || !ValidLimit(limits.maxToolCalls)
    case _ => s.asked > 0 && AllGoOn(env, s.asked - 1) && StoppedBy(env, limits, s.asked - 1, turned.next)
  }

  lemma ReplyCounts(env: Environment, asked: nat)
    ensures CheckpointsBefore(env, asked + 1) == CheckpointsBefore(env, asked) + if AsksCheckpoint(env, asked) then 1 else 0
    ensures AllGoOn(env, asked + 1) <==> AllGoOn(env, asked) && GoesOn(env, asked)
    ensures CallsMade(env, asked + 1) == CallsMade(env, asked) +
            if env.model(asked).Replied? && env.model(asked).stopReason == AssistantDone then env.model(asked).toolCalls else []
  {
  }

  // A poll answers with what then waits.
  lemma AfterErrorExplained(env: Environment, limits: Limits, horizon: nat, s: State)
    requires s.asked > 0 && env.model(s.asked - 1).Replied? && env.model(s.asked - 1).stopReason == AssistantError
    requires s.turns == s.asked == s.modelCalls && s.checkpoints == CheckpointsBefore(env, s.asked - 1) && AllGoOn(env, s.asked - 1)
    requires s.toolCalls == |CallsMade(env, s.asked)|
    requires !Exceeds(s.toolCalls, limits.maxToolCalls) && !Exceeds(s.asked, limits.maxModelCalls)
    ensures Explained(env, limits, horizon, AfterError(env, s))
  {
    hide CallsMade;
    ReplyCounts(env, s.asked - 1);
  }

  lemma AfterTurnEndExplained(env: Environment, limits: Limits, horizon: nat, s: State, steering: seq<Message>)
    requires s.asked > 0 && env.model(s.asked - 1).Replied? && env.model(s.asked - 1).stopReason == AssistantDone
    requires s.turns == s.asked == s.modelCalls && s.checkpoints == CheckpointsBefore(env, s.asked - 1) && AllGoOn(env, s.asked - 1)
    requires s.toolCalls == |CallsMade(env, s.asked)|
    requires !Exceeds(s.toolCalls, limits.maxToolCalls) && !Exceeds(s.asked, limits.maxModelCalls)
    requires s.hasMoreToolCalls <==> env.model(s.asked - 1).toolCalls != []
    ensures Explained(env, limits, horizon, AfterTurnEnd(env, s, steering))
  {
    hide CallsMade;
    ReplyCounts(env, s.asked - 1);
  }

  lemma AfterReplyExplained(env: Environment, limits: Limits, horizon: nat, s: State, message: Message)
    requires message.Assistant? && s.asked > 0 && message.stopReason == AssistantDone
    requires env.model(s.asked - 1) == Replied(message.id, message.stopReason, message.toolCalls, message.announced)
    requires s.turns + 1 == s.asked == s.modelCalls && s.checkpoints == CheckpointsBefore(env, s.asked - 1) && AllGoOn(env, s.asked - 1)
    requires s.toolCalls == |CallsMade(env, s.asked - 1)|
    requires !Exceeds(s.toolCalls, limits.maxToolCalls) && !Exceeds(s.asked, limits.maxModelCalls)
    ensures Explained(env, limits, horizon, AfterReply(env, limits, s, message))
  {
    hide CallsMade, AfterTurnEnd, ToolRunOf, CheckpointsBefore;
    ReplyCounts(env, s.asked - 1);
    var counted := s.(toolCalls := s.toolCalls + |message.toolCalls|);
    if !Exceeds(counted.toolCalls, limits.maxToolCalls) {
      var calls := message.toolCalls;
      var run := if calls != [] then ToolRunOf(env, calls, s.toolCalls, s.polls) else ToolRun([], [], [], s.polls);
      var ended := counted.(hasMoreToolCalls := calls != [], trace := s.trace + run.trace + [TurnEnd(message, run.results)],
                            messages := s.messages + run.results, polls := run.polls, turns := s.turns + 1);
      AfterTurnEndExplained(env, limits, horizon, ended, run.steering);
    }
  }

  lemma TurnExplained(env: Environment, limits: Limits, horizon: nat, s: State)
    requires Going(env, limits, s)
    ensures Explained(env, limits, horizon, Turn(env, limits, s))
  {
    hide AfterReply, AfterError, Announced, CallsMade, CheckpointsBefore, GoesOn;
    ReplyCounts(env, s.asked);
    var started := OpenTurn(s);
    if !Exceeds(started.modelCalls, limits.maxModelCalls) {
      match env.model(s.asked)
      case Replied(id, stopReason, toolCalls, announced) =>
        var message := Assistant(id, stopReason, toolCalls, announced);
        var received := Received(started.(asked := s.asked + 1), message);
        match stopReason {
          case AssistantAborted =>
          case AssistantError =>
            AfterErrorExplained(
              env, limits, horizon, received.(trace := received.trace + [TurnEnd(message, [])], turns := s.turns + 1));
          case AssistantDone => AfterReplyExplained(env, limits, horizon, received, message);
        }
      case _ =>
    }
  }

  lemma {:induction false} RunExplained(env: Environment, limits: Limits, horizon: nat, s: State)
    requires Going(env, limits, s)
    ensures !Run(env, limits, horizon, s).next.Continue? && Explained(env, limits, horizon, Run(env, limits, horizon, s))
    decreases horizon - s.modelCalls, if WantsTurn(s) then 0 else 1
  {
    hide Turn, CallsMade, CheckpointsBefore, AllGoOn, Satisfied;
    if WantsTurn(s) {
      if s.modelCalls < horizon {
        TurnExplained(env, limits, horizon, s);
        TurnCounts(env, limits, s);
        var turned := Turn(env, limits, s);
        if turned.next.Continue? {
          RunExplained(env, limits, horizon, turned.state);
        }
      }
    } else if env.continuation(s.continuations) != [] {
      RunExplained(env, limits, horizon, Continued(env, s));
    }
  }

  // Every run ends at the first answer that stops it, and for that reason: every reply before lets it go
  // on. It finishes only when the last reply has nothing left to do and both queues were found empty.
  lemma EveryRunEndsForItsReason(env: Environment, limits: Limits, horizon: nat, prompts: seq<Message>)
    ensures
      var run := AgentRun(env, limits, horizon, prompts);
      !run.next.Continue? && Explained(env, limits, horizon, run)
  {
    hide Run;
    if ValidLimit(limits.maxModelCalls) && ValidLimit(limits.maxToolCalls) {
      RunExplained(env, limits, horizon, Begun(env, prompts));
    }
  }
}
