/**
 What every run of the agent loop streams, how far its budgets let it go and when it ends
 (packages/agent/src/agent-loop.ts).
 */
module AgentRuns {
  import opened Results
  import opened AgentLoop

  // Reading a trace

  predicate NoEnd(trace: seq<AgentEvent>) {
    forall e | e in trace :: !e.AgentEnd?
  }

  datatype Phase = Outside | Inside | Broken

  function Advanced(phase: Phase, e: AgentEvent): Phase {
    if e.TurnStart? then (if phase == Outside then Inside else Broken)
    else if e.TurnEnd? then (if phase == Inside then Outside else Broken)
    else phase
  }

  // Whether a trace is inside a turn, if its turns begin and end alternately.
  function PhaseAfter(trace: seq<AgentEvent>): Phase {
    if trace == [] then Outside else Advanced(PhaseAfter(trace[..|trace| - 1]), trace[|trace| - 1])
  }

  function EndedMessages(trace: seq<AgentEvent>): seq<Message> {
    if trace == [] then []
    else
      var last := trace[|trace| - 1];
      EndedMessages(trace[..|trace| - 1]) + if last.MessageEnd? then [last.message] else []
  }

  function ToolStarts(trace: seq<AgentEvent>): nat {
    if trace == [] then 0 else ToolStarts(trace[..|trace| - 1]) + if trace[|trace| - 1].ToolStart? then 1 else 0
  }

  // Events inside a turn that end the given messages and start the given number of tools.
  predicate Plain(events: seq<AgentEvent>, messages: seq<Message>, tools: nat) {
    && (forall e | e in events :: !e.AgentEnd? && !e.TurnStart? && !e.TurnEnd?)
    && EndedMessages(events) == messages
    && ToolStarts(events) == tools
  }

  lemma OneMore(trace: seq<AgentEvent>, e: AgentEvent)
    ensures NoEnd(trace + [e]) <==> NoEnd(trace) && !e.AgentEnd?
    ensures PhaseAfter(trace + [e]) == Advanced(PhaseAfter(trace), e)
    ensures EndedMessages(trace + [e]) == EndedMessages(trace) + if e.MessageEnd? then [e.message] else []
    ensures ToolStarts(trace + [e]) == ToolStarts(trace) + if e.ToolStart? then 1 else 0
  {
    var longer := trace + [e];
    assert longer[..|longer| - 1] == trace && longer[|trace|] == e;
    if NoEnd(longer) {
      forall x | x in trace
        ensures x in longer
      {
      }
    }
  }

  lemma {:induction false} PlainAppended(trace: seq<AgentEvent>, events: seq<AgentEvent>, messages: seq<Message>, tools: nat)
    requires Plain(events, messages, tools)
    ensures NoEnd(trace + events) <==> NoEnd(trace)
    ensures PhaseAfter(trace + events) == PhaseAfter(trace)
    ensures EndedMessages(trace + events) == EndedMessages(trace) + messages
    ensures ToolStarts(trace + events) == ToolStarts(trace) + tools
    decreases |events|
  {
    if events == [] {
      assert trace + events == trace && EndedMessages(trace) + [] == EndedMessages(trace);
    } else {
      var init, last := events[..|events| - 1], events[|events| - 1];
      assert trace + events == trace + init + [last] && events == init + [last];
      OneMore(trace + init, last);
      OneMore(init, last);
      assert last in events && forall e | e in init :: e in events;
      PlainAppended(trace, init, EndedMessages(init), ToolStarts(init));
    }
  }

  lemma PlainJoined(a: seq<AgentEvent>, ms: seq<Message>, m: nat, b: seq<AgentEvent>, ns: seq<Message>, n: nat)
    requires Plain(a, ms, m) && Plain(b, ns, n)
    ensures Plain(a + b, ms + ns, m + n)
  {
    PlainAppended(a, b, ns, n);
  }

  lemma MessagePlain(message: Message)
    ensures Plain([MessageStart, MessageEnd(message)], [message], 0)
  {
    OneMore([], MessageStart);
    OneMore([MessageStart], MessageEnd(message));
    assert [MessageStart] + [MessageEnd(message)] == [MessageStart, MessageEnd(message)] && [] + [MessageStart] == [MessageStart];
  }

  lemma {:induction false} AnnouncedPlain(messages: seq<Message>)
    ensures Plain(Announced(messages), messages, 0)
  {
    if messages != [] {
      var init, last := messages[..|messages| - 1], messages[|messages| - 1];
      AnnouncedPlain(init);
      MessagePlain(last);
      PlainJoined(Announced(init), init, 0, [MessageStart, MessageEnd(last)], [last], 0);
      assert messages == init + [last];
    }
  }

  lemma ToolEventsPlain(result: Message)
    requires result.ToolResult?
    ensures Plain(ToolEvents(result), [result], 1)
  {
    var a, b := [ToolStart(result.toolCall)], [ToolEnd(result.toolCall)];
    OneMore([], a[0]);
    OneMore(a, b[0]);
    assert [] + a == a;
    MessagePlain(result);
    PlainJoined(a + b, [], 1, [MessageStart, MessageEnd(result)], [result], 0);
    assert ToolEvents(result) == a + b + [MessageStart, MessageEnd(result)];
  }

  lemma OneMoreResultPlain(results: seq<Message>, last: Message)
    requires forall k | 0 <= k < |results| :: results[k].ToolResult?
    requires last.ToolResult? && Plain(AllToolEvents(results), results, |results|)
    ensures forall k | 0 <= k < |results + [last]| :: (results + [last])[k].ToolResult?
    ensures Plain(AllToolEvents(results + [last]), results + [last], |results| + 1)
  {
    hide Plain, ToolEvents, AllToolEvents;
    OneMoreResult(results, last);
    ToolEventsPlain(last);
    PlainJoined(AllToolEvents(results), results, |results|, ToolEvents(last), [last], 1);
  }

  lemma {:induction false} AllToolEventsPlain(results: seq<Message>)
    requires forall k | 0 <= k < |results| :: results[k].ToolResult?
    ensures forall r | r in results :: r.ToolResult?
    ensures Plain(AllToolEvents(results), results, |results|)
  {
    hide ToolEvents;
    if results != [] {
      var init, last := results[..|results| - 1], results[|results| - 1];
      AllToolEventsPlain(init);
      OneMoreResultPlain(init, last);
      assert results == init + [last];
    }
  }

  // Tools

  ghost predicate Answers(calls: seq<nat>, i: nat, results: seq<Message>, steering: seq<Message>)
    requires i <= |calls|
  {
    && |results| == |calls| - i
    && (forall k | 0 <= k < |results| :: results[k].ToolResult? && results[k].toolCall == calls[i + k])
    && (forall k | 0 <= k < |results| - 1 :: results[k].skipped ==> results[k + 1].skipped)
    && (results != [] ==> !results[0].skipped)
    && (forall k | 0 <= k < |results| :: results[k].skipped ==> steering != [])
  }

  // Every tool call gets exactly one result, in the order of the calls; calls are skipped only from
  // the first queued user message on.
  lemma {:induction false} EveryToolCallAnswered(env: Environment, calls: seq<nat>, i: nat, first: nat, polls: nat)
    requires i <= |calls|
    ensures Answers(calls, i, ToolResults(env, calls, i, first, polls).0, ToolResults(env, calls, i, first, polls).1)
    decreases |calls| - i
  {
    if i < |calls| && env.steering(polls) == [] {
      EveryToolCallAnswered(env, calls, i + 1, first, polls + 1);
    }
  }

  // Runs

  // How many replies came without a `message_end`.
  function Unannounced(env: Environment, asked: nat): nat {
    if asked == 0 then 0
    else Unannounced(env, asked - 1) + match env.model(asked - 1)
                                       case Replied(_, _, _, announced) => if announced then 0 else 1
                                       case _ => 0
  }

  predicate Tally(env: Environment, s: State) {
    var ended := EndedMessages(s.trace);
    |ended| + Unannounced(env, s.asked) == |s.messages| && (Unannounced(env, s.asked) == 0 ==> ended == s.messages)
  }

  predicate WithinBudget(limits: Limits, s: State) {
    && s.asked <= s.modelCalls && !Exceeds(s.asked, limits.maxModelCalls)
    && ToolStarts(s.trace) <= s.toolCalls && !Exceeds(ToolStarts(s.trace), limits.maxToolCalls)
  }

  // Before `agent_end`.
  ghost predicate Running(env: Environment, limits: Limits, s: State, phase: Phase) {
    NoEnd(s.trace) && PhaseAfter(s.trace) == phase && Tally(env, s) && WithinBudget(limits, s)
  }

  // After `agent_end`, which is the last event.
  ghost predicate Over(env: Environment, limits: Limits, s: State, phase: Phase) {
    && s.trace != [] && s.trace[|s.trace| - 1] == AgentEnd(s.messages)
    && Running(env, limits, s.(trace := s.trace[..|s.trace| - 1]), phase)
  }

  ghost predicate Proper(env: Environment, limits: Limits, turned: Turned) {
    match turned.next
    case Continue => Running(env, limits, turned.state, Outside)
    case Unfinished => Running(env, limits, turned.state, Outside) || Running(env, limits, turned.state, Inside)
    // Only a checkpoint that fails before the model is asked leaves a turn open.
    case Ended(stop) => Over(env, limits, turned.state, if stop == ModelCheckpointFailed then Inside else Outside)
    case Failed(_) => Running(env, limits, turned.state, Inside)
  }

  lemma ClosedIsOver(env: Environment, limits: Limits, s: State, phase: Phase)
    requires Running(env, limits, s, phase)
    ensures Over(env, limits, Closed(s), phase)
  {
    hide Running;
    var closed := Closed(s);
    assert closed.trace[..|closed.trace| - 1] == s.trace;
    assert closed.(trace := s.trace) == s;
  }

  lemma OpenTurnInside(env: Environment, limits: Limits, s: State)
    requires Running(env, limits, s, if s.firstTurn then Inside else Outside)
    ensures Running(env, limits, OpenTurn(s), Inside)
  {
    hide Announced, Exceeds, Unannounced;
    var opening := s.trace + if s.firstTurn then [] else [TurnStart];
    OneMore(s.trace, TurnStart);
    assert s.trace + [] == s.trace;
    AnnouncedPlain(s.pending);
    PlainAppended(opening, Announced(s.pending), s.pending, 0);
  }

  lemma AskedInside(env: Environment, limits: Limits, s: State, message: Message)
    requires Running(env, limits, s, Inside) && s.asked < s.modelCalls && !Exceeds(s.modelCalls, limits.maxModelCalls)
    requires message.Assistant? && env.model(s.asked) == Replied(message.id, message.stopReason, message.toolCalls, message.announced)
    ensures Running(env, limits, Received(s.(asked := s.asked + 1), message), Inside)
  {
    MessagePlain(message);
    PlainAppended(s.trace, [MessageStart, MessageEnd(message)], [message], 0);
    assert s.trace + [] == s.trace;
  }

  lemma UnansweredInside(env: Environment, limits: Limits, s: State)
    requires Running(env, limits, s, Inside) && s.asked < s.modelCalls && !Exceeds(s.modelCalls, limits.maxModelCalls)
    requires !env.model(s.asked).Replied?
    ensures Running(env, limits, s.(asked := s.asked + 1), Inside)
  {
  }

  lemma TurnEnded(env: Environment, limits: Limits, s: State, message: Message, results: seq<Message>, turns: nat)
    requires Running(env, limits, s, Inside)
    ensures Running(env, limits, s.(trace := s.trace + [TurnEnd(message, results)], turns := turns), Outside)
  {
    OneMore(s.trace, TurnEnd(message, results));
  }

  lemma ToolsInside(env: Environment, limits: Limits, s: State, calls: seq<nat>, run: ToolRun, more: bool)
    requires Running(env, limits, s, Inside) && !Exceeds(s.toolCalls + |calls|, limits.maxToolCalls)
    requires run == if calls != [] then ToolRunOf(env, calls, s.toolCalls, s.polls) else ToolRun([], [], [], s.polls)
    ensures Running(env, limits, s.(toolCalls := s.toolCalls + |calls|, hasMoreToolCalls := more, trace := s.trace + run.trace,
                                    messages := s.messages + run.results, polls := run.polls), Inside)
  {
    hide ToolResults, AllToolEvents;
    EveryToolCallAnswered(env, calls, 0, s.toolCalls, s.polls);
    if calls == [] {
      assert s.trace + [] == s.trace && s.messages + [] == s.messages;
    } else {
      AllToolEventsPlain(run.results);
      PlainAppended(s.trace, run.trace, run.results, |run.results|);
    }
  }

  lemma AfterTurnEndProper(env: Environment, limits: Limits, s: State, steering: seq<Message>)
    requires Running(env, limits, s, Outside)
    ensures Proper(env, limits, AfterTurnEnd(env, s, steering))
  {
    OtherFields(env, limits);
    ClosedIsOver(env, limits, s, Outside);
    ClosedIsOver(env, limits, s.(checkpoints := s.checkpoints + 1), Outside);
    hide Running, Over, Closed;
  }

  // The numbers of the other requests and the queue do not matter.
  lemma OtherFields(env: Environment, limits: Limits)
    ensures forall s: State, t: State, phase: Phase {:trigger Running(env, limits, s, phase), Running(env, limits, t, phase)} |
              && s.trace == t.trace && s.messages == t.messages && s.asked == t.asked
              && s.modelCalls == t.modelCalls && s.toolCalls == t.toolCalls
            :: Running(env, limits, s, phase) <==> Running(env, limits, t, phase)
  {
  }

  lemma AfterReplyProper(env: Environment, limits: Limits, s: State, message: Message)
    requires message.Assistant? && Running(env, limits, s, Inside)
    ensures Proper(env, limits, AfterReply(env, limits, s, message))
  {
    hide Running, Over, Closed, ToolRunOf, AfterTurnEnd, Exceeds;
    OtherFields(env, limits);
    var counted := s.(toolCalls := s.toolCalls + |message.toolCalls|);
    if Exceeds(counted.toolCalls, limits.maxToolCalls) {
      MoreToolCalls(env, limits, s, counted);
    } else {
      var more := message.toolCalls != [];
      var run := if more then ToolRunOf(env, message.toolCalls, s.toolCalls, s.polls) else ToolRun([], [], [], s.polls);
      ToolsInside(env, limits, s, message.toolCalls, run, more);
      var ran := counted.(hasMoreToolCalls := more, trace := s.trace + run.trace, messages := s.messages + run.results, polls := run.polls);
      TurnEnded(env, limits, ran, message, run.results, s.turns + 1);
      var closed := ran.(trace := ran.trace + [TurnEnd(message, run.results)], turns := s.turns + 1);
      AfterTurnEndProper(env, limits, closed, run.steering);
    }
  }

  lemma MoreToolCalls(env: Environment, limits: Limits, s: State, t: State)
    requires Running(env, limits, s, Inside) && s.toolCalls <= t.toolCalls && s == t.(toolCalls := s.toolCalls)
    ensures Running(env, limits, t, Inside)
  {
  }

  lemma AfterErrorProper(env: Environment, limits: Limits, s: State)
    requires Running(env, limits, s, Outside)
    ensures Proper(env, limits, AfterError(env, s))
  {
    OtherFields(env, limits);
    ClosedIsOver(env, limits, s, Outside);
    ClosedIsOver(env, limits, s.(checkpoints := s.checkpoints + 1), Outside);
    hide Running, Over, Closed;
  }

  lemma TurnProper(env: Environment, limits: Limits, s: State)
    requires Running(env, limits, s, if s.firstTurn then Inside else Outside) && s.asked <= s.modelCalls
    ensures Proper(env, limits, Turn(env, limits, s))
    ensures !Turn(env, limits, s).state.firstTurn
  {
    hide Running, Over, AfterReply, AfterError, Exceeds;
    OpenTurnInside(env, limits, s);
    var started := OpenTurn(s);
    if !Exceeds(started.modelCalls, limits.maxModelCalls) {
      match env.model(s.asked)
      case Replied(id, stopReason, toolCalls, announced) =>
        var message := Assistant(id, stopReason, toolCalls, announced);
        AskedInside(env, limits, started, message);
        var received := Received(started.(asked := s.asked + 1), message);
        TurnEnded(env, limits, received, message, [], s.turns + 1);
        var closed := received.(trace := received.trace + [TurnEnd(message, [])], turns := s.turns + 1);
        ClosedIsOver(env, limits, closed, Outside);
        AfterErrorProper(env, limits, closed);
        AfterReplyProper(env, limits, received, message);
        FirstTurnOver(env, limits, received, closed, message);
      case ReplyThrew =>
        UnansweredInside(env, limits, started);
      case ReplyCheckpointFailed =>
        UnansweredInside(env, limits, started);
        ClosedIsOver(env, limits, started.(asked := s.asked + 1), Inside);
    }
  }

  lemma FirstTurnOver(env: Environment, limits: Limits, received: State, closed: State, message: Message)
    requires message.Assistant? && !received.firstTurn && !closed.firstTurn
    ensures !AfterReply(env, limits, received, message).state.firstTurn && !AfterError(env, closed).state.firstTurn
  {
    hide ToolRunOf;
  }

  // Whole runs

  lemma BegunRunning(env: Environment, limits: Limits, prompts: seq<Message>)
    requires ValidLimit(limits.maxModelCalls) && ValidLimit(limits.maxToolCalls)
    ensures Running(env, limits, Begun(env, prompts), Inside)
  {
    OneMore([], AgentStart);
    OneMore([AgentStart], TurnStart);
    assert [] + [AgentStart] == [AgentStart] && [AgentStart] + [TurnStart] == [AgentStart, TurnStart];
    AnnouncedPlain(prompts);
    PlainAppended([AgentStart, TurnStart], Announced(prompts), prompts, 0);
  }

  lemma {:induction false} RunProper(env: Environment, limits: Limits, horizon: nat, s: State)
    requires Running(env, limits, s, if s.firstTurn then Inside else Outside) && s.asked <= s.modelCalls
    requires s.firstTurn ==> WantsTurn(s)
    ensures Proper(env, limits, Run(env, limits, horizon, s))
    decreases horizon - s.modelCalls, if WantsTurn(s) then 0 else 1
  {
    hide Running, Over, Turn, Closed, Exceeds;
    OtherFields(env, limits);
    if WantsTurn(s) {
      if s.modelCalls < horizon {
        TurnProper(env, limits, s);
        TurnCounts(env, limits, s);
        var turned := Turn(env, limits, s);
        if turned.next.Continue? {
          RunningAsked(env, limits, turned.state);
          RunProper(env, limits, horizon, turned.state);
        }
      }
    } else if env.continuation(s.continuations) != [] {
      RunProper(env, limits, horizon, Continued(env, s));
    } else {
      ClosedIsOver(env, limits, s.(continuations := s.continuations + 1), Outside);
    }
  }

  lemma RunningAsked(env: Environment, limits: Limits, s: State)
    requires Running(env, limits, s, Outside)
    ensures s.asked <= s.modelCalls
  {
  }

  // Every run with valid limits: `agent_end` is the last event if the run ends, and occurs nowhere
  // else; turns begin and end alternately, and only a checkpoint that fails before the model is asked
  // leaves the last one open; no more model calls are made and no more tools started than allowed;
  // and `agent_end` reports the messages whose `message_end` was streamed, in that order, exactly
  // when the model announced all its replies.
  lemma EveryRunIsProper(env: Environment, limits: Limits, horizon: nat, prompts: seq<Message>)
    requires ValidLimit(limits.maxModelCalls) && ValidLimit(limits.maxToolCalls)
    ensures
      var turned := AgentRun(env, limits, horizon, prompts);
      var trace := turned.state.trace;
      && !turned.next.Continue?
      && (turned.next.Ended? ==>
            && trace != [] && trace[|trace| - 1] == AgentEnd(turned.state.messages)
            && NoEnd(trace[..|trace| - 1])
            && PhaseAfter(trace[..|trace| - 1]) == (if turned.next.stop == ModelCheckpointFailed then Inside else Outside)
            && (EndedMessages(trace) == turned.state.messages <==> Unannounced(env, turned.state.asked) == 0))
      && (!turned.next.Ended? ==> NoEnd(trace) && PhaseAfter(trace) != Broken)
      && (limits.maxModelCalls.Some? ==> turned.state.asked <= limits.maxModelCalls.value)
      && (limits.maxToolCalls.Some? ==> ToolStarts(trace) <= limits.maxToolCalls.value)
  {
    hide Run, Unannounced;
    BegunRunning(env, limits, prompts);
    RunProper(env, limits, horizon, Begun(env, prompts));
    NeverContinues(env, limits, horizon, Begun(env, prompts));
    var turned := AgentRun(env, limits, horizon, prompts);
    if turned.next.Ended? {
      var trace := turned.state.trace;
      var init := trace[..|trace| - 1];
      OneMore(init, AgentEnd(turned.state.messages));
      assert trace == init + [AgentEnd(turned.state.messages)];
      assert EndedMessages(init) + [] == EndedMessages(init);
    }
  }

  lemma {:induction false} NeverContinues(env: Environment, limits: Limits, horizon: nat, s: State)
    ensures !Run(env, limits, horizon, s).next.Continue?
    decreases horizon - s.modelCalls, if WantsTurn(s) then 0 else 1
  {
    hide Turn, Closed;
    if WantsTurn(s) {
      if s.modelCalls < horizon {
        TurnCounts(env, limits, s);
        var turned := Turn(env, limits, s);
        if turned.next.Continue? {
          NeverContinues(env, limits, horizon, turned.state);
        }
      }
    } else if env.continuation(s.continuations) != [] {
      NeverContinues(env, limits, horizon, Continued(env, s));
    }
  }

  // Watching longer does not change a run that has ended.
  lemma {:induction false} LongerHorizon(env: Environment, limits: Limits, horizon: nat, longer: nat, s: State)
    requires horizon <= longer && Run(env, limits, horizon, s).next != Unfinished
    ensures Run(env, limits, longer, s) == Run(env, limits, horizon, s)
    decreases horizon - s.modelCalls, if WantsTurn(s) then 0 else 1
  {
    hide Turn, Closed;
    if WantsTurn(s) {
      if s.modelCalls < horizon {
        TurnCounts(env, limits, s);
        var turned := Turn(env, limits, s);
        if turned.next.Continue? {
          LongerHorizon(env, limits, horizon, longer, turned.state);
        }
      }
    } else if env.continuation(s.continuations) != [] {
      LongerHorizon(env, limits, horizon, longer, Continued(env, s));
    }
  }

  lemma {:induction false} LimitEndsRun(env: Environment, limits: Limits, horizon: nat, s: State)
    requires limits.maxModelCalls.Some? && horizon > limits.maxModelCalls.value && s.modelCalls <= limits.maxModelCalls.value
    ensures Run(env, limits, horizon, s).next != Unfinished
    decreases horizon - s.modelCalls, if WantsTurn(s) then 0 else 1
  {
    hide Closed, AfterReply, AfterError, Received;
    if WantsTurn(s) {
      TurnCounts(env, limits, s);
      var turned := Turn(env, limits, s);
      TurnEndsOrContinues(env, limits, s);
      if turned.next.Continue? {
        LimitEndsRun(env, limits, horizon, turned.state);
      }
    } else if env.continuation(s.continuations) != [] {
      LimitEndsRun(env, limits, horizon, Continued(env, s));
    }
  }

  lemma TurnEndsOrContinues(env: Environment, limits: Limits, s: State)
    ensures Turn(env, limits, s).next != Unfinished
    ensures Turn(env, limits, s).next.Continue? ==> !Exceeds(s.modelCalls + 1, limits.maxModelCalls)
  {
    hide ToolRunOf;
  }

  // With a limit M on model calls both loops end, after at most M calls and whatever the oracles say:
  // the outcome does not depend on how long one watches.
  lemma LimitedRunsEnd(env: Environment, limits: Limits, horizon: nat, longer: nat, prompts: seq<Message>)
    requires limits.maxModelCalls.Some? && horizon > limits.maxModelCalls.value && longer >= horizon
    ensures AgentRun(env, limits, horizon, prompts).next != Unfinished
    ensures AgentRun(env, limits, longer, prompts) == AgentRun(env, limits, horizon, prompts)
  {
    if ValidLimit(limits.maxModelCalls) && ValidLimit(limits.maxToolCalls) {
      LimitEndsRun(env, limits, horizon, Begun(env, prompts));
      LongerHorizon(env, limits, horizon, longer, Begun(env, prompts));
    }
  }

  // Retries

  lemma {:induction false} AskedGrows(env: Environment, limits: Limits, horizon: nat, s: State)
    ensures Run(env, limits, horizon, s).state.asked >= s.asked
    decreases horizon - s.modelCalls, if WantsTurn(s) then 0 else 1
  {
    hide Turn;
    if WantsTurn(s) {
      if s.modelCalls < horizon {
        TurnAsks(env, limits, s);
        TurnCounts(env, limits, s);
        var turned := Turn(env, limits, s);
        if turned.next.Continue? {
          AskedGrows(env, limits, horizon, turned.state);
        }
      }
    } else if env.continuation(s.continuations) != [] {
      AskedGrows(env, limits, horizon, Continued(env, s));
    }
  }

  lemma TurnAsks(env: Environment, limits: Limits, s: State)
    ensures Turn(env, limits, s).state.asked == if Exceeds(s.modelCalls + 1, limits.maxModelCalls) then s.asked else s.asked + 1
  {
    hide ToolRunOf;
  }

  lemma WantedTurnAsks(env: Environment, limits: Limits, horizon: nat, s: State)
    requires WantsTurn(s) && s.modelCalls < horizon && !Exceeds(s.modelCalls + 1, limits.maxModelCalls)
    ensures Run(env, limits, horizon, s).state.asked > s.asked
  {
    hide Turn;
    TurnAsks(env, limits, s);
    TurnCounts(env, limits, s);
    var turned := Turn(env, limits, s);
    if turned.next.Continue? {
      AskedGrows(env, limits, horizon, turned.state);
    }
  }

  predicate RetryGranted(env: Environment, limits: Limits, s: State) {
    && !Exceeds(s.modelCalls + 1, limits.maxModelCalls)
    && env.model(s.asked).Replied? && env.model(s.asked).stopReason == AssistantError
    && env.hasCheckpoints && env.checkpoint(s.checkpoints) == Retry
  }

  // A retry that the host grants after an assistant error is carried out exactly when the turn before
  // had tool calls (or there was none in this round), or a steering or continuation message happens
  // to be waiting. Otherwise the run finishes as if nothing had been granted.
  lemma ErrorRetryAsksAgainExactly(env: Environment, limits: Limits, horizon: nat, s: State)
    requires RetryGranted(env, limits, s)
    requires !Exceeds(s.modelCalls + 2, limits.maxModelCalls) && s.modelCalls + 1 < horizon
    ensures
      var turned := Turn(env, limits, s);
      var run := Run(env, limits, horizon, turned.state);
      && turned.next.Continue?
      && (run.state.asked > turned.state.asked <==>
            s.hasMoreToolCalls || env.steering(s.polls) != [] || env.continuation(s.continuations) != [])
      && (!(run.state.asked > turned.state.asked) ==> run.next == Ended(Finished))
  {
    hide Announced, Closed;
    var turned := RetriedTurn(env, limits, s);
    if WantsTurn(turned.state) {
      WantedTurnAsks(env, limits, horizon, turned.state);
    } else if env.continuation(s.continuations) != [] {
      WantedTurnAsks(env, limits, horizon, Continued(env, turned.state));
    } else {
      ClosedAsks(turned.state.(continuations := s.continuations + 1));
    }
  }

  lemma ClosedAsks(s: State)
    ensures Closed(s).asked == s.asked
  {
  }

  lemma RetriedTurn(env: Environment, limits: Limits, s: State) returns (turned: Turned)
    requires RetryGranted(env, limits, s)
    ensures turned == Turn(env, limits, s) && turned.next.Continue?
    ensures turned.state.modelCalls == s.modelCalls + 1 && turned.state.continuations == s.continuations
    ensures turned.state.hasMoreToolCalls == s.hasMoreToolCalls && turned.state.pending == env.steering(s.polls)
  {
    turned := Turn(env, limits, s);
  }

  // A retry granted after a result always leads to another model call.
  lemma ResultRetryAsksAgain(env: Environment, limits: Limits, horizon: nat, s: State, steering: seq<Message>)
    requires !s.hasMoreToolCalls && env.hasCheckpoints && !env.aborted(s.turns) && env.checkpoint(s.checkpoints) == Retry
    requires !Exceeds(s.modelCalls + 1, limits.maxModelCalls) && s.modelCalls < horizon
    ensures AfterTurnEnd(env, s, steering).next.Continue?
    ensures Run(env, limits, horizon, AfterTurnEnd(env, s, steering).state).state.asked > s.asked
  {
    hide Run;
    WantedTurnAsks(env, limits, horizon, AfterTurnEnd(env, s, steering).state);
  }

  // A concrete run that loses its retry: the first answer has no tool calls, a steering message opens
  // a second turn, the model fails in it and the host grants a retry; the run ends without one.
  function RetryLostEnvironment(): Environment {
    Environment(
      (n: nat) => Replied(n, if n == 0 then AssistantDone else AssistantError, [], true),
      (n: nat) => n,
      (n: nat) => if n == 1 then [User(1)] else [],
      (n: nat) => [],
      (n: nat) => if n == 0 then Declined else Retry,
      (n: nat) => false,
      true)
  }

  lemma RetryCanBeLost()
    ensures
      var env := RetryLostEnvironment();
      var run := AgentRun(env, Limits(None, None), 10, [User(0)]);
      run.next == Ended(Finished) && run.state.asked == 2 && run.state.checkpoints == 2 && env.checkpoint(1) == Retry
  {
    hide Announced;
    var env, limits := RetryLostEnvironment(), Limits(None, None);
    var s0 := Begun(env, [User(0)]);
    var s1 := Turn(env, limits, s0).state;
    var s2 := Turn(env, limits, s1).state;
    assert Run(env, limits, 10, s0) == Run(env, limits, 10, s1);
    assert Run(env, limits, 10, s1) == Run(env, limits, 10, s2);
  }

  // A concrete run with a reply that is not announced: `agent_end` reports it, though its
  // `message_end` was never streamed.
  function SilentEnvironment(): Environment {
    Environment(
      (n: nat) => Replied(n, AssistantDone, [], false),
      (n: nat) => n,
      (n: nat) => [],
      (n: nat) => [],
      (n: nat) => Declined,
      (n: nat) => false,
      false)
  }

  lemma ReplyCanStayUnannounced()
    ensures
      var run := AgentRun(SilentEnvironment(), Limits(None, None), 10, [User(0)]);
      var reply := Assistant(0, AssistantDone, [], false);
      && run.next == Ended(Finished)
      && run.state.trace == [AgentStart, TurnStart, MessageStart, MessageEnd(User(0)), TurnEnd(reply, []), AgentEnd([User(0), reply])]
      && EndedMessages(run.state.trace) == [User(0)]
  {
    var env, limits, reply := SilentEnvironment(), Limits(None, None), Assistant(0, AssistantDone, [], false);
    var opening := [AgentStart, TurnStart, MessageStart, MessageEnd(User(0))];
    var s0 := Begun(env, [User(0)]);
    assert Announced([User(0)]) == [MessageStart, MessageEnd(User(0))] by {
      assert [User(0)][..0] == [];
    }
    assert s0.trace == opening && OpenTurn(s0).trace == opening;
    var s1 := Turn(env, limits, s0).state;
    assert s1.trace == opening + [TurnEnd(reply, [])];
    assert s1.messages == [User(0), reply];
    assert Run(env, limits, 10, s0) == Run(env, limits, 10, s1);
    EndedStepByStep(User(0), TurnEnd(reply, []), AgentEnd([User(0), reply]));
  }

  lemma EndedStepByStep(prompt: Message, turnEnd: AgentEvent, agentEnd: AgentEvent)
    requires turnEnd.TurnEnd? && agentEnd.AgentEnd?
    ensures EndedMessages([AgentStart, TurnStart, MessageStart, MessageEnd(prompt), turnEnd, agentEnd]) == [prompt]
  {
    OneMore([AgentStart, TurnStart, MessageStart, MessageEnd(prompt), turnEnd], agentEnd);
    OneMore([AgentStart, TurnStart, MessageStart, MessageEnd(prompt)], turnEnd);
    OneMore([AgentStart, TurnStart, MessageStart], MessageEnd(prompt));
    OneMore([AgentStart, TurnStart], MessageStart);
    OneMore([AgentStart], TurnStart);
    OneMore([], AgentStart);
    assert [AgentStart, TurnStart, MessageStart, MessageEnd(prompt), turnEnd, agentEnd]
        == [AgentStart, TurnStart, MessageStart, MessageEnd(prompt), turnEnd] + [agentEnd];
    assert [AgentStart, TurnStart, MessageStart, MessageEnd(prompt), turnEnd]
        == [AgentStart, TurnStart, MessageStart, MessageEnd(prompt)] + [turnEnd];
    assert [AgentStart, TurnStart, MessageStart, MessageEnd(prompt)] == [AgentStart, TurnStart, MessageStart] + [MessageEnd(prompt)];
    assert [AgentStart, TurnStart, MessageStart] == [AgentStart, TurnStart] + [MessageStart];
    assert [AgentStart, TurnStart] == [AgentStart] + [TurnStart];
    assert [AgentStart] == [] + [AgentStart];
  }
}
