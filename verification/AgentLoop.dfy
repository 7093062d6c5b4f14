/**
 The agent loop (packages/agent/src/agent-loop.ts, loop/tool-execution.ts, loop/limits.ts).

 The model, the tools, the checkpoints of the host and the message queues are oracles: each is a
 function from the number of the request to its answer. A run without a limit on model calls need not
 end, so it is watched for at most `horizon` model calls.
 */
module AgentLoop {
  import opened Results

  datatype StopReason = AssistantAborted | AssistantError | AssistantDone

  // `announced` says whether the response stream closed with a terminal event; otherwise the message
  // is returned without a `message_end`.
  datatype Message =
    | User(id: nat)
    | Assistant(id: nat, stopReason: StopReason, toolCalls: seq<nat>, announced: bool)
    | ToolResult(toolCall: nat, skipped: bool, value: nat)

  datatype Reply = Replied(id: nat, stopReason: StopReason, toolCalls: seq<nat>, announced: bool) | ReplyCheckpointFailed | ReplyThrew

  datatype CheckpointReply = Declined | Retry | CheckpointFailed

  datatype Environment = Environment(
    model: nat -> Reply,
    tool: nat -> nat,
    steering: nat -> seq<Message>,
    continuation: nat -> seq<Message>,
    checkpoint: nat -> CheckpointReply,
    aborted: nat -> bool,
    hasCheckpoints: bool)

  datatype Limits = Limits(maxModelCalls: Option<int>, maxToolCalls: Option<int>)

  datatype AgentEvent =
    | AgentStart
    | TurnStart
    | MessageStart
    | MessageEnd(message: Message)
    | ToolStart(toolCall: nat)
    | ToolEnd(toolCall: nat)
    | TurnEnd(message: Message, toolResults: seq<Message>)
    | AgentEnd(messages: seq<Message>)

  // `asked` counts the requests the model has answered; the last five fields number the requests to
  // the other oracles.
  datatype State = State(
    trace: seq<AgentEvent>,
    messages: seq<Message>,
    pending: seq<Message>,
    hasMoreToolCalls: bool,
    firstTurn: bool,
    modelCalls: nat,
    toolCalls: nat,
    asked: nat,
    polls: nat,
    continuations: nat,
    checkpoints: nat,
    turns: nat)

  datatype Stop = StoppedByAssistant | StoppedBySignal | ModelCheckpointFailed | HostCheckpointFailed | Finished

  datatype Failure = InvalidLimit | ModelCallLimit | ToolCallLimit | ModelThrew

  datatype Next = Continue | Ended(stop: Stop) | Failed(failure: Failure) | Unfinished

  datatype Turned = Turned(state: State, next: Next)

  function Announced(messages: seq<Message>): seq<AgentEvent> {
    if messages == [] then [] else Announced(messages[..|messages| - 1]) + [MessageStart, MessageEnd(messages[|messages| - 1])]
  }

  predicate Exceeds(observed: nat, limit: Option<int>) {
    limit.Some? && observed > limit.value
  }

  predicate ValidLimit(limit: Option<int>) {
    limit.Some? ==> limit.value > 0
  }

  // Tools

  datatype ToolRun = ToolRun(trace: seq<AgentEvent>, results: seq<Message>, steering: seq<Message>, polls: nat)

  function ToolEvents(result: Message): seq<AgentEvent>
    requires result.ToolResult?
  {
    [ToolStart(result.toolCall), ToolEnd(result.toolCall), MessageStart, MessageEnd(result)]
  }

  function Skipped(calls: seq<nat>): seq<Message> {
    seq(|calls|, i requires 0 <= i < |calls| => ToolResult(calls[i], true, 0))
  }

  function AllToolEvents(results: seq<Message>): seq<AgentEvent>
    requires forall r | r in results :: r.ToolResult?
  {
    if results == [] then []
    else AllToolEvents(results[..|results| - 1]) + ToolEvents(results[|results| - 1])
  }

  // The results of the calls from number `i` on: a queued user message skips the rest.
  function ToolResults(env: Environment, calls: seq<nat>, i: nat, first: nat, polls: nat): (run: (seq<Message>, seq<Message>, nat))
    requires i <= |calls|
    ensures forall r | r in run.0 :: r.ToolResult?
    decreases |calls| - i
  {
    if i == |calls| then ([], [], polls)
    else
      var result := ToolResult(calls[i], false, env.tool(first + i));
      var steering := env.steering(polls);
      if steering != [] then ([result] + Skipped(calls[i + 1..]), steering, polls + 1)
      else
        var rest := ToolResults(env, calls, i + 1, first, polls + 1);
        ([result] + rest.0, rest.1, rest.2)
  }

  function ToolRunOf(env: Environment, calls: seq<nat>, first: nat, polls: nat): ToolRun {
    var run := ToolResults(env, calls, 0, first, polls);
    ToolRun(AllToolEvents(run.0), run.0, run.1, run.2)
  }

  lemma OneMoreResult(results: seq<Message>, result: Message)
    requires (forall r | r in results :: r.ToolResult?) && result.ToolResult?
    ensures AllToolEvents(results + [result]) == AllToolEvents(results) + ToolEvents(result)
  {
    assert (results + [result])[..|results|] == results;
  }

  // Adds a result for every call that is skipped.
  method SkipToolCalls(calls: seq<nat>, startTrace: seq<AgentEvent>, startResults: seq<Message>)
    returns (trace: seq<AgentEvent>, results: seq<Message>)
    requires forall r | r in startResults :: r.ToolResult?
    requires startTrace == AllToolEvents(startResults)
    ensures results == startResults + Skipped(calls)
    ensures forall r | r in results :: r.ToolResult?
    ensures trace == AllToolEvents(results)
  {
    hide AllToolEvents, ToolEvents;
    trace, results := startTrace, startResults;
    var skipped := Skipped(calls);
    for k := 0 to |skipped|
      invariant results == startResults + skipped[..k]
      invariant forall r | r in results :: r.ToolResult?
      invariant trace == AllToolEvents(results)
    {
      OneMoreResult(results, skipped[k]);
      results := results + [skipped[k]];
      trace := trace + ToolEvents(skipped[k]);
    }
  }

  lemma Joined(before: seq<Message>, result: Message, rest: seq<Message>)
    ensures before + ([result] + rest) == before + [result] + rest
  {
  }

  method ExecuteToolCalls(env: Environment, calls: seq<nat>, first: nat, polls: nat) returns (run: ToolRun)
    ensures run == ToolRunOf(env, calls, first, polls)
  {
    assert AllToolEvents([]) == [];
    hide AllToolEvents, ToolEvents, Skipped;
    var trace: seq<AgentEvent>, results: seq<Message>, polled := [], [], polls;
    ghost var whole := ToolResults(env, calls, 0, first, polls);
    assert results + whole.0 == whole.0;
    var index := 0;
    while index < |calls|
      invariant index <= |calls|
      invariant forall r | r in results :: r.ToolResult?
      invariant trace == AllToolEvents(results)
      invariant var rest := ToolResults(env, calls, index, first, polled); whole == (results + rest.0, rest.1, rest.2)
    {
      var result := ToolResult(calls[index], false, env.tool(first + index));
      ghost var before := results;
      OneMoreResult(results, result);
      results := results + [result];
      trace := trace + ToolEvents(result);
      var steering := env.steering(polled);
      if steering != [] {
        Joined(before, result, Skipped(calls[index + 1..]));
        trace, results := SkipToolCalls(calls[index + 1..], trace, results);
        return ToolRun(trace, results, steering, polled + 1);
      }
      polled := polled + 1;
      Joined(before, result, ToolResults(env, calls, index + 1, first, polled).0);
      index := index + 1;
    }
    assert results + [] == results;
    run := ToolRun(trace, results, [], polled);
  }

  // One turn

  function Closed(s: State): State {
    s.(trace := s.trace + [AgentEnd(s.messages)])
  }

  function OpenTurn(s: State): State {
    s.(trace := s.trace + (if s.firstTurn then [] else [TurnStart]) + Announced(s.pending),
       firstTurn := false, messages := s.messages + s.pending, pending := [], modelCalls := s.modelCalls + 1)
  }

  function Polled(env: Environment, s: State): State {
    s.(pending := env.steering(s.polls), polls := s.polls + 1)
  }

  function Received(s: State, message: Message): State
    requires message.Assistant?
  {
    s.(trace := s.trace + (if message.announced then [MessageStart, MessageEnd(message)] else []), messages := s.messages + [message])
  }

  function AfterError(env: Environment, s: State): Turned {
    if !env.hasCheckpoints then Turned(Closed(s), Ended(StoppedByAssistant))
    else
      var asked := s.(checkpoints := s.checkpoints + 1);
      match env.checkpoint(s.checkpoints)
      case Declined => Turned(Closed(asked), Ended(StoppedByAssistant))
      case CheckpointFailed => Turned(Closed(asked), Ended(HostCheckpointFailed))
      // A granted retry leaves `hasMoreToolCalls` as the turn before left it.
      case Retry => Turned(Polled(env, asked), Continue)
  }

  function AfterTurnEnd(env: Environment, s: State, steering: seq<Message>): Turned {
    var next := if steering != [] then s.(pending := steering) else Polled(env, s);
    if env.aborted(s.turns) then Turned(Closed(s), Ended(StoppedBySignal))
    else if s.hasMoreToolCalls || !env.hasCheckpoints then Turned(next, Continue)
    else
      match env.checkpoint(s.checkpoints)
      case Declined => Turned(next.(checkpoints := s.checkpoints + 1), Continue)
      case CheckpointFailed => Turned(Closed(s.(checkpoints := s.checkpoints + 1)), Ended(HostCheckpointFailed))
      case Retry => Turned(Polled(env, s.(checkpoints := s.checkpoints + 1, hasMoreToolCalls := true)), Continue)
  }

  function AfterReply(env: Environment, limits: Limits, s: State, message: Message): Turned
    requires message.Assistant?
  {
    var counted := s.(toolCalls := s.toolCalls + |message.toolCalls|);
    if Exceeds(counted.toolCalls, limits.maxToolCalls) then Turned(counted, Failed(ToolCallLimit))
    else
      var run := if message.toolCalls != [] then ToolRunOf(env, message.toolCalls, s.toolCalls, s.polls) else ToolRun([], [], [], s.polls);
      AfterTurnEnd(env, counted.(
        hasMoreToolCalls := message.toolCalls != [],
        trace := s.trace + run.trace + [TurnEnd(message, run.results)],
        messages := s.messages + run.results,
        polls := run.polls,
        turns := s.turns + 1), run.steering)
  }

  function Turn(env: Environment, limits: Limits, s: State): Turned {
    var started := OpenTurn(s);
    if Exceeds(started.modelCalls, limits.maxModelCalls) then Turned(started, Failed(ModelCallLimit))
    else
      var asked := started.(asked := s.asked + 1);
      match env.model(s.asked)
      case ReplyThrew => Turned(asked, Failed(ModelThrew))
      case ReplyCheckpointFailed => Turned(Closed(asked), Ended(ModelCheckpointFailed))
      case Replied(id, stopReason, toolCalls, announced) =>
        var message := Assistant(id, stopReason, toolCalls, announced);
        var received := Received(asked, message);
        var closed := received.(trace := received.trace + [TurnEnd(message, [])], turns := s.turns + 1);
        match stopReason
        case AssistantAborted => Turned(Closed(closed), Ended(StoppedByAssistant))
        case AssistantError => AfterError(env, closed)
        case AssistantDone => AfterReply(env, limits, received, message)
  }

  // The whole run

  predicate WantsTurn(s: State) {
    s.hasMoreToolCalls || s.pending != []
  }

  // When nothing is pending any more the host may add messages; then another round of turns begins.
  function Continued(env: Environment, s: State): State {
    s.(pending := env.continuation(s.continuations), continuations := s.continuations + 1, hasMoreToolCalls := true)
  }

  function Run(env: Environment, limits: Limits, horizon: nat, s: State): Turned
    decreases horizon - s.modelCalls, if WantsTurn(s) then 0 else 1
  {
    if WantsTurn(s) && s.modelCalls >= horizon then Turned(s, Unfinished)
    else if WantsTurn(s) then
      var turned := Turn(env, limits, s);
      if turned.next.Continue? then TurnCounts(env, limits, s); Run(env, limits, horizon, turned.state) else turned
    else if env.continuation(s.continuations) != [] then Run(env, limits, horizon, Continued(env, s))
    else Turned(Closed(s.(continuations := s.continuations + 1)), Ended(Finished))
  }

  lemma TurnCounts(env: Environment, limits: Limits, s: State)
    ensures Turn(env, limits, s).state.modelCalls == s.modelCalls + 1
  {
  }

  // The state that a run begins with, once the first steering messages have been fetched.
  function Begun(env: Environment, prompts: seq<Message>): State {
    State([AgentStart, TurnStart] + Announced(prompts), prompts, env.steering(0), true, true, 0, 0, 0, 1, 0, 0, 0)
  }

  function AgentRun(env: Environment, limits: Limits, horizon: nat, prompts: seq<Message>): Turned {
    if !ValidLimit(limits.maxModelCalls) || !ValidLimit(limits.maxToolCalls)
    then Turned(Begun(env, prompts).(pending := [], polls := 0), Failed(InvalidLimit))
    else Run(env, limits, horizon, Begun(env, prompts))
  }

  // Opens a turn and adds the pending messages to it.
  method StartTurn(start: State) returns (s: State)
    ensures s == OpenTurn(start)
  {
    var trace, messages, pending := start.trace, start.messages, start.pending;
    if !start.firstTurn {
      trace := trace + [TurnStart];
    }
    ghost var opening := trace;
    assert opening == start.trace + if start.firstTurn then [] else [TurnStart];
    for i := 0 to |pending|
      invariant trace == opening + Announced(pending[..i])
      invariant messages == start.messages + pending[..i]
    {
      assert pending[..i + 1][..i] == pending[..i];
      trace := trace + [MessageStart, MessageEnd(pending[i])];
      messages := messages + [pending[i]];
    }
    assert pending[..|pending|] == pending;
    s := start.(trace := trace, firstTurn := false, messages := messages, pending := [], modelCalls := start.modelCalls + 1);
  }

  // The body of the inner loop.
  method TakeTurn(env: Environment, limits: Limits, start: State) returns (turned: Turned)
    ensures turned == Turn(env, limits, start)
  {
    hide Announced, AfterReply;
    var s := StartTurn(start);
    if Exceeds(s.modelCalls, limits.maxModelCalls) {
      return Turned(s, Failed(ModelCallLimit));
    }
    var reply := env.model(s.asked);
    s := s.(asked := s.asked + 1);
    if reply.ReplyThrew? {
      return Turned(s, Failed(ModelThrew));
    }
    if reply.ReplyCheckpointFailed? {
      return Turned(Closed(s), Ended(ModelCheckpointFailed));
    }
    var message := Assistant(reply.id, reply.stopReason, reply.toolCalls, reply.announced);
    s := Received(s, message);
    if message.stopReason == AssistantAborted {
      s := s.(trace := s.trace + [TurnEnd(message, [])], turns := s.turns + 1);
      return Turned(Closed(s), Ended(StoppedByAssistant));
    }
    if message.stopReason == AssistantError {
      s := s.(trace := s.trace + [TurnEnd(message, [])], turns := s.turns + 1);
      if env.hasCheckpoints {
        var recovery := env.checkpoint(s.checkpoints);
        s := s.(checkpoints := s.checkpoints + 1);
        if recovery == CheckpointFailed {
          return Turned(Closed(s), Ended(HostCheckpointFailed));
        }
        if recovery == Retry {
          s := s.(pending := env.steering(s.polls), polls := s.polls + 1);
          return Turned(s, Continue);
        }
      }
      return Turned(Closed(s), Ended(StoppedByAssistant));
    }
    turned := HandleReply(env, limits, s, message);
  }

  // The rest of the body, once the assistant has answered.
  method HandleReply(env: Environment, limits: Limits, start: State, message: Message) returns (turned: Turned)
    requires message.Assistant?
    ensures turned == AfterReply(env, limits, start, message)
  {
    hide ToolRunOf;
    var s := start.(toolCalls := start.toolCalls + |message.toolCalls|);
    if Exceeds(s.toolCalls, limits.maxToolCalls) {
      return Turned(s, Failed(ToolCallLimit));
    }
    s := s.(hasMoreToolCalls := |message.toolCalls| > 0);
    var toolResults: seq<Message>, steeringAfterTools: seq<Message> := [], [];
    if s.hasMoreToolCalls {
      var run := ExecuteToolCalls(env, message.toolCalls, start.toolCalls, s.polls);
      toolResults, steeringAfterTools := run.results, run.steering;
      s := s.(trace := s.trace + run.trace, messages := s.messages + toolResults, polls := run.polls);
    }
    assert s.trace + [] == s.trace && s.messages + [] == s.messages;
    s := s.(trace := s.trace + [TurnEnd(message, toolResults)], turns := s.turns + 1);
    if env.aborted(s.turns) {
      return Turned(Closed(s), Ended(StoppedBySignal));
    }
    if !s.hasMoreToolCalls && env.hasCheckpoints {
      var result := env.checkpoint(s.checkpoints);
      s := s.(checkpoints := s.checkpoints + 1);
      if result == CheckpointFailed {
        return Turned(Closed(s), Ended(HostCheckpointFailed));
      }
      if result == Retry {
        s := s.(pending := env.steering(s.polls), polls := s.polls + 1, hasMoreToolCalls := true);
        return Turned(s, Continue);
      }
    }
    if |steeringAfterTools| > 0 {
      s := s.(pending := steeringAfterTools);
    } else {
      s := s.(pending := env.steering(s.polls), polls := s.polls + 1);
    }
    turned := Turned(s, Continue);
  }

  method RunLoop(env: Environment, limits: Limits, horizon: nat, prompts: seq<Message>) returns (turned: Turned)
    ensures turned == AgentRun(env, limits, horizon, prompts)
  {
    hide Turn;
    var trace: seq<AgentEvent> := [AgentStart, TurnStart];
    for i := 0 to |prompts|
      invariant trace == [AgentStart, TurnStart] + Announced(prompts[..i])
    {
      assert prompts[..i + 1][..i] == prompts[..i];
      trace := trace + [MessageStart, MessageEnd(prompts[i])];
    }
    assert prompts[..|prompts|] == prompts;
    var s := State(trace, prompts, [], true, true, 0, 0, 0, 0, 0, 0, 0);
    if !ValidLimit(limits.maxModelCalls) || !ValidLimit(limits.maxToolCalls) {
      return Turned(s, Failed(InvalidLimit));
    }
    s := s.(pending := env.steering(0), polls := 1);
    ghost var whole := Run(env, limits, horizon, s);
    while true
      invariant s.hasMoreToolCalls && whole == Run(env, limits, horizon, s)
      decreases horizon - s.modelCalls
    {
      ghost var calls := s.modelCalls;
      while s.hasMoreToolCalls || |s.pending| > 0
        invariant whole == Run(env, limits, horizon, s)
        invariant s.modelCalls > calls || (s.modelCalls == calls && s.hasMoreToolCalls)
        decreases horizon - s.modelCalls
      {
        if s.modelCalls >= horizon {
          return Turned(s, Unfinished);
        }
        TurnCounts(env, limits, s);
        turned := TakeTurn(env, limits, s);
        if turned.next != Continue {
          return;
        }
        s := turned.state;
      }
      var continuationMessages := env.continuation(s.continuations);
      s := s.(continuations := s.continuations + 1);
      if |continuationMessages| > 0 {
        s := s.(pending := continuationMessages, hasMoreToolCalls := true);
        continue;
      }
      break;
    }
    turned := Turned(Closed(s), Ended(Finished));
  }
}
