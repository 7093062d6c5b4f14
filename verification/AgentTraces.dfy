/**
 The order of what every run of the agent loop streams: each message is announced and delivered, each
 tool starts, ends and reports, and each turn ends with its reply and results
 (packages/agent/src/agent-loop.ts, loop/tool-execution.ts).
 */
module AgentTraces {
  import opened Results
  import opened AgentLoop
  import opened AgentRuns
  import opened AgentAccounts

  predicate Announcement(trace: seq<AgentEvent>, i: int, message: Message) {
    0 < i < |trace| && trace[i] == MessageEnd(message) && trace[i - 1] == MessageStart
  }

  // What stands before and after event `i`.
  predicate InOrder(trace: seq<AgentEvent>, i: nat)
    requires i < |trace|
  {
    match trace[i]
    case MessageStart => i + 1 < |trace| && trace[i + 1].MessageEnd?
    case MessageEnd(message) => Announcement(trace, i, message)
    case ToolStart(call) =>
      && i + 3 < |trace| && trace[i + 1] == ToolEnd(call)
      && trace[i + 3].MessageEnd? && trace[i + 3].message.ToolResult? && trace[i + 3].message.toolCall == call
    case ToolEnd(call) => i > 0 && trace[i - 1] == ToolStart(call)
    case TurnEnd(reply, results) =>
      && reply.Assistant? && |results| == (if reply.stopReason == AssistantDone then |reply.toolCalls| else 0)
      && i >= 4 * |results|
      && (forall k | 0 <= k < |results| :: trace[i - 4 * (|results| - k) + 3] == MessageEnd(results[k]))
      && (reply.announced ==> Announcement(trace, i - 4 * |results| - 1, reply))
    case _ => true
  }

  predicate AllInOrder(trace: seq<AgentEvent>) {
    forall i | 0 <= i < |trace| :: InOrder(trace, i)
  }

  // The replies with which turns have ended.
  function TurnReplies(trace: seq<AgentEvent>): seq<Message> {
    if trace == [] then []
    else
      var last := trace[|trace| - 1];
      TurnReplies(trace[..|trace| - 1]) + if last.TurnEnd? then [last.message] else []
  }

  lemma OneMoreTurn(trace: seq<AgentEvent>, e: AgentEvent)
    ensures TurnReplies(trace + [e]) == TurnReplies(trace) + if e.TurnEnd? then [e.message] else []
  {
    assert (trace + [e])[..|trace|] == trace;
  }

  predicate InsideTurn(events: seq<AgentEvent>) {
    forall i | 0 <= i < |events| :: !events[i].TurnEnd?
  }

  lemma {:induction false} SameTurns(trace: seq<AgentEvent>, events: seq<AgentEvent>)
    requires InsideTurn(events)
    ensures TurnReplies(trace + events) == TurnReplies(trace)
    decreases |events|
  {
    if events == [] {
      assert trace + events == trace;
    } else {
      var init := events[..|events| - 1];
      SameTurns(trace, init);
      OneMoreTurn(trace + init, events[|events| - 1]);
      assert trace + events == trace + init + [events[|events| - 1]];
    }
  }

  lemma InOrderLater(trace: seq<AgentEvent>, more: seq<AgentEvent>, i: nat)
    requires i < |trace| && InOrder(trace, i)
    ensures InOrder(trace + more, i)
  {
    assert forall k | 0 <= k < |trace| :: (trace + more)[k] == trace[k];
  }

  lemma InOrderBehind(before: seq<AgentEvent>, trace: seq<AgentEvent>, i: nat)
    requires i < |trace| && InOrder(trace, i) && !trace[i].TurnEnd?
    ensures InOrder(before + trace, |before| + i)
  {
    assert forall k | 0 <= k < |trace| :: (before + trace)[|before| + k] == trace[k];
  }

  lemma InOrderJoined(trace: seq<AgentEvent>, events: seq<AgentEvent>)
    requires AllInOrder(trace) && AllInOrder(events) && InsideTurn(events)
    ensures AllInOrder(trace + events) && TurnReplies(trace + events) == TurnReplies(trace)
  {
    hide InOrder;
    SameTurns(trace, events);
    forall i | 0 <= i < |trace + events|
      ensures InOrder(trace + events, i)
    {
      if i < |trace| {
        InOrderLater(trace, events, i);
      } else {
        InOrderBehind(trace, events, i - |trace|);
      }
    }
  }

  lemma {:induction false} AnnouncedInOrder(messages: seq<Message>)
    ensures AllInOrder(Announced(messages)) && InsideTurn(Announced(messages))
  {
    if messages != [] {
      var last := messages[|messages| - 1];
      AnnouncedInOrder(messages[..|messages| - 1]);
      InOrderJoined(Announced(messages[..|messages| - 1]), [MessageStart, MessageEnd(last)]);
    }
  }

  // Four events for every result.
  lemma {:induction false} ToolEventsInOrder(results: seq<Message>)
    requires forall r | r in results :: r.ToolResult?
    ensures
      var events := AllToolEvents(results);
      && AllInOrder(events) && InsideTurn(events) && |events| == 4 * |results|
      && forall k | 0 <= k < |results| :: events[4 * k + 3] == MessageEnd(results[k])
  {
    hide InOrder;
    if results != [] {
      var init, last := results[..|results| - 1], results[|results| - 1];
      ToolEventsInOrder(init);
      OneToolInOrder(last);
      InOrderJoined(AllToolEvents(init), ToolEvents(last));
      forall k | 0 <= k < |results|
        ensures AllToolEvents(results)[4 * k + 3] == MessageEnd(results[k])
      {
        if k < |init| {
          assert AllToolEvents(init)[4 * k + 3] == MessageEnd(init[k]);
        } else {
          assert ToolEvents(last)[3] == MessageEnd(last);
        }
      }
    }
  }

  lemma OneToolInOrder(result: Message)
    requires result.ToolResult?
    ensures AllInOrder(ToolEvents(result)) && InsideTurn(ToolEvents(result))
  {
  }

  // A turn ends with its reply and the results of its calls, which have just been streamed.
  lemma TurnEndInOrder(trace: seq<AgentEvent>, reply: Message, results: seq<Message>)
    requires AllInOrder(trace) && reply.Assistant? && forall r | r in results :: r.ToolResult?
    requires |results| == if reply.stopReason == AssistantDone then |reply.toolCalls| else 0
    requires reply.announced ==> Announcement(trace, |trace| - 1, reply)
    ensures
      var whole := trace + AllToolEvents(results) + [TurnEnd(reply, results)];
      AllInOrder(whole) && TurnReplies(whole) == TurnReplies(trace) + [reply]
  {
    hide InOrder;
    var tools := AllToolEvents(results);
    var ran := trace + tools;
    var whole := ran + [TurnEnd(reply, results)];
    ToolEventsInOrder(results);
    InOrderJoined(trace, tools);
    OneMoreTurn(ran, TurnEnd(reply, results));
    forall i | 0 <= i < |whole|
      ensures InOrder(whole, i)
    {
      if i < |ran| {
        InOrderLater(ran, [TurnEnd(reply, results)], i);
      } else {
        EndsInOrder(trace, tools, reply, results);
      }
    }
  }

  lemma EndsInOrder(trace: seq<AgentEvent>, tools: seq<AgentEvent>, reply: Message, results: seq<Message>)
    requires reply.Assistant? && |tools| == 4 * |results|
    requires forall k | 0 <= k < |results| :: tools[4 * k + 3] == MessageEnd(results[k])
    requires |results| == if reply.stopReason == AssistantDone then |reply.toolCalls| else 0
    requires reply.announced ==> Announcement(trace, |trace| - 1, reply)
    ensures InOrder(trace + tools + [TurnEnd(reply, results)], |trace| + |tools|)
  {
    var whole := trace + tools + [TurnEnd(reply, results)];
    var i := |trace| + |tools|;
    forall k | 0 <= k < |results|
      ensures whole[i - 4 * (|results| - k) + 3] == MessageEnd(results[k])
    {
      assert i - 4 * (|results| - k) + 3 == |trace| + (4 * k + 3);
      assert whole[|trace| + (4 * k + 3)] == tools[4 * k + 3];
    }
  }

  // The turns that have ended are those of the first `asked` requests.
  predicate Streamed(env: Environment, s: State, asked: nat) {
    AllInOrder(s.trace) && TurnReplies(s.trace) == Said(env, asked)
  }

  ghost predicate Told(env: Environment, turned: Turned) {
    var s := turned.state;
    if turned.next == Failed(ToolCallLimit) then s.asked > 0 && Streamed(env, s, s.asked - 1) else Streamed(env, s, s.asked)
  }

  lemma ClosedStreams(env: Environment, s: State, asked: nat)
    requires Streamed(env, s, asked)
    ensures Streamed(env, Closed(s), asked)
  {
    InOrderJoined(s.trace, [AgentEnd(s.messages)]);
  }

  lemma OpenTurnStreams(env: Environment, s: State, asked: nat)
    requires Streamed(env, s, asked)
    ensures Streamed(env, OpenTurn(s), asked)
  {
    hide InOrder;
    AnnouncedInOrder(s.pending);
    TurnStartInOrder();
    InOrderJoined(s.trace, [TurnStart]);
    InOrderJoined(s.trace + [TurnStart], Announced(s.pending));
    InOrderJoined(s.trace, Announced(s.pending));
    assert s.trace + [] == s.trace;
  }

  lemma TurnStartInOrder()
    ensures AllInOrder([TurnStart]) && InsideTurn([TurnStart])
  {
  }

  lemma ReceivedStreams(env: Environment, s: State, reply: Message, asked: nat)
    requires Streamed(env, s, asked) && reply.Assistant?
    ensures
      var received := Received(s, reply);
      Streamed(env, received, asked) && (reply.announced ==> Announcement(received.trace, |received.trace| - 1, reply))
  {
    InOrderJoined(s.trace, [MessageStart, MessageEnd(reply)]);
    assert s.trace + [] == s.trace;
  }

  lemma ReplyStreams(env: Environment, limits: Limits, s: State, reply: Message)
    requires reply.Assistant? && reply.stopReason == AssistantDone && s.asked > 0
    requires Streamed(env, s, s.asked - 1) && (reply.announced ==> Announcement(s.trace, |s.trace| - 1, reply))
    requires Said(env, s.asked) == Said(env, s.asked - 1) + [reply]
    ensures Told(env, AfterReply(env, limits, s, reply))
  {
    hide AfterTurnEnd, ToolResults, AllInOrder, TurnReplies, Said, AllToolEvents, Announcement;
    var counted := s.(toolCalls := s.toolCalls + |reply.toolCalls|);
    if !Exceeds(counted.toolCalls, limits.maxToolCalls) {
      var calls := reply.toolCalls;
      var run := if calls != [] then ToolRunOf(env, calls, s.toolCalls, s.polls) else ToolRun([], [], [], s.polls);
      NoToolEvents();
      if calls != [] {
        EveryToolCallAnswered(env, calls, 0, s.toolCalls, s.polls);
      }
      TurnEndInOrder(s.trace, reply, run.results);
      var ended := counted.(hasMoreToolCalls := calls != [], trace := s.trace + run.trace + [TurnEnd(reply, run.results)],
                            messages := s.messages + run.results, polls := run.polls, turns := s.turns + 1);
      AfterTurnEndStreams(env, ended, run.steering);
    }
  }

  lemma NoToolEvents()
    ensures AllToolEvents([]) == []
  {
  }

  lemma AfterTurnEndStreams(env: Environment, s: State, steering: seq<Message>)
    requires Streamed(env, s, s.asked)
    ensures Told(env, AfterTurnEnd(env, s, steering))
  {
    hide AllInOrder, TurnReplies, Said, Closed;
    ClosedKeeps(s);
    ClosedStreams(env, s, s.asked);
    ClosedKeeps(s.(checkpoints := s.checkpoints + 1));
    ClosedStreams(env, s.(checkpoints := s.checkpoints + 1), s.asked);
  }

  lemma ClosedKeeps(s: State)
    ensures Closed(s).asked == s.asked
  {
  }

  lemma AfterErrorStreams(env: Environment, s: State)
    requires Streamed(env, s, s.asked)
    ensures Told(env, AfterError(env, s))
  {
    hide AllInOrder, TurnReplies, Said, Closed;
    ClosedKeeps(s);
    ClosedStreams(env, s, s.asked);
    ClosedKeeps(s.(checkpoints := s.checkpoints + 1));
    ClosedStreams(env, s.(checkpoints := s.checkpoints + 1), s.asked);
  }

  lemma TurnStreams(env: Environment, limits: Limits, s: State)
    requires Streamed(env, s, s.asked)
    ensures Told(env, Turn(env, limits, s))
  {
    hide AfterReply, AfterError, AllInOrder, TurnReplies, Announced, Closed, Announcement, Received;
    OpenTurnStreams(env, s, s.asked);
    var started := OpenTurn(s);
    if !Exceeds(started.modelCalls, limits.maxModelCalls) {
      var asked := started.(asked := s.asked + 1);
      match env.model(s.asked)
      case Replied(id, stopReason, toolCalls, announced) =>
        var reply := Assistant(id, stopReason, toolCalls, announced);
        ReceivedStreams(env, asked, reply, s.asked);
        ReceivedKeeps(asked, reply);
        var received := Received(asked, reply);
        match stopReason {
          case AssistantDone => ReplyStreams(env, limits, received, reply);
          case _ =>
            NoToolEvents();
            TurnEndInOrder(received.trace, reply, []);
            assert received.trace + [] == received.trace;
            var closed := received.(trace := received.trace + [TurnEnd(reply, [])], turns := s.turns + 1);
            ClosedKeeps(closed);
            ClosedStreams(env, closed, s.asked + 1);
            AfterErrorStreams(env, closed);
        }
      case _ =>
        NothingSaid(env, s.asked);
        ClosedKeeps(asked);
        ClosedStreams(env, asked, s.asked);
    }
  }

  lemma ReceivedKeeps(s: State, reply: Message)
    requires reply.Assistant?
    ensures Received(s, reply).asked == s.asked && Received(s, reply).turns == s.turns
  {
  }

  lemma {:induction false} RunStreams(env: Environment, limits: Limits, horizon: nat, s: State)
    requires Streamed(env, s, s.asked)
    ensures Told(env, Run(env, limits, horizon, s))
    decreases horizon - s.modelCalls, if WantsTurn(s) then 0 else 1
  {
    hide Turn, AllInOrder, TurnReplies, Said, Closed;
    if WantsTurn(s) {
      if s.modelCalls < horizon {
        TurnStreams(env, limits, s);
        TurnCounts(env, limits, s);
        var turned := Turn(env, limits, s);
        if turned.next.Continue? {
          RunStreams(env, limits, horizon, turned.state);
        }
      }
    } else if env.continuation(s.continuations) != [] {
      RunStreams(env, limits, horizon, Continued(env, s));
    } else {
      ClosedKeeps(s.(continuations := s.continuations + 1));
      ClosedStreams(env, s.(continuations := s.continuations + 1), s.asked);
    }
  }

  // In every run each message is announced directly before it is delivered, each tool that starts ends and
  // reports its result at once, and the turns end, one by one, with what the model said, each right after
  // the results of its calls, and those right after the reply if that was announced. Only a reply that
  // exceeds the limit on tool calls leaves its turn open.
  lemma TraceInEveryRun(env: Environment, limits: Limits, horizon: nat, prompts: seq<Message>)
    requires ValidLimit(limits.maxModelCalls) && ValidLimit(limits.maxToolCalls)
    ensures
      var run := AgentRun(env, limits, horizon, prompts);
      var exceeded := run.next == Failed(ToolCallLimit);
      && AllInOrder(run.state.trace) && (exceeded ==> run.state.asked > 0)
      && TurnReplies(run.state.trace) == Said(env, if exceeded then run.state.asked - 1 else run.state.asked)
  {
    hide Run;
    var opening := [AgentStart, TurnStart];
    AnnouncedInOrder(prompts);
    InOrderJoined([], opening);
    assert [] + opening == opening;
    InOrderJoined(opening, Announced(prompts));
    RunStreams(env, limits, horizon, Begun(env, prompts));
  }
}
