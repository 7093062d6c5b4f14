/**
 What becomes of every message in a run of the agent loop: the messages of users, the replies and the
 results, and why the run ends (packages/agent/src/agent-loop.ts).
 */
module AgentAccounts {
  import opened Results
  import opened AgentLoop
  import opened AgentRuns

  // Messages of users

  // The messages that are neither replies nor results.
  function UserMessages(messages: seq<Message>): seq<Message> {
    if messages == [] then []
    else
      var last := messages[|messages| - 1];
      UserMessages(messages[..|messages| - 1]) + if last.User? then [last] else []
  }

  lemma {:induction false} UsersJoined(a: seq<Message>, b: seq<Message>)
    ensures UserMessages(a + b) == UserMessages(a) + UserMessages(b)
    decreases |b|
  {
    if b == [] {
      assert a + b == a;
    } else {
      assert (a + b)[..|a + b| - 1] == a + b[..|b| - 1];
      UsersJoined(a, b[..|b| - 1]);
    }
  }

  lemma {:induction false} NoUsers(messages: seq<Message>)
    requires forall m | m in messages :: !m.User?
    ensures UserMessages(messages) == []
  {
    if messages != [] {
      NoUsers(messages[..|messages| - 1]);
    }
  }

  // Where messages of users come from while a run goes on, request by request.
  datatype Source = Steering | Continuation

  function Requests(order: seq<Source>, source: Source): nat {
    if order == [] then 0 else Requests(order[..|order| - 1], source) + if order[|order| - 1] == source then 1 else 0
  }

  function Answer(env: Environment, source: Source, request: nat): seq<Message> {
    if source == Steering then env.steering(request) else env.continuation(request)
  }

  // Everything that the two queues handed out, in the order of the requests.
  function HandedOut(env: Environment, order: seq<Source>): seq<Message> {
    if order == [] then []
    else
      var before, last := order[..|order| - 1], order[|order| - 1];
      HandedOut(env, before) + Answer(env, last, Requests(before, last))
  }

  // The host is asked to continue only right after the steering queue was found empty.
  predicate Orderly(env: Environment, order: seq<Source>) {
    forall i | 0 <= i < |order| && order[i] == Continuation ::
      i > 0 && order[i - 1] == Steering && env.steering(Requests(order[..i - 1], Steering)) == []
  }

  lemma OneMoreRequest(env: Environment, order: seq<Source>, source: Source)
    requires Orderly(env, order)
    requires source == Continuation ==> FoundEmpty(env, order)
    ensures Orderly(env, order + [source])
    ensures Requests(order + [source], source) == Requests(order, source) + 1
    ensures forall other | other != source :: Requests(order + [source], other) == Requests(order, other)
    ensures HandedOut(env, order + [source]) == HandedOut(env, order) + Answer(env, source, Requests(order, source))
  {
    var longer := order + [source];
    assert longer[..|longer| - 1] == order;
    forall i | 0 <= i < |longer| && longer[i] == Continuation
      ensures i > 0 && longer[i - 1] == Steering && env.steering(Requests(longer[..i - 1], Steering)) == []
    {
      if i < |order| {
        assert order[i] == Continuation && longer[..i - 1] == order[..i - 1];
      } else {
        assert longer[..i - 1] == order[..|order| - 1];
      }
    }
  }

  // The last request found the steering queue empty.
  predicate FoundEmpty(env: Environment, order: seq<Source>) {
    order != [] && order[|order| - 1] == Steering && env.steering(Requests(order[..|order| - 1], Steering)) == []
  }

  // The requests made so far are those of `order`.
  predicate Requested(env: Environment, s: State, order: seq<Source>) {
    Orderly(env, order) && Requests(order, Steering) == s.polls && Requests(order, Continuation) == s.continuations
  }

  // Every message handed out is in the conversation or waits to be added.
  predicate Accounts(env: Environment, prompts: seq<Message>, s: State, order: seq<Source>) {
    && Requested(env, s, order)
    && UserMessages(s.messages) + UserMessages(s.pending) == UserMessages(prompts) + UserMessages(HandedOut(env, order))
  }

  // Between two turns, nothing waits only if the steering queue was found empty.
  predicate BetweenTurns(env: Environment, prompts: seq<Message>, s: State, order: seq<Source>) {
    Accounts(env, prompts, s, order) && (s.pending == [] ==> FoundEmpty(env, order))
  }

  // What has been added, in any case.
  predicate Partly(env: Environment, prompts: seq<Message>, s: State, order: seq<Source>) {
    Requested(env, s, order) && UserMessages(s.messages) <= UserMessages(prompts) + UserMessages(HandedOut(env, order))
  }

  lemma MorePartly(env: Environment, prompts: seq<Message>, s: State, order: seq<Source>, s': State, order': seq<Source>)
    requires Accounts(env, prompts, s, order) && Requested(env, s', order') && HandedOut(env, order) <= HandedOut(env, order')
    requires s'.messages == s.messages
    ensures Partly(env, prompts, s', order')
  {
    hide Orderly, Requests, HandedOut, UserMessages;
    var handed := HandedOut(env, order);
    UsersJoined(handed, HandedOut(env, order')[|handed|..]);
    var rest := UserMessages(HandedOut(env, order')[|handed|..]);
    assert HandedOut(env, order') == handed + HandedOut(env, order')[|handed|..];
    assert UserMessages(prompts) + UserMessages(HandedOut(env, order')) == UserMessages(prompts) + UserMessages(handed) + rest;
    assert UserMessages(s.messages) <= UserMessages(s.messages) + (UserMessages(s.pending) + rest);
    assert UserMessages(s.messages) + (UserMessages(s.pending) + rest) == UserMessages(s.messages) + UserMessages(s.pending) + rest;
  }

  lemma OpenTurnAccounts(env: Environment, prompts: seq<Message>, s: State, order: seq<Source>)
    requires Accounts(env, prompts, s, order)
    ensures Accounts(env, prompts, OpenTurn(s), order)
  {
    UsersJoined(s.messages, s.pending);
  }

  // A steering request whose answer waits to be added.
  lemma PolledAccounts(env: Environment, prompts: seq<Message>, s: State, order: seq<Source>) returns (order': seq<Source>)
    requires Accounts(env, prompts, s, order) && s.pending == []
    ensures BetweenTurns(env, prompts, Polled(env, s), order')
  {
    hide Orderly, UserMessages;
    order' := order + [Steering];
    NothingFromNobody();
    OneMoreRequest(env, order, Steering);
    UsersJoined(HandedOut(env, order), env.steering(s.polls));
    assert order'[..|order'| - 1] == order;
    assert UserMessages(s.messages) + [] == UserMessages(s.messages);
  }

  lemma AddedAccounts(env: Environment, prompts: seq<Message>, s: State, order: seq<Source>, added: seq<Message>)
    requires Accounts(env, prompts, s, order) && forall m | m in added :: !m.User?
    ensures Accounts(env, prompts, s.(messages := s.messages + added), order)
  {
    NoUsers(added);
    UsersJoined(s.messages, added);
    assert UserMessages(s.messages) + [] == UserMessages(s.messages);
  }

  // While tools run the steering queue is asked after each, until it hands something out.
  lemma {:induction false} ToolsRequest(env: Environment, calls: seq<nat>, i: nat, first: nat, order: seq<Source>)
    returns (order': seq<Source>)
    requires i <= |calls| && Orderly(env, order)
    ensures
      var run := ToolResults(env, calls, i, first, Requests(order, Steering));
      && Orderly(env, order') && Requests(order', Steering) == run.2 && Requests(order', Continuation) == Requests(order, Continuation)
      && HandedOut(env, order') == HandedOut(env, order) + run.1
    decreases |calls| - i
  {
    hide Orderly;
    order' := order;
    if i == |calls| {
      assert HandedOut(env, order) + [] == HandedOut(env, order);
    } else {
      var asked := order + [Steering];
      OneMoreRequest(env, order, Steering);
      if env.steering(Requests(order, Steering)) == [] {
        assert HandedOut(env, order) + [] == HandedOut(env, order);
        order' := ToolsRequest(env, calls, i + 1, first, asked);
      } else {
        order' := asked;
      }
    }
  }

  // A turn

  ghost predicate TurnAccounts(env: Environment, prompts: seq<Message>, turned: Turned, order: seq<Source>) {
    if turned.next.Continue? then BetweenTurns(env, prompts, turned.state, order) else Partly(env, prompts, turned.state, order)
  }

  lemma AfterErrorAccounts(env: Environment, prompts: seq<Message>, s: State, order: seq<Source>) returns (order': seq<Source>)
    requires Accounts(env, prompts, s, order) && s.pending == []
    ensures TurnAccounts(env, prompts, AfterError(env, s), order')
  {
    order' := order;
    if env.hasCheckpoints && env.checkpoint(s.checkpoints).Retry? {
      order' := PolledAccounts(env, prompts, s.(checkpoints := s.checkpoints + 1), order);
    }
  }

  // What the tools were interrupted with waits to be added, or else another request is made.
  lemma AfterTurnEndAccounts(
      env: Environment, prompts: seq<Message>, s: State, steering: seq<Message>, order: seq<Source>, asked: seq<Source>)
    returns (order': seq<Source>)
    requires Accounts(env, prompts, s.(polls := Requests(order, Steering)), order) && s.pending == []
    requires Requested(env, s, asked) && HandedOut(env, asked) == HandedOut(env, order) + steering
    requires steering != [] ==> s.hasMoreToolCalls
    ensures TurnAccounts(env, prompts, AfterTurnEnd(env, s, steering), order')
  {
    hide Orderly, Requests, HandedOut, UserMessages;
    order' := asked;
    NothingFromNobody();
    var turned := AfterTurnEnd(env, s, steering);
    UsersJoined(HandedOut(env, order), steering);
    assert UserMessages(s.messages) + [] == UserMessages(s.messages);
    if !turned.next.Continue? {
      MorePartly(env, prompts, s.(polls := Requests(order, Steering)), order, turned.state, asked);
    } else if steering == [] {
      assert HandedOut(env, order) + [] == HandedOut(env, order);
      order' := PolledAccounts(env, prompts, turned.state.(polls := s.polls, pending := []), asked);
    }
  }

  lemma AfterReplyAccounts(env: Environment, limits: Limits, prompts: seq<Message>, s: State, message: Message, order: seq<Source>)
    returns (order': seq<Source>)
    requires message.Assistant? && Accounts(env, prompts, s, order) && s.pending == []
    ensures TurnAccounts(env, prompts, AfterReply(env, limits, s, message), order')
  {
    hide Orderly, AfterTurnEnd, AllToolEvents, ToolResults, HandedOut, Requests, UserMessages;
    order' := order;
    var counted := s.(toolCalls := s.toolCalls + |message.toolCalls|);
    if !Exceeds(counted.toolCalls, limits.maxToolCalls) {
      var calls, asked := message.toolCalls, order;
      var run := if calls != [] then ToolRunOf(env, calls, s.toolCalls, s.polls) else ToolRun([], [], [], s.polls);
      if calls == [] {
        assert HandedOut(env, order) + [] == HandedOut(env, order);
      } else {
        asked := ToolsRequest(env, calls, 0, s.toolCalls, order);
      }
      AddedAccounts(env, prompts, s, order, run.results);
      var ended := counted.(hasMoreToolCalls := calls != [], trace := s.trace + run.trace + [TurnEnd(message, run.results)],
                            messages := s.messages + run.results, polls := run.polls, turns := s.turns + 1);
      order' := AfterTurnEndAccounts(env, prompts, ended, run.steering, order, asked);
    }
  }

  lemma TurnKeepsAccounts(env: Environment, limits: Limits, prompts: seq<Message>, s: State, order: seq<Source>)
    returns (order': seq<Source>)
    requires Accounts(env, prompts, s, order)
    ensures TurnAccounts(env, prompts, Turn(env, limits, s), order')
  {
    hide Orderly, AfterReply, AfterError, UserMessages, HandedOut, Announced;
    OpenTurnAccounts(env, prompts, s, order);
    var started := OpenTurn(s);
    order' := order;
    if !Exceeds(started.modelCalls, limits.maxModelCalls) {
      match env.model(s.asked)
      case Replied(id, stopReason, toolCalls, announced) =>
        var message := Assistant(id, stopReason, toolCalls, announced);
        var received := Received(started.(asked := s.asked + 1), message);
        AddedAccounts(env, prompts, started, order, [message]);
        match stopReason {
          case AssistantAborted =>
          case AssistantError =>
            order' := AfterErrorAccounts(
              env, prompts, received.(trace := received.trace + [TurnEnd(message, [])], turns := s.turns + 1), order);
          case AssistantDone => order' := AfterReplyAccounts(env, limits, prompts, received, message, order);
        }
      case _ =>
    }
  }

  // Whole runs

  lemma {:induction false} RunKeepsAccounts(
      env: Environment, limits: Limits, horizon: nat, prompts: seq<Message>, s: State, order: seq<Source>)
    returns (order': seq<Source>)
    requires BetweenTurns(env, prompts, s, order)
    ensures
      var turned := Run(env, limits, horizon, s);
      && Partly(env, prompts, turned.state, order')
      && (turned.next == Ended(Finished) ==>
            UserMessages(turned.state.messages) == UserMessages(prompts) + UserMessages(HandedOut(env, order')))
    decreases horizon - s.modelCalls, if WantsTurn(s) then 0 else 1
  {
    hide Turn, Orderly, UserMessages, HandedOut;
    order' := order;
    if WantsTurn(s) {
      if s.modelCalls < horizon {
        var turned := Turn(env, limits, s);
        TurnCounts(env, limits, s);
        TurnNeverFinishes(env, limits, s);
        order' := TurnKeepsAccounts(env, limits, prompts, s, order);
        if turned.next.Continue? {
          order' := RunKeepsAccounts(env, limits, horizon, prompts, turned.state, order');
        }
      }
    } else {
      order' := ContinuedAccounts(env, prompts, s, order);
      if env.continuation(s.continuations) != [] {
        order' := RunKeepsAccounts(env, limits, horizon, prompts, Continued(env, s), order');
      }
    }
  }

  lemma TurnNeverFinishes(env: Environment, limits: Limits, s: State)
    ensures Turn(env, limits, s).next != Ended(Finished)
  {
    hide ToolRunOf, Announced;
  }

  lemma ContinuedAccounts(env: Environment, prompts: seq<Message>, s: State, order: seq<Source>) returns (order': seq<Source>)
    requires BetweenTurns(env, prompts, s, order) && s.pending == []
    ensures env.continuation(s.continuations) != [] ==> BetweenTurns(env, prompts, Continued(env, s), order')
    ensures
      var closed := Closed(s.(continuations := s.continuations + 1));
      env.continuation(s.continuations) == [] ==>
        && Requested(env, closed, order')
        && UserMessages(s.messages) == UserMessages(prompts) + UserMessages(HandedOut(env, order'))
  {
    hide Orderly, Requests, HandedOut, UserMessages;
    order' := order + [Continuation];
    NothingFromNobody();
    OneMoreRequest(env, order, Continuation);
    UsersJoined(HandedOut(env, order), env.continuation(s.continuations));
    assert UserMessages(s.messages) + [] == UserMessages(s.messages);
    assert HandedOut(env, order) + [] == HandedOut(env, order);
  }

  lemma NothingFromNobody()
    ensures UserMessages([]) == []
  {
  }

  // In every run that finishes, the messages of users are exactly the prompts followed by everything that
  // the steering and continuation queues handed out, in the order of the requests; a run that ends in
  // another way has added a first part of these. The host is asked to continue only when nothing waits.
  lemma EveryUserMessageIsUsed(env: Environment, limits: Limits, horizon: nat, prompts: seq<Message>)
    requires ValidLimit(limits.maxModelCalls) && ValidLimit(limits.maxToolCalls)
    ensures
      var run := AgentRun(env, limits, horizon, prompts);
      exists order: seq<Source> ::
        && Orderly(env, order)
        && Requests(order, Steering) == run.state.polls && Requests(order, Continuation) == run.state.continuations
        && UserMessages(run.state.messages) <= UserMessages(prompts) + UserMessages(HandedOut(env, order))
        && (run.next == Ended(Finished) ==>
              UserMessages(run.state.messages) == UserMessages(prompts) + UserMessages(HandedOut(env, order)))
  {
    hide Run, UserMessages;
    assert Orderly(env, []) && HandedOut(env, []) == [];
    OneMoreRequest(env, [], Steering);
    assert [] + [Steering] == [Steering] && [] + env.steering(0) == env.steering(0);
    var s := Begun(env, prompts);
    assert BetweenTurns(env, prompts, s, [Steering]);
    var order := RunKeepsAccounts(env, limits, horizon, prompts, s, [Steering]);
  }

  // Replies and results

  // Prompts and queues hold messages of users only.
  ghost predicate FromUsers(env: Environment, prompts: seq<Message>) {
    && (forall m | m in prompts :: m.User?)
    && (forall n: nat :: AllUsers(env.steering(n)))
    && (forall n: nat :: AllUsers(env.continuation(n)))
  }

  predicate AllUsers(messages: seq<Message>) {
    forall m | m in messages :: m.User?
  }

  function Replies(messages: seq<Message>): seq<Message> {
    if messages == [] then []
    else
      var last := messages[|messages| - 1];
      Replies(messages[..|messages| - 1]) + if last.Assistant? then [last] else []
  }

  function ToolResultsIn(messages: seq<Message>): seq<Message> {
    if messages == [] then []
    else
      var last := messages[|messages| - 1];
      ToolResultsIn(messages[..|messages| - 1]) + if last.ToolResult? then [last] else []
  }

  lemma {:induction false} KindsJoined(a: seq<Message>, b: seq<Message>)
    ensures Replies(a + b) == Replies(a) + Replies(b)
    ensures ToolResultsIn(a + b) == ToolResultsIn(a) + ToolResultsIn(b)
    decreases |b|
  {
    if b == [] {
      assert a + b == a;
    } else {
      assert (a + b)[..|a + b| - 1] == a + b[..|b| - 1];
      KindsJoined(a, b[..|b| - 1]);
    }
  }

  lemma {:induction false} UsersOnly(messages: seq<Message>)
    requires AllUsers(messages)
    ensures Replies(messages) == [] && ToolResultsIn(messages) == []
  {
    if messages != [] {
      assert messages[|messages| - 1] in messages && forall m | m in messages[..|messages| - 1] :: m in messages;
      UsersOnly(messages[..|messages| - 1]);
    }
  }

  lemma {:induction false} ResultsOnly(messages: seq<Message>)
    requires forall k | 0 <= k < |messages| :: messages[k].ToolResult?
    ensures Replies(messages) == [] && ToolResultsIn(messages) == messages
  {
    if messages != [] {
      ResultsOnly(messages[..|messages| - 1]);
      assert messages == messages[..|messages| - 1] + [messages[|messages| - 1]];
    }
  }

  // What the model has said in its first `asked` answers.
  function Said(env: Environment, asked: nat): seq<Message> {
    if asked == 0 then []
    else Said(env, asked - 1) + match env.model(asked - 1)
                                case Replied(id, stopReason, calls, announced) => [Assistant(id, stopReason, calls, announced)]
                                case _ => []
  }

  // The tool calls of the replies that were neither aborted nor failed.
  function CallsMade(env: Environment, asked: nat): seq<nat> {
    if asked == 0 then []
    else CallsMade(env, asked - 1) + match env.model(asked - 1)
                                     case Replied(_, stopReason, calls, _) => if stopReason == AssistantDone then calls else []
                                     case _ => []
  }

  predicate ResultOf(env: Environment, result: Message, k: nat, call: nat) {
    result.ToolResult? && result.toolCall == call && (!result.skipped ==> result.value == env.tool(k))
  }

  // The results are those of the calls, one for each and in order, each from its own run of a tool.
  predicate ResultsOf(env: Environment, results: seq<Message>, calls: seq<nat>) {
    |results| == |calls| && forall k | 0 <= k < |calls| :: ResultOf(env, results[k], k, calls[k])
  }

  // Reply `i` is followed by the results of its calls.
  predicate InPlace(messages: seq<Message>, i: nat)
    requires i < |messages|
  {
    messages[i].Assistant? && messages[i].stopReason == AssistantDone ==>
      var calls := messages[i].toolCalls;
      && i + |calls| < |messages|
      && forall k | i < k <= i + |calls| :: messages[k].ToolResult? && messages[k].toolCall == calls[k - i - 1]
  }

  predicate AllInPlace(messages: seq<Message>) {
    forall i | 0 <= i < |messages| :: InPlace(messages, i)
  }

  // The conversation so far, up to reply number `asked`, with the results of the first `answered` replies.
  predicate Recorded(env: Environment, s: State, asked: nat, answered: nat) {
    && Replies(s.messages) == Said(env, asked)
    && ResultsOf(env, ToolResultsIn(s.messages), CallsMade(env, answered))
  }

  ghost predicate Conversing(env: Environment, s: State) {
    && Recorded(env, s, s.asked, s.asked) && s.toolCalls == |CallsMade(env, s.asked)|
    && AllInPlace(s.messages) && AllUsers(s.pending)
  }

  // When a turn is over, or a run.
  ghost predicate Conversed(env: Environment, turned: Turned) {
    var s := turned.state;
    match turned.next
    case Continue => Conversing(env, s)
    case Failed(ToolCallLimit) => s.asked > 0 && Recorded(env, s, s.asked, s.asked - 1)
    case _ => Recorded(env, s, s.asked, s.asked) && AllInPlace(s.messages)
  }

  lemma InPlaceStays(messages: seq<Message>, longer: seq<Message>, i: nat)
    requires messages <= longer && i < |messages| && InPlace(messages, i)
    ensures InPlace(longer, i)
  {
    assert forall k | 0 <= k < |messages| :: longer[k] == messages[k];
  }

  lemma StillInPlace(messages: seq<Message>, more: seq<Message>)
    requires AllInPlace(messages) && forall m | m in more :: !m.Assistant? || m.stopReason != AssistantDone
    ensures AllInPlace(messages + more)
  {
    var longer := messages + more;
    forall i | 0 <= i < |longer|
      ensures InPlace(longer, i)
    {
      if i < |messages| {
        InPlaceStays(messages, longer, i);
      } else {
        assert longer[i] in more;
      }
    }
  }

  lemma AnsweredInPlace(messages: seq<Message>, reply: Message, results: seq<Message>)
    requires AllInPlace(messages) && reply.Assistant? && |results| == |reply.toolCalls|
    requires forall k | 0 <= k < |results| :: results[k].ToolResult? && results[k].toolCall == reply.toolCalls[k]
    ensures AllInPlace(messages + [reply] + results)
  {
    var longer := messages + [reply] + results;
    forall i | 0 <= i < |longer|
      ensures InPlace(longer, i)
    {
      if i < |messages| {
        InPlaceStays(messages, longer, i);
      } else if i == |messages| {
        assert forall k | i < k <= i + |results| :: longer[k] == results[k - i - 1];
      } else {
        assert longer[i] == results[i - |messages| - 1];
      }
    }
  }

  // One of the steering requests from number `from` up to `to` was answered with a message.
  predicate Interrupted(env: Environment, from: nat, to: nat) {
    exists n | from <= n < to :: env.steering(n) != []
  }

  // A call is skipped exactly if a message was handed out after an earlier one of the same reply; a call
  // that is not skipped runs its tool.
  lemma {:induction false} SkippedExactly(env: Environment, calls: seq<nat>, i: nat, first: nat, polls: nat)
    requires i <= |calls|
    ensures
      var results := ToolResults(env, calls, i, first, polls).0;
      && |results| == |calls| - i
      && forall k | 0 <= k < |results| ::
           && results[k].ToolResult? && results[k].toolCall == calls[i + k]
           && (results[k].skipped <==> Interrupted(env, polls, polls + k))
           && (!results[k].skipped ==> results[k].value == env.tool(first + i + k))
    decreases |calls| - i
  {
    if i < |calls| {
      var results := ToolResults(env, calls, i, first, polls).0;
      if env.steering(polls) == [] {
        SkippedExactly(env, calls, i + 1, first, polls + 1);
        var rest := ToolResults(env, calls, i + 1, first, polls + 1).0;
        forall k | 0 < k < |results|
          ensures results[k].skipped <==> Interrupted(env, polls, polls + k)
          ensures !results[k].skipped ==> results[k].value == env.tool(first + i + k)
        {
          assert results[k] == rest[k - 1];
        }
      } else {
      }
    }
  }

  lemma OpenTurnConverses(env: Environment, s: State)
    requires Conversing(env, s)
    ensures Conversing(env, OpenTurn(s))
  {
    hide Announced, InPlace;
    KindsJoined(s.messages, s.pending);
    UsersOnly(s.pending);
    StillInPlace(s.messages, s.pending);
    assert Replies(s.messages) + [] == Replies(s.messages) && ToolResultsIn(s.messages) + [] == ToolResultsIn(s.messages);
  }

  // The model has answered, and nothing has been done about it.
  lemma ReplyRecorded(env: Environment, s: State, message: Message)
    requires Conversing(env, s) && message.Assistant?
    requires env.model(s.asked) == Replied(message.id, message.stopReason, message.toolCalls, message.announced)
    ensures Recorded(env, Received(s, message), s.asked + 1, s.asked)
    ensures message.stopReason != AssistantDone ==>
              Recorded(env, Received(s, message), s.asked + 1, s.asked + 1) && AllInPlace(Received(s, message).messages)
    ensures CallsMade(env, s.asked + 1) == CallsMade(env, s.asked) + if message.stopReason == AssistantDone then message.toolCalls else []
  {
    hide InPlace, ResultOf;
    KindsJoined(s.messages, [message]);
    assert [message][..0] == [];
    assert Replies([message]) == [message] && ToolResultsIn([message]) == [];
    assert ToolResultsIn(s.messages) + [] == ToolResultsIn(s.messages) && CallsMade(env, s.asked) + [] == CallsMade(env, s.asked);
    if message.stopReason != AssistantDone {
      StillInPlace(s.messages, [message]);
    }
  }

  lemma MoreResults(env: Environment, results: seq<Message>, calls: seq<nat>, more: seq<Message>, moreCalls: seq<nat>)
    requires ResultsOf(env, results, calls) && |more| == |moreCalls|
    requires forall k | 0 <= k < |more| :: ResultOf(env, more[k], |calls| + k, moreCalls[k])
    ensures ResultsOf(env, results + more, calls + moreCalls)
  {
    hide ResultOf;
    forall k | 0 <= k < |calls + moreCalls|
      ensures ResultOf(env, (results + more)[k], k, (calls + moreCalls)[k])
    {
      if k >= |calls| {
        assert ResultOf(env, more[k - |calls|], |calls| + (k - |calls|), moreCalls[k - |calls|]);
      }
    }
  }

  // Then its calls are answered.
  lemma ResultsRecorded(env: Environment, s: State, message: Message, results: seq<Message>)
    requires Conversing(env, s) && message.Assistant? && message.stopReason == AssistantDone
    requires env.model(s.asked) == Replied(message.id, message.stopReason, message.toolCalls, message.announced)
    requires |results| == |message.toolCalls|
    requires forall k | 0 <= k < |results| :: ResultOf(env, results[k], s.toolCalls + k, message.toolCalls[k])
    ensures
      var messages := s.messages + [message] + results;
      && Replies(messages) == Said(env, s.asked + 1)
      && ResultsOf(env, ToolResultsIn(messages), CallsMade(env, s.asked + 1))
      && AllInPlace(messages)
  {
    hide InPlace, ResultsOf;
    ReplyRecorded(env, s, message);
    KindsJoined(s.messages + [message], results);
    ResultsOnly(results);
    AnsweredInPlace(s.messages, message, results);
    assert Replies(s.messages + [message]) + [] == Replies(s.messages + [message]);
    MoreResults(env, ToolResultsIn(s.messages + [message]), CallsMade(env, s.asked), results, message.toolCalls);
  }

  ghost predicate QueuesFromUsers(env: Environment) {
    forall n: nat :: AllUsers(env.steering(n)) && AllUsers(env.continuation(n))
  }

  lemma {:induction false} InterruptedByUsers(env: Environment, calls: seq<nat>, i: nat, first: nat, polls: nat)
    requires i <= |calls| && QueuesFromUsers(env)
    ensures AllUsers(ToolResults(env, calls, i, first, polls).1)
    decreases |calls| - i
  {
    if i < |calls| && env.steering(polls) == [] {
      InterruptedByUsers(env, calls, i + 1, first, polls + 1);
    }
  }

  // The fields that a conversation is made of.
  lemma AfterTurnEndConverses(env: Environment, s: State, steering: seq<Message>)
    requires QueuesFromUsers(env) && AllUsers(steering) && AllUsers(s.pending)
    requires Recorded(env, s, s.asked, s.asked) && s.toolCalls == |CallsMade(env, s.asked)| && AllInPlace(s.messages)
    ensures Conversed(env, AfterTurnEnd(env, s, steering))
  {
    hide Replies, ToolResultsIn, Said, CallsMade, ResultsOf, InPlace;
  }

  lemma AfterReplyConverses(env: Environment, limits: Limits, s: State, message: Message)
    requires QueuesFromUsers(env) && Conversing(env, s) && message.Assistant? && message.stopReason == AssistantDone
    requires env.model(s.asked) == Replied(message.id, message.stopReason, message.toolCalls, message.announced)
    ensures Conversed(env, AfterReply(env, limits, Received(s.(asked := s.asked + 1), message), message))
  {
    hide AfterTurnEnd, AllToolEvents, ToolResults, Replies, ToolResultsIn, Said, ResultsOf, AllInPlace, CallsMade;
    var received := Received(s.(asked := s.asked + 1), message);
    var counted := received.(toolCalls := s.toolCalls + |message.toolCalls|);
    ReplyRecorded(env, s, message);
    if !Exceeds(counted.toolCalls, limits.maxToolCalls) {
      var calls := message.toolCalls;
      var run := if calls != [] then ToolRunOf(env, calls, s.toolCalls, s.polls) else ToolRun([], [], [], s.polls);
      if calls != [] {
        SkippedExactly(env, calls, 0, s.toolCalls, s.polls);
        InterruptedByUsers(env, calls, 0, s.toolCalls, s.polls);
      }
      ResultsRecorded(env, s, message, run.results);
      var ended := counted.(hasMoreToolCalls := calls != [], trace := received.trace + run.trace + [TurnEnd(message, run.results)],
                            messages := received.messages + run.results, polls := run.polls, turns := s.turns + 1);
      AfterTurnEndConverses(env, ended, run.steering);
    }
  }

  lemma TurnConverses(env: Environment, limits: Limits, s: State)
    requires QueuesFromUsers(env) && Conversing(env, s)
    ensures Conversed(env, Turn(env, limits, s))
  {
    hide AfterReply, Announced, Replies, ToolResultsIn, ResultsOf, AllInPlace, CallsMade;
    OpenTurnConverses(env, s);
    var started := OpenTurn(s);
    if !Exceeds(started.modelCalls, limits.maxModelCalls) {
      match env.model(s.asked)
      case Replied(id, stopReason, toolCalls, announced) =>
        var message := Assistant(id, stopReason, toolCalls, announced);
        ReplyRecorded(env, started, message);
        if stopReason == AssistantDone {
          AfterReplyConverses(env, limits, started, message);
        }
      case _ =>
        NothingSaid(env, s.asked);
    }
  }

  lemma NothingSaid(env: Environment, asked: nat)
    requires !env.model(asked).Replied?
    ensures Said(env, asked + 1) == Said(env, asked) && CallsMade(env, asked + 1) == CallsMade(env, asked)
  {
  }

  lemma {:induction false} RunConverses(env: Environment, limits: Limits, horizon: nat, s: State)
    requires QueuesFromUsers(env) && Conversing(env, s)
    ensures Conversed(env, Run(env, limits, horizon, s))
    decreases horizon - s.modelCalls, if WantsTurn(s) then 0 else 1
  {
    hide Turn, Replies, ToolResultsIn, Said, ResultsOf, AllInPlace, CallsMade;
    if WantsTurn(s) {
      if s.modelCalls < horizon {
        TurnConverses(env, limits, s);
        TurnCounts(env, limits, s);
        var turned := Turn(env, limits, s);
        if turned.next.Continue? {
          RunConverses(env, limits, horizon, turned.state);
        }
      }
    } else if env.continuation(s.continuations) != [] {
      RunConverses(env, limits, horizon, Continued(env, s));
    }
  }

  // In every run the replies in the conversation are exactly what the model said, in that order; every
  // call has its one result, from its own run of a tool unless it was skipped, directly behind the reply
  // that made it. Only the calls of a reply that exceeds the limit on tool calls stay without results.
  lemma ConversationInEveryRun(env: Environment, limits: Limits, horizon: nat, prompts: seq<Message>)
    requires ValidLimit(limits.maxModelCalls) && ValidLimit(limits.maxToolCalls) && FromUsers(env, prompts)
    ensures
      var run := AgentRun(env, limits, horizon, prompts);
      var messages, asked, exceeded := run.state.messages, run.state.asked, run.next == Failed(ToolCallLimit);
      && Replies(messages) == Said(env, asked)
      && (exceeded ==> asked > 0)
      && ResultsOf(env, ToolResultsIn(messages), CallsMade(env, if exceeded then asked - 1 else asked))
      && (!exceeded ==> AllInPlace(messages))
  {
    hide Run;
    var s := Begun(env, prompts);
    assert AllUsers(prompts) && AllUsers(env.steering(0));
    UsersOnly(prompts);
    assert AllInPlace([]);
    StillInPlace([], prompts);
    assert [] + prompts == prompts;
    RunConverses(env, limits, horizon, s);
    NeverContinues(env, limits, horizon, s);
  }
}
