/**
 What the consumer of a proxy stream is given: the events that the server sent, one for one, up to the
 first terminal one (packages/agent/src/proxy.ts, packages/ai/src/utils/event-stream.ts).
 */
module ProxyPushes {
  import opened Results
  import opened Utf16
  import opened ProxyStream

  // Lines

  // A line carries what is left, after `data: `, between the white space around it, if that is anything.
  lemma PayloadExactly(line: Text) returns (before: Text, after: Text)
    ensures AllSpace(before) && AllSpace(after)
    ensures
      match Payload(line)
      case Some(data) =>
        line == Units("data: ") + before + data + after && data != [] && !IsSpace(data[0]) && !IsSpace(data[|data| - 1])
      case None => Units("data: ") <= line ==> line == Units("data: ") + before
  {
    before, after := [], [];
    if DATA <= line {
      before, after := TrimSplits(line[|DATA|..]);
      assert line == DATA + line[|DATA|..];
      if Payload(line).None? {
        before, after := before + after, [];
      }
    }
  }

  // Events

  predicate Terminal(e: ProxyEvent) {
    e.Done? || e.ServerError?
  }

  // The events before position `k` have started a block, and the last such start was of this kind.
  predicate StartedAs(received: seq<ProxyEvent>, k: nat, kind: Kind, index: int)
    requires k <= |received|
  {
    var start := LastStart(received[..k], index);
    start >= 0 && received[start].BlockStart? && received[start].kind == kind
  }

  // A delta, or the end of a text or of thinking, has a block to go to.
  predicate Fits(received: seq<ProxyEvent>, k: nat)
    requires k < |received|
  {
    match received[k]
    case Delta(kind, index, _) => StartedAs(received, k, kind, index)
    case BlockEnd(kind, index, _) => kind == ToolKind || StartedAs(received, k, kind, index)
    case _ => true
  }

  predicate AllFit(received: seq<ProxyEvent>) {
    forall k | 0 <= k < |received| :: Fits(received, k)
  }

  // Only unknown events and ends of tool calls that were not started are passed over.
  predicate Heard(received: seq<ProxyEvent>, k: nat)
    requires k < |received|
  {
    match received[k]
    case Unknown => false
    case BlockEnd(ToolKind, index, _) => StartedAs(received, k, ToolKind, index)
    case _ => true
  }

  // `e` tells of event `k`; the end of a text tells all deltas since its start.
  predicate TellsOf(received: seq<ProxyEvent>, k: nat, e: StreamEvent)
    requires k < |received|
  {
    match received[k]
    case Start => e.Started?
    case BlockStart(kind, index, _, _) => e.BlockStarted? && e.kind == kind && e.index == index
    case Delta(kind, index, delta) => e.DeltaReceived? && e.kind == kind && e.index == index && e.delta == delta
    case BlockEnd(kind, index, _) =>
      && e.BlockEnded? && e.kind == kind && e.index == index
      && e.content == if kind == ToolKind then [] else Deltas(received[LastStart(received[..k], index) + 1..k], index)
    case Done(reason) => e.Finished? && e.reason == reason
    case ServerError(reason, _) => e.ErrorReported? && e.reason == reason
    case Unknown => false
  }

  // Nothing terminal comes before position `k`.
  predicate Open(received: seq<ProxyEvent>, k: nat)
    requires k <= |received|
  {
    forall j | 0 <= j < k :: !Terminal(received[j])
  }

  // `pushed` tells of the events at the positions `told`, in order; these are all that are heard up to
  // the first terminal one.
  ghost predicate Tells(received: seq<ProxyEvent>, pushed: seq<StreamEvent>, told: seq<nat>) {
    && |told| == |pushed|
    && (forall i | 0 <= i < |told| :: told[i] < |received| && TellsOf(received, told[i], pushed[i]))
    && (forall i, j | 0 <= i < j < |told| :: told[i] < told[j])
    && (forall k | 0 <= k < |received| :: k in told <==> Heard(received, k) && Open(received, k))
  }

  lemma StartedEarlier(received: seq<ProxyEvent>, e: ProxyEvent, k: nat, kind: Kind, index: int)
    requires k <= |received|
    ensures StartedAs(received + [e], k, kind, index) <==> StartedAs(received, k, kind, index)
  {
    assert (received + [e])[..k] == received[..k];
  }

  lemma EarlierAsBefore(received: seq<ProxyEvent>, e: ProxyEvent, k: nat)
    requires k < |received|
    ensures Heard(received + [e], k) == Heard(received, k) && Fits(received + [e], k) == Fits(received, k)
    ensures forall s :: TellsOf(received + [e], k, s) == TellsOf(received, k, s)
    ensures Open(received + [e], k) == Open(received, k)
  {
    hide StartedAs, LastStart, Deltas;
    var longer := received + [e];
    assert longer[k] == received[k] && longer[..k] == received[..k];
    if received[k].BlockEnd? {
      StartedEarlier(received, e, k, received[k].kind, received[k].index);
      var start := LastStart(received[..k], received[k].index);
      assert longer[start + 1..k] == received[start + 1..k];
    }
    if received[k].Delta? {
      StartedEarlier(received, e, k, received[k].kind, received[k].index);
    }
    assert forall j | 0 <= j < k :: longer[j] == received[j];
  }

  lemma AllFitLast(received: seq<ProxyEvent>, e: ProxyEvent)
    ensures AllFit(received + [e]) <==> AllFit(received) && Fits(received + [e], |received|)
  {
    hide Fits;
    forall k | 0 <= k < |received|
      ensures Fits(received + [e], k) == Fits(received, k)
    {
      EarlierAsBefore(received, e, k);
    }
  }

  // Blocks are of the kind of their last start.
  lemma KindOfBlock(p: Parsers, received: seq<ProxyEvent>, k: nat, kind: Kind, index: int)
    requires k <= |received| && AppliedAll(p, received[..k]).Some?
    ensures HasKind(AppliedAll(p, received[..k]).value, index, kind) <==> StartedAs(received, k, kind, index)
  {
    hide LastStart, Deltas, ToolText, ToolArguments, LastSignature, AppliedAll;
    BlocksAreTheirDeltas(p, received[..k], index);
    var start := LastStart(received[..k], index);
    if start >= 0 {
      assert received[..k][start] == received[start];
    }
  }

  lemma LastFitsExactly(p: Parsers, received: seq<ProxyEvent>, e: ProxyEvent)
    requires AppliedAll(p, received).Some?
    ensures AppliedAll(p, received + [e]).Some? <==> Fits(received + [e], |received|)
  {
    hide StartedAs, HasKind, Extended, Ended, NewBlock;
    var longer := received + [e];
    assert longer[..|longer| - 1] == received && longer[..|received|] == received;
    if e.Delta? || e.BlockEnd? {
      KindOfBlock(p, longer, |received|, e.kind, e.index);
    }
  }

  // The partial message takes all events exactly if each of them fits.
  lemma {:induction false} AppliedExactly(p: Parsers, received: seq<ProxyEvent>)
    ensures AppliedAll(p, received).Some? <==> AllFit(received)
  {
    hide Fits, Applied;
    if received != [] {
      var before, e := received[..|received| - 1], received[|received| - 1];
      assert received == before + [e];
      AppliedExactly(p, before);
      AllFitLast(before, e);
      if AppliedAll(p, before).Some? {
        LastFitsExactly(p, before, e);
      }
    }
  }

  // What the last event makes the stream push.
  lemma LastIsTold(p: Parsers, received: seq<ProxyEvent>, e: ProxyEvent)
    requires AppliedAll(p, received).Some? && AppliedAll(p, received + [e]).Some?
    ensures
      var pushed := Announced(AppliedAll(p, received).value, e);
      && (pushed.Some? <==> Heard(received + [e], |received|))
      && (pushed.Some? ==> TellsOf(received + [e], |received|, pushed.value))
  {
    hide StartedAs, AppliedAll;
    var longer := received + [e];
    assert longer[..|received|] == received;
    LastFitsExactly(p, received, e);
    if e.BlockEnd? {
      KindOfBlock(p, longer, |received|, e.kind, e.index);
      if HasKind(AppliedAll(p, received).value, e.index, e.kind) {
        ContentIsDeltas(p, received, e);
      }
    }
  }

  lemma ContentIsDeltas(p: Parsers, received: seq<ProxyEvent>, e: ProxyEvent)
    requires AppliedAll(p, received).Some? && e.BlockEnd? && HasKind(AppliedAll(p, received).value, e.index, e.kind)
    ensures
      var longer, start := received + [e], LastStart(received, e.index);
      BlockContent(AppliedAll(p, received).value[e.index]) ==
      if e.kind == ToolKind then [] else Deltas(longer[start + 1..|received|], e.index)
  {
    hide LastStart, Deltas, ToolText, ToolArguments, LastSignature, AppliedAll;
    BlocksAreTheirDeltas(p, received, e.index);
    var start := LastStart(received, e.index);
    assert (received + [e])[start + 1..|received|] == received[start + 1..];
  }

  // One event more.
  lemma TellsLast(received: seq<ProxyEvent>, e: ProxyEvent, pushed: seq<StreamEvent>, told: seq<nat>, last: Option<StreamEvent>)
    returns (told': seq<nat>)
    requires Tells(received, pushed, told)
    requires last.Some? <==> Heard(received + [e], |received|) && Open(received, |received|)
    requires last.Some? ==> TellsOf(received + [e], |received|, last.value)
    ensures Tells(received + [e], pushed + (if last.Some? then [last.value] else []), told')
  {
    hide TellsOf, Heard, Open;
    var longer := received + [e];
    told' := told + if last.Some? then [|received|] else [];
    forall k | 0 <= k < |received|
      ensures Heard(longer, k) == Heard(received, k) && Open(longer, k) == Open(received, k)
      ensures forall s :: TellsOf(longer, k, s) == TellsOf(received, k, s)
    {
      EarlierAsBefore(received, e, k);
    }
    OpenBeforeLast(received, e);
    var pushed' := pushed + if last.Some? then [last.value] else [];
    forall i | 0 <= i < |told'|
      ensures told'[i] < |longer| && TellsOf(longer, told'[i], pushed'[i])
    {
      if i < |told| {
        EarlierAsBefore(received, e, told[i]);
        assert told'[i] == told[i] && pushed'[i] == pushed[i];
      }
    }
    forall k | 0 <= k < |longer|
      ensures k in told' <==> Heard(longer, k) && Open(longer, k)
    {
      if k == |received| {
        assert |received| !in told;
      }
    }
  }

  lemma OpenBeforeLast(received: seq<ProxyEvent>, e: ProxyEvent)
    ensures Open(received + [e], |received|) == Open(received, |received|)
  {
    assert forall j | 0 <= j < |received| :: (received + [e])[j] == received[j];
  }

  // The stream is complete once a terminal event was told.
  lemma CompleteExactly(received: seq<ProxyEvent>, pushed: seq<StreamEvent>, told: seq<nat>)
    requires Tells(received, pushed, told)
    ensures Complete(pushed) <==> !Open(received, |received|)
  {
    if Complete(pushed) {
      var i :| 0 <= i < |pushed| && (pushed[i].Finished? || pushed[i].ErrorReported? || pushed[i].ClientFailed?);
      assert TellsOf(received, told[i], pushed[i]);
      assert Terminal(received[told[i]]);
    }
    if !Open(received, |received|) {
      var k := FirstTerminal(received);
      assert Heard(received, k) && Open(received, k) && k in told;
      var i :| 0 <= i < |told| && told[i] == k;
      assert TellsOf(received, told[i], pushed[i]);
      assert pushed[i] in pushed;
    }
  }

  lemma FirstTerminal(received: seq<ProxyEvent>) returns (k: nat)
    requires !Open(received, |received|)
    ensures k < |received| && Terminal(received[k]) && Open(received, k)
  {
    var some :| 0 <= some < |received| && Terminal(received[some]);
    k := 0;
    while !Terminal(received[k])
      invariant k <= some && Open(received, k)
      decreases some - k
    {
      k := k + 1;
    }
  }

  lemma ClientStep(p: Parsers, lines: seq<Text>)
    requires lines != [] && !AfterLines(p, INITIAL, lines).failed
    ensures
      var before, line := lines[..|lines| - 1], lines[|lines| - 1];
      var c, c' := AfterLines(p, INITIAL, before), AfterLines(p, INITIAL, lines);
      && !c.failed
      && (Payload(line).None? ==> c' == c)
      && (Payload(line).Some? ==>
            && p.event(Payload(line).value).Some?
            && var e := p.event(Payload(line).value).value;
            && Applied(p, c.content, e) == Some(c'.content)
            && c'.events == (if Announced(c.content, e).Some? then Pushed(c.events, Announced(c.content, e).value) else c.events))
  {
    hide Payload, Applied, Announced, Pushed;
  }

  // As long as the client has not failed, its consumer has been given one event for each event received,
  // in order, apart from unknown ones and ends of tool calls that were not started, up to the first
  // terminal one; each has the kind, block and delta of its event.
  lemma {:induction false} PushesTellAll(p: Parsers, lines: seq<Text>) returns (told: seq<nat>)
    requires !AfterLines(p, INITIAL, lines).failed
    ensures Received(p, lines).Some?
    ensures Tells(Received(p, lines).value, AfterLines(p, INITIAL, lines).events, told)
  {
    hide Payload, Applied, Announced, AfterLine, Tells, BlockIs, Complete, AppliedAll, Heard, TellsOf, Open;
    ClientHoldsBlocks(p, lines, 0);
    if lines == [] {
      told := [];
      NothingTold();
    } else {
      var before, line := lines[..|lines| - 1], lines[|lines| - 1];
      ClientStep(p, lines);
      told := PushesTellAll(p, before);
      if Payload(line).Some? {
        ClientHoldsBlocks(p, before, 0);
        var received, e := Received(p, before).value, p.event(Payload(line).value).value;
        var c := AfterLines(p, INITIAL, before);
        LastIsTold(p, received, e);
        CompleteExactly(received, c.events, told);
        var announced := Announced(c.content, e);
        told := TellsLast(received, e, c.events, told, if Open(received, |received|) then announced else None);
        assert c.events + [] == c.events;
      }
    }
  }

  lemma NothingTold()
    ensures Tells([], [], [])
  {
  }

  // The last event it is given is `Finished` exactly if the first terminal event is `Done`, with its
  // reason, and `ErrorReported` exactly if that is an error of the server.
  lemma EndsWithItsTerminalEvent(p: Parsers, lines: seq<Text>, reason: nat)
    requires !AfterLines(p, INITIAL, lines).failed
    ensures Received(p, lines).Some?
    ensures
      var received, pushed := Received(p, lines).value, AfterLines(p, INITIAL, lines).events;
      && (pushed != [] && pushed[|pushed| - 1] == Finished(reason) <==>
            exists k | 0 <= k < |received| :: Open(received, k) && received[k] == Done(reason))
      && (pushed != [] && pushed[|pushed| - 1] == ErrorReported(reason) <==>
            exists k | 0 <= k < |received| :: Open(received, k) && received[k].ServerError? && received[k].reason == reason)
      && (forall i | 0 <= i < |pushed| - 1 :: !pushed[i].Finished? && !pushed[i].ErrorReported?)
      && (forall i | 0 <= i < |pushed| :: !pushed[i].ClientFailed?)
  {
    hide AfterLines, Received, Heard;
    var told := PushesTellAll(p, lines);
    var received, pushed := Received(p, lines).value, AfterLines(p, INITIAL, lines).events;
    forall k | 0 <= k < |received| && Terminal(received[k]) && Open(received, k)
      ensures pushed != [] && TellsOf(received, k, pushed[|pushed| - 1])
    {
      TerminalIsLast(received, pushed, told, k);
    }
    forall i | 0 <= i < |pushed|
      ensures TellsOf(received, told[i], pushed[i])
      ensures i < |pushed| - 1 ==> !Terminal(received[told[i]])
    {
      if i < |pushed| - 1 {
        assert told[i] < told[|pushed| - 1] && told[|pushed| - 1] in told;
      }
    }
    if pushed != [] {
      assert told[|pushed| - 1] in told;
    }
  }

  lemma TerminalIsLast(received: seq<ProxyEvent>, pushed: seq<StreamEvent>, told: seq<nat>, k: nat)
    requires Tells(received, pushed, told) && k < |received| && Terminal(received[k]) && Open(received, k)
    ensures pushed != [] && TellsOf(received, k, pushed[|pushed| - 1])
  {
    assert Heard(received, k) && k in told;
    var i :| 0 <= i < |told| && told[i] == k;
    assert told[|told| - 1] in told && told[i] <= told[|told| - 1];
  }

  // Failing

  // The line carries something that cannot be parsed, or an event that does not fit.
  predicate Spoils(p: Parsers, received: seq<ProxyEvent>, line: Text) {
    var data := Payload(line);
    data.Some? && (p.event(data.value).None? || !Fits(received + [p.event(data.value).value], |received|))
  }

  lemma LineFailsExactly(p: Parsers, before: seq<Text>, line: Text)
    requires !AfterLines(p, INITIAL, before).failed
    ensures Received(p, before).Some?
    ensures AfterLine(p, AfterLines(p, INITIAL, before), line).failed <==> Spoils(p, Received(p, before).value, line)
    ensures Spoils(p, Received(p, before).value, line) ==>
              AfterLine(p, AfterLines(p, INITIAL, before), line) == Failed(AfterLines(p, INITIAL, before))
  {
    hide Payload, Applied, Fits, Failed;
    ClientHoldsBlocks(p, before, 0);
    FailingFails(AfterLines(p, INITIAL, before));
    var received := Received(p, before).value;
    if Payload(line).Some? && p.event(Payload(line).value).Some? {
      var e := p.event(Payload(line).value).value;
      assert (received + [e])[..|received|] == received;
      LastFitsExactly(p, received, e);
    }
  }

  lemma FailingFails(c: Client)
    ensures Failed(c).failed && Failed(c).content == c.content
    ensures Failed(c).events == c.events + if Complete(c.events) then [] else [ClientFailed]
  {
  }

  // The client fails exactly if some line spoils what was received before it; from the first such line on
  // nothing changes any more, and the consumer is told of the failure unless its stream had ended.
  lemma {:induction false} FailsExactly(p: Parsers, lines: seq<Text>) returns (n: nat)
    ensures n <= |lines| && !AfterLines(p, INITIAL, lines[..n]).failed && Received(p, lines[..n]).Some?
    ensures AfterLines(p, INITIAL, lines).failed <==> n < |lines|
    ensures n < |lines| ==>
      var c, received := AfterLines(p, INITIAL, lines[..n]), Received(p, lines[..n]).value;
      && Spoils(p, received, lines[n])
      && AfterLines(p, INITIAL, lines).content == c.content
      && AfterLines(p, INITIAL, lines).events == c.events + if Open(received, |received|) then [ClientFailed] else []
  {
    hide AfterLine, Failed, Spoils, Open, Complete;
    if lines == [] {
      n := 0;
    } else {
      var before, line := lines[..|lines| - 1], lines[|lines| - 1];
      n := FailsExactly(p, before);
      assert lines[..n] == before[..n];
      if n < |before| {
        assert lines[n] == before[n];
        FailedReadsNothing(p, AfterLines(p, INITIAL, before), line);
      } else {
        assert before[..n] == before;
        LineFailsExactly(p, before, line);
        if Spoils(p, Received(p, before).value, line) {
          var told := PushesTellAll(p, before);
          CompleteExactly(Received(p, before).value, AfterLines(p, INITIAL, before).events, told);
          FailingFails(AfterLines(p, INITIAL, before));
        } else {
          n := |lines|;
          assert lines[..n] == lines;
          ClientHoldsBlocks(p, lines, 0);
        }
      }
    }
  }

  lemma FailedReadsNothing(p: Parsers, c: Client, line: Text)
    requires c.failed
    ensures AfterLine(p, c, line) == c
  {
  }
}
