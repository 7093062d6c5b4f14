/**
 Rebuilding an assistant message from the events of a proxy server
 (packages/agent/src/proxy.ts, packages/ai/src/utils/event-stream.ts).

 The response is the list of decoded texts that the reader delivers. `JSON.parse` of one event and
 `parseStreamingJson` of tool arguments are function values. Aborting is not modelled.
 */
module ProxyStream {
  import opened Results
  import opened Utf16

  datatype Kind = TextKind | ThinkingKind | ToolKind

  datatype ProxyEvent =
    | Start
    | BlockStart(kind: Kind, index: int, id: Text, name: Text)
    | Delta(kind: Kind, index: int, delta: Text)
    | BlockEnd(kind: Kind, index: int, signature: Option<Text>)
    | Done(reason: nat)
    | ServerError(reason: nat, message: Text)
    | Unknown

  datatype Block =
    | TextBlock(text: Text, signature: Option<Text>)
    | Thinking(text: Text, signature: Option<Text>)
    | ToolCall(id: Text, name: Text, arguments: nat, partialJson: Option<Text>)

  datatype StreamEvent =
    | Started
    | BlockStarted(kind: Kind, index: int)
    | DeltaReceived(kind: Kind, index: int, delta: Text)
    | BlockEnded(kind: Kind, index: int, content: Text)
    | Finished(reason: nat)
    | ErrorReported(reason: nat)
    | ClientFailed

  datatype Parsers = Parsers(event: Text -> Option<ProxyEvent>, arguments: Text -> nat)

  // `content` is the partial message, `events` what the consumer sees, `failed` that an error was thrown.
  datatype Client = Client(content: map<int, Block>, events: seq<StreamEvent>, failed: bool)

  const INITIAL := Client(map[], [], false)

  const NEWLINE: CodeUnit := 0x0A

  const DATA := Units("data: ")

  // Lines

  // The lines that a text completes, and the unfinished line after them.
  datatype Split = Split(lines: seq<Text>, rest: Text)

  function SplitLines(text: Text): Split {
    if text == [] then Split([], [])
    else
      var before := SplitLines(text[..|text| - 1]);
      var last := text[|text| - 1];
      if last == NEWLINE then Split(before.lines + [before.rest], [])
      else Split(before.lines, before.rest + [last])
  }

  lemma {:induction false} UnfinishedLine(text: Text)
    requires NEWLINE !in text
    ensures SplitLines(text) == Split([], text)
  {
    if text != [] {
      var before, last := text[..|text| - 1], text[|text| - 1];
      assert last in text && forall c | c in before :: c in text;
      UnfinishedLine(before);
      assert before + [last] == text;
    }
  }

  lemma {:induction false} RestHasNoNewline(text: Text)
    ensures NEWLINE !in SplitLines(text).rest
  {
    if text != [] {
      RestHasNoNewline(text[..|text| - 1]);
    }
  }

  // Splitting in two goes completes the same lines as splitting at once.
  lemma {:induction false} SplitInTwo(a: Text, b: Text)
    ensures
      var first := SplitLines(a);
      var second := SplitLines(first.rest + b);
      SplitLines(a + b) == Split(first.lines + second.lines, second.rest)
    decreases |b|
  {
    var first := SplitLines(a);
    if b == [] {
      RestHasNoNewline(a);
      UnfinishedLine(first.rest);
      assert a + b == a && first.rest + b == first.rest && first.lines + [] == first.lines;
    } else {
      var before, last := b[..|b| - 1], b[|b| - 1];
      SplitInTwo(a, before);
      var middle := SplitLines(first.rest + before);
      assert (a + b)[..|a + b| - 1] == a + before;
      assert (first.rest + b)[..|first.rest + b| - 1] == first.rest + before;
      assert first.lines + (middle.lines + [middle.rest]) == first.lines + middle.lines + [middle.rest];
    }
  }

  // Events

  predicate Complete(events: seq<StreamEvent>) {
    exists e | e in events :: e.Finished? || e.ErrorReported? || e.ClientFailed?
  }

  // The stream drops what is pushed after its terminal event.
  function Pushed(events: seq<StreamEvent>, e: StreamEvent): seq<StreamEvent> {
    if Complete(events) then events else events + [e]
  }

  function KindOf(block: Block): Kind {
    match block
    case TextBlock(_, _) => TextKind
    case Thinking(_, _) => ThinkingKind
    case ToolCall(_, _, _, _) => ToolKind
  }

  predicate HasKind(content: map<int, Block>, index: int, kind: Kind) {
    index in content && KindOf(content[index]) == kind
  }

  function NewBlock(kind: Kind, id: Text, name: Text): Block {
    match kind
    case TextKind => TextBlock([], None)
    case ThinkingKind => Thinking([], None)
    case ToolKind => ToolCall(id, name, 0, Some([]))
  }

  // After a tool call has ended its partial text is gone; more text is then appended to "undefined".
  function Extended(p: Parsers, block: Block, delta: Text): Block {
    match block
    case TextBlock(text, signature) => TextBlock(text + delta, signature)
    case Thinking(text, signature) => Thinking(text + delta, signature)
    case ToolCall(id, name, _, partialJson) =>
      var json := (if partialJson.Some? then partialJson.value else Units("undefined")) + delta;
      ToolCall(id, name, p.arguments(json), Some(json))
  }

  function Ended(block: Block, signature: Option<Text>): Block {
    match block
    case TextBlock(text, _) => TextBlock(text, signature)
    case Thinking(text, _) => Thinking(text, signature)
    case ToolCall(id, name, arguments, _) => ToolCall(id, name, arguments, None)
  }

  function BlockContent(block: Block): Text {
    if block.ToolCall? then [] else block.text
  }

  // The partial message after one event, or None if the event does not fit it.
  function Applied(p: Parsers, content: map<int, Block>, e: ProxyEvent): Option<map<int, Block>> {
    match e
    case BlockStart(kind, index, id, name) => Some(content[index := NewBlock(kind, id, name)])
    case Delta(kind, index, delta) =>
      if HasKind(content, index, kind) then Some(content[index := Extended(p, content[index], delta)]) else None
    case BlockEnd(kind, index, signature) =>
      if HasKind(content, index, kind) then Some(content[index := Ended(content[index], signature)])
      else if kind == ToolKind then Some(content)
      else None
    case _ => Some(content)
  }

  // What the event makes the stream push, given the partial message before it.
  function Announced(content: map<int, Block>, e: ProxyEvent): Option<StreamEvent> {
    match e
    case Start => Some(Started)
    case BlockStart(kind, index, _, _) => Some(BlockStarted(kind, index))
    case Delta(kind, index, delta) => Some(DeltaReceived(kind, index, delta))
    case BlockEnd(kind, index, _) =>
      if HasKind(content, index, kind) then Some(BlockEnded(kind, index, BlockContent(content[index]))) else None
    case Done(reason) => Some(Finished(reason))
    case ServerError(reason, _) => Some(ErrorReported(reason))
    case Unknown => None
  }

  function Failed(c: Client): Client {
    c.(failed := true, events := Pushed(c.events, ClientFailed))
  }

  function AfterEvent(p: Parsers, c: Client, e: ProxyEvent): Client {
    match Applied(p, c.content, e)
    case None => Failed(c)
    case Some(content) =>
      var announced := Announced(c.content, e);
      Client(content, if announced.Some? then Pushed(c.events, announced.value) else c.events, false)
  }

  // The text of the event that a line carries.
  function Payload(line: Text): Option<Text> {
    if DATA <= line && Trim(line[|DATA|..]) != [] then Some(Trim(line[|DATA|..])) else None
  }

  function AfterLine(p: Parsers, c: Client, line: Text): Client {
    match Payload(line)
    case None => c
    case Some(data) => if c.failed then c else match p.event(data)
      case None => Failed(c)
      case Some(e) => AfterEvent(p, c, e)
  }

  // After an error nothing more is read.
  function AfterLines(p: Parsers, c: Client, lines: seq<Text>): Client {
    if lines == [] then c else AfterLine(p, AfterLines(p, c, lines[..|lines| - 1]), lines[|lines| - 1])
  }

  lemma {:induction false} LinesInTwo(p: Parsers, c: Client, a: seq<Text>, b: seq<Text>)
    ensures AfterLines(p, c, a + b) == AfterLines(p, AfterLines(p, c, a), b)
    decreases |b|
  {
    hide AfterLine;
    if b == [] {
      assert a + b == a;
    } else {
      assert (a + b)[..|a + b| - 1] == a + b[..|b| - 1];
      LinesInTwo(p, c, a, b[..|b| - 1]);
    }
  }

  lemma {:induction false} FailedStays(p: Parsers, c: Client, lines: seq<Text>)
    requires c.failed
    ensures AfterLines(p, c, lines) == c
  {
    if lines != [] {
      FailedStays(p, c, lines[..|lines| - 1]);
    }
  }

  function Concatenated(chunks: seq<Text>): Text {
    if chunks == [] then [] else Concatenated(chunks[..|chunks| - 1]) + chunks[|chunks| - 1]
  }

  lemma {:induction false} ConcatenatedAll(chunks: seq<Text>, n: nat)
    requires n <= |chunks|
    ensures Concatenated(chunks[..n]) <= Concatenated(chunks)
    decreases |chunks| - n
  {
    if n < |chunks| {
      assert chunks[..n + 1][..n] == chunks[..n];
      ConcatenatedAll(chunks, n + 1);
    } else {
      assert chunks[..n] == chunks;
    }
  }

  lemma MoreTextAfterFailure(p: Parsers, text: Text, whole: Text)
    requires text <= whole && AfterLines(p, INITIAL, SplitLines(text).lines).failed
    ensures AfterLines(p, INITIAL, SplitLines(whole).lines) == AfterLines(p, INITIAL, SplitLines(text).lines)
  {
    var rest := whole[|text|..];
    assert whole == text + rest;
    SplitInTwo(text, rest);
    var first := SplitLines(text);
    LinesInTwo(p, INITIAL, first.lines, SplitLines(first.rest + rest).lines);
    FailedStays(p, AfterLines(p, INITIAL, first.lines), SplitLines(first.rest + rest).lines);
  }

  // The client

  class ProxyClient {
    var content: map<int, Block>
    var events: seq<StreamEvent>
    var failed: bool

    ghost function View(): Client
      reads this
    {
      Client(content, events, failed)
    }

    constructor ()
      ensures View() == INITIAL
    {
      content, events, failed := map[], [], false;
    }

    method Push(e: StreamEvent)
      modifies this`events
      ensures events == Pushed(old(events), e)
    {
      if Complete(events) {
        return;
      }
      events := events + [e];
    }

    method ProcessProxyEvent(p: Parsers, e: ProxyEvent) returns (pushed: Option<StreamEvent>)
      requires !failed
      modifies this`content, this`failed
      ensures match Applied(p, old(content), e)
              case Some(after) => !failed && content == after && pushed == Announced(old(content), e)
              case None => failed && content == old(content) && pushed == None
    {
      pushed := None;
      match e
      case Start =>
        pushed := Some(Started);
      case BlockStart(kind, index, id, name) =>
        content := content[index := NewBlock(kind, id, name)];
        pushed := Some(BlockStarted(kind, index));
      case Delta(kind, index, delta) =>
        if index in content && KindOf(content[index]) == kind {
          content := content[index := Extended(p, content[index], delta)];
          pushed := Some(DeltaReceived(kind, index, delta));
        } else {
          failed := true;
        }
      case BlockEnd(kind, index, signature) =>
        if index in content && KindOf(content[index]) == kind {
          pushed := Some(BlockEnded(kind, index, BlockContent(content[index])));
          content := content[index := Ended(content[index], signature)];
        } else if kind != ToolKind {
          failed := true;
        }
      case Done(reason) =>
        pushed := Some(Finished(reason));
      case ServerError(reason, _) =>
        pushed := Some(ErrorReported(reason));
      case Unknown =>
    }

    method HandleLine(p: Parsers, line: Text)
      requires !failed
      modifies this
      ensures View() == AfterLine(p, old(View()), line)
    {
      if DATA <= line {
        var data := Trim(line[|DATA|..]);
        if |data| > 0 {
          var proxyEvent := p.event(data);
          var pushed: Option<StreamEvent> := None;
          if proxyEvent.Some? {
            pushed := ProcessProxyEvent(p, proxyEvent.value);
          } else {
            failed := true;
          }
          if failed {
            Push(ClientFailed);
          } else if pushed.Some? {
            Push(pushed.value);
          }
        }
      }
    }

    // Stops at the first line that fails.
    method HandleLines(p: Parsers, lines: seq<Text>)
      requires !failed
      modifies this
      ensures View() == AfterLines(p, old(View()), lines)
    {
      hide AfterLine;
      for k := 0 to |lines|
        invariant !failed
        invariant View() == AfterLines(p, old(View()), lines[..k])
      {
        assert lines[..k + 1][..k] == lines[..k];
        HandleLine(p, lines[k]);
        if failed {
          assert lines == lines[..k + 1] + lines[k + 1..];
          LinesInTwo(p, old(View()), lines[..k + 1], lines[k + 1..]);
          FailedStays(p, View(), lines[k + 1..]);
          return;
        }
      }
      assert lines[..|lines|] == lines;
    }

    // The result depends on the received text alone, not on where it was cut into chunks; an
    // unterminated last line is not processed.
    method Stream(p: Parsers, chunks: seq<Text>)
      requires View() == INITIAL
      modifies this
      ensures View() == AfterLines(p, INITIAL, SplitLines(Concatenated(chunks)).lines)
    {
      hide AfterLine, AfterLines, SplitLines, Pushed;
      var buffer: Text := [];
      NothingReceived(p);
      for i := 0 to |chunks|
        invariant !failed
        invariant buffer == SplitLines(Concatenated(chunks[..i])).rest
        invariant View() == AfterLines(p, INITIAL, SplitLines(Concatenated(chunks[..i])).lines)
      {
        ghost var received := Concatenated(chunks[..i]);
        assert chunks[..i + 1][..i] == chunks[..i];
        SplitInTwo(received, chunks[i]);
        buffer := buffer + chunks[i];
        var split := SplitLines(buffer);
        buffer := split.rest;
        LinesInTwo(p, INITIAL, SplitLines(received).lines, split.lines);
        HandleLines(p, split.lines);
        if failed {
          ConcatenatedAll(chunks, i + 1);
          MoreTextAfterFailure(p, Concatenated(chunks[..i + 1]), Concatenated(chunks));
          return;
        }
      }
      assert chunks[..|chunks|] == chunks;
    }
  }

  lemma NothingReceived(p: Parsers)
    ensures SplitLines([]) == Split([], []) && AfterLines(p, INITIAL, []) == INITIAL
  {
  }

  // Blocks

  // The partial message after a list of events, or None if one of them did not fit.
  function AppliedAll(p: Parsers, events: seq<ProxyEvent>): Option<map<int, Block>> {
    if events == [] then Some(map[])
    else match AppliedAll(p, events[..|events| - 1])
      case None => None
      case Some(content) => Applied(p, content, events[|events| - 1])
  }

  // The position of the last start event for a block, or -1.
  function LastStart(events: seq<ProxyEvent>, index: int): (position: int)
    ensures -1 <= position < |events|
  {
    if events == [] then -1
    else
      var last := events[|events| - 1];
      if last.BlockStart? && last.index == index then |events| - 1
      else LastStart(events[..|events| - 1], index)
  }

  // What one event adds to the deltas of a block.
  function Added(e: ProxyEvent, index: int): Text {
    if e.Delta? && e.index == index then e.delta else []
  }

  // All deltas for a block, concatenated.
  function Deltas(events: seq<ProxyEvent>, index: int): Text {
    if events == [] then [] else Deltas(events[..|events| - 1], index) + Added(events[|events| - 1], index)
  }

  // The position of the last end event for a block, or -1.
  function LastEnd(events: seq<ProxyEvent>, index: int): (position: int)
    ensures -1 <= position < |events|
  {
    if events == [] then -1
    else
      var last := events[|events| - 1];
      if last.BlockEnd? && last.index == index then |events| - 1
      else LastEnd(events[..|events| - 1], index)
  }

  predicate HasDelta(events: seq<ProxyEvent>, index: int) {
    exists k | 0 <= k < |events| :: events[k].Delta? && events[k].index == index
  }

  // The partial text of a tool call: its deltas; gone once it has ended; and from the first delta
  // after an end on, `undefined` and the deltas since then.
  function ToolText(since: seq<ProxyEvent>, index: int): Option<Text> {
    var end := LastEnd(since, index);
    if end < 0 then Some(Deltas(since, index))
    else if HasDelta(since[end + 1..], index) then Some(Units("undefined") + Deltas(since[end + 1..], index))
    else None
  }

  // Its arguments are parsed from the partial text at each delta, and are empty before the first.
  function ToolArguments(p: Parsers, since: seq<ProxyEvent>, index: int): int {
    if since == [] then 0
    else
      var last, text := since[|since| - 1], ToolText(since, index);
      if last.Delta? && last.index == index && text.Some? then p.arguments(text.value)
      else ToolArguments(p, since[..|since| - 1], index)
  }

  // The signature that came with the last end of a text or of thinking.
  function LastSignature(since: seq<ProxyEvent>, index: int): Option<Text> {
    if since == [] then None
    else
      var last := since[|since| - 1];
      if last.BlockEnd? && last.index == index && last.kind != ToolKind then last.signature
      else LastSignature(since[..|since| - 1], index)
  }

  // A block of the given kind, made by the events since its start.
  ghost predicate BlockHolds(p: Parsers, block: Block, kind: Kind, since: seq<ProxyEvent>, index: int) {
    && KindOf(block) == kind
    && (block.ToolCall? ==> block.partialJson == ToolText(since, index) && block.arguments == ToolArguments(p, since, index))
    && (!block.ToolCall? ==> block.text == Deltas(since, index) && block.signature == LastSignature(since, index))
  }

  // A block made by the events since its start at `position`, the last one for its index.
  ghost predicate BlockSince(p: Parsers, block: Block, events: seq<ProxyEvent>, position: nat, index: int)
    requires position < |events|
  {
    && events[position].BlockStart? && events[position].index == index
    && (forall k | position < k < |events| :: !(events[k].BlockStart? && events[k].index == index))
    && (block.ToolCall? ==> block.id == events[position].id && block.name == events[position].name)
    && BlockHolds(p, block, events[position].kind, events[position + 1..], index)
  }

  // Each block exists exactly if it was started, is of the kind it was last started as, and holds the
  // deltas since that start.
  ghost predicate BlockIs(p: Parsers, content: map<int, Block>, events: seq<ProxyEvent>, index: int) {
    var position := LastStart(events, index);
    && (index in content <==> position >= 0)
    && (index in content ==> BlockSince(p, content[index], events, position, index))
  }

  lemma {:induction false} BlocksAreTheirDeltas(p: Parsers, events: seq<ProxyEvent>, index: int)
    requires AppliedAll(p, events).Some?
    ensures BlockIs(p, AppliedAll(p, events).value, events, index)
  {
    if events != [] {
      var before, last := events[..|events| - 1], events[|events| - 1];
      BlocksAreTheirDeltas(p, before, index);
      OneEvent(p, AppliedAll(p, before).value, before, last, index);
      assert events == before + [last];
    }
  }

  lemma OneEvent(p: Parsers, content: map<int, Block>, events: seq<ProxyEvent>, e: ProxyEvent, index: int)
    requires BlockIs(p, content, events, index) && Applied(p, content, e).Some?
    ensures BlockIs(p, Applied(p, content, e).value, events + [e], index)
  {
    hide BlockSince, Applied, NewBlock, LastStart;
    LastStartStep(events, e, index);
    if e.BlockStart? && e.index == index {
      JustStarted(p, content, events, e);
    } else if LastStart(events, index) >= 0 {
      SinceThen(p, content, events, e, LastStart(events, index), index);
    } else {
      UntouchedBlock(p, content, e, index);
    }
  }

  lemma JustStarted(p: Parsers, content: map<int, Block>, events: seq<ProxyEvent>, e: ProxyEvent)
    requires e.BlockStart?
    ensures Applied(p, content, e) == Some(content[e.index := NewBlock(e.kind, e.id, e.name)])
    ensures BlockSince(p, NewBlock(e.kind, e.id, e.name), events + [e], |events|, e.index)
  {
    hide BlockHolds, NewBlock;
    NewBlockHolds(p, content, e);
    assert (events + [e])[|events| + 1..] == [];
  }

  lemma SinceThen(p: Parsers, content: map<int, Block>, events: seq<ProxyEvent>, e: ProxyEvent, position: nat, index: int)
    requires index in content && position < |events| && BlockSince(p, content[index], events, position, index)
    requires Applied(p, content, e).Some? && !(e.BlockStart? && e.index == index)
    ensures index in Applied(p, content, e).value
    ensures BlockSince(p, Applied(p, content, e).value[index], events + [e], position, index)
  {
    hide BlockHolds, Applied;
    assert (events + [e])[position + 1..] == events[position + 1..] + [e];
    BlockKept(p, content, e, index, events[position].kind, events[position + 1..]);
  }

  lemma UntouchedBlock(p: Parsers, content: map<int, Block>, e: ProxyEvent, index: int)
    requires index !in content && Applied(p, content, e).Some? && !(e.BlockStart? && e.index == index)
    ensures index !in Applied(p, content, e).value
  {
  }

  lemma LastStartStep(events: seq<ProxyEvent>, e: ProxyEvent, index: int)
    ensures LastStart(events + [e], index) == if e.BlockStart? && e.index == index then |events| else LastStart(events, index)
  {
    assert (events + [e])[..|events|] == events;
  }

  lemma DeltasStep(events: seq<ProxyEvent>, e: ProxyEvent, index: int)
    ensures Deltas(events + [e], index) == Deltas(events, index) + Added(e, index)
  {
    assert (events + [e])[..|events|] == events;
  }

  lemma NewBlockHolds(p: Parsers, content: map<int, Block>, e: ProxyEvent)
    requires e.BlockStart?
    ensures
      var block := NewBlock(e.kind, e.id, e.name);
      && Applied(p, content, e) == Some(content[e.index := block])
      && (block.ToolCall? ==> block.id == e.id && block.name == e.name)
      && BlockHolds(p, block, e.kind, [], e.index)
  {
  }

  lemma BlockKept(p: Parsers, content: map<int, Block>, e: ProxyEvent, index: int, kind: Kind, since: seq<ProxyEvent>)
    requires index in content && BlockHolds(p, content[index], kind, since, index)
    requires Applied(p, content, e).Some? && !(e.BlockStart? && e.index == index)
    ensures index in Applied(p, content, e).value
    ensures BlockHolds(p, Applied(p, content, e).value[index], kind, since + [e], index)
    ensures var block := Applied(p, content, e).value[index];
            block.ToolCall? ==> content[index].ToolCall? && block.id == content[index].id && block.name == content[index].name
  {
    hide ToolText, Deltas, LastSignature;
    DeltasStep(since, e, index);
    LastSignatureStep(since, e, index);
    ToolTextStep(since, e, index);
    assert (since + [e])[..|since|] == since;
    assert Deltas(since, index) + [] == Deltas(since, index);
  }

  // One more event: a delta adds to what is there, or to `undefined`; an end takes it away.
  lemma ToolTextStep(since: seq<ProxyEvent>, e: ProxyEvent, index: int)
    ensures ToolText(since + [e], index) ==
            if e.Delta? && e.index == index
            then Some((if ToolText(since, index).Some? then ToolText(since, index).value else Units("undefined")) + e.delta)
            else if e.BlockEnd? && e.index == index then None
            else ToolText(since, index)
  {
    hide *;
    if e.BlockEnd? && e.index == index {
      EndTakesText(since, e, index);
    } else {
      if LastEnd(since, index) >= 0 {
        TextAfterEnd(since, e, index);
      } else {
        TextBeforeEnd(since, e, index);
      }
      AddsItsDelta(e, index);
    }
  }

  lemma AddsItsDelta(e: ProxyEvent, index: int)
    ensures Added(e, index) == if e.Delta? && e.index == index then e.delta else []
    ensures !(e.Delta? && e.index == index) ==> forall text: Text :: text + Added(e, index) == text
  {
  }

  lemma TextBeforeEnd(since: seq<ProxyEvent>, e: ProxyEvent, index: int)
    requires LastEnd(since, index) == -1 && !(e.BlockEnd? && e.index == index)
    ensures ToolText(since, index) == Some(Deltas(since, index))
    ensures ToolText(since + [e], index) == Some(Deltas(since, index) + Added(e, index))
  {
    hide LastEnd, HasDelta, Deltas;
    LastEndStep(since, e, index);
    DeltasStep(since, e, index);
  }

  lemma TextAfterEnd(since: seq<ProxyEvent>, e: ProxyEvent, index: int)
    requires LastEnd(since, index) >= 0 && !(e.BlockEnd? && e.index == index)
    ensures ToolText(since + [e], index) ==
            if ToolText(since, index).Some? then Some(ToolText(since, index).value + Added(e, index))
            else if e.Delta? && e.index == index then Some(Units("undefined") + Added(e, index))
            else None
  {
    hide LastEnd, HasDelta, Deltas, Units, Added;
    LastEndStep(since, e, index);
    var after := since[LastEnd(since, index) + 1..];
    assert (since + [e])[LastEnd(since, index) + 1..] == after + [e];
    TextAfterEndStep(after, e, index);
  }

  lemma EndTakesText(since: seq<ProxyEvent>, e: ProxyEvent, index: int)
    requires e.BlockEnd? && e.index == index
    ensures ToolText(since + [e], index) == None
  {
    LastEndStep(since, e, index);
    assert (since + [e])[|since| + 1..] == [];
    NothingHasDelta(index);
  }

  lemma NothingHasDelta(index: int)
    ensures !HasDelta([], index)
  {
  }

  lemma LastEndStep(events: seq<ProxyEvent>, e: ProxyEvent, index: int)
    ensures LastEnd(events + [e], index) == if e.BlockEnd? && e.index == index then |events| else LastEnd(events, index)
  {
    assert (events + [e])[..|events|] == events;
  }

  lemma LastSignatureStep(since: seq<ProxyEvent>, e: ProxyEvent, index: int)
    ensures LastSignature(since + [e], index) ==
            if e.BlockEnd? && e.index == index && e.kind != ToolKind then e.signature else LastSignature(since, index)
  {
    assert (since + [e])[..|since|] == since;
  }

  lemma TextAfterEndStep(after: seq<ProxyEvent>, e: ProxyEvent, index: int)
    ensures Units("undefined") + Deltas(after + [e], index) ==
            (if HasDelta(after, index) then Units("undefined") + Deltas(after, index) else Units("undefined")) + Added(e, index)
    ensures HasDelta(after + [e], index) <==> HasDelta(after, index) || (e.Delta? && e.index == index)
  {
    hide Units, Deltas, HasDelta;
    DeltasStep(after, e, index);
    HasDeltaStep(after, e, index);
    if !HasDelta(after, index) {
      NoDelta(after, index);
      assert [] + Added(e, index) == Added(e, index);
    } else {
      assert (Units("undefined") + Deltas(after, index)) + Added(e, index)
          == Units("undefined") + (Deltas(after, index) + Added(e, index));
    }
  }

  lemma HasDeltaStep(events: seq<ProxyEvent>, e: ProxyEvent, index: int)
    ensures HasDelta(events + [e], index) <==> HasDelta(events, index) || (e.Delta? && e.index == index)
  {
    assert (events + [e])[|events|] == e;
    if HasDelta(events, index) {
      var k :| 0 <= k < |events| && events[k].Delta? && events[k].index == index;
      assert (events + [e])[k] == events[k];
    }
  }

  lemma {:induction false} NoDelta(events: seq<ProxyEvent>, index: int)
    requires !HasDelta(events, index)
    ensures Deltas(events, index) == []
    decreases |events|
  {
    if events != [] {
      NoDelta(events[..|events| - 1], index);
    }
  }

  lemma Associates(a: Text, b: Text, c: Text)
    ensures (a + b) + c == a + (b + c)
  {
  }

  lemma {:induction false} DeltasConcat(a: seq<ProxyEvent>, b: seq<ProxyEvent>, index: int)
    ensures Deltas(a + b, index) == Deltas(a, index) + Deltas(b, index)
    decreases |b|
  {
    if b == [] {
      assert a + b == a && Deltas(a, index) + [] == Deltas(a, index);
    } else {
      var init, last := b[..|b| - 1], b[|b| - 1];
      assert a + b == (a + init) + [last] && b == init + [last];
      DeltasStep(a + init, last, index);
      DeltasStep(init, last, index);
      DeltasConcat(a, init, index);
      Associates(Deltas(a, index), Deltas(init, index), Added(last, index));
    }
  }

  // When a tool call's partial text is the concatenation of its deltas: before it has ended, and
  // afterwards only if the deltas up to the end happen to spell `undefined` and another one followed.
  lemma ToolTextIsDeltasExactly(p: Parsers, events: seq<ProxyEvent>, index: int)
    requires AppliedAll(p, events).Some?
    requires index in AppliedAll(p, events).value && AppliedAll(p, events).value[index].ToolCall?
    ensures
      var since := events[LastStart(events, index) + 1..];
      var end := LastEnd(since, index);
      AppliedAll(p, events).value[index].partialJson == Some(Deltas(since, index)) <==>
      || end == -1
      || (HasDelta(since[end + 1..], index) && Deltas(since[..end + 1], index) == Units("undefined"))
  {
    hide Units, LastStart, Deltas, LastEnd, HasDelta, ToolArguments, AppliedAll;
    BlocksAreTheirDeltas(p, events, index);
    TextIsDeltas(events[LastStart(events, index) + 1..], index);
  }

  lemma TextIsDeltas(since: seq<ProxyEvent>, index: int)
    ensures
      var end := LastEnd(since, index);
      ToolText(since, index) == Some(Deltas(since, index)) <==>
      || end == -1
      || (HasDelta(since[end + 1..], index) && Deltas(since[..end + 1], index) == Units("undefined"))
  {
    hide Units, Deltas, LastEnd, HasDelta;
    var end := LastEnd(since, index);
    if end >= 0 {
      var before, after := since[..end + 1], since[end + 1..];
      assert since == before + after;
      DeltasConcat(before, after, index);
      SameSuffix(Units("undefined"), Deltas(before, index), Deltas(after, index));
    }
  }

  lemma SameSuffix(a: Text, b: Text, suffix: Text)
    ensures a + suffix == b + suffix <==> a == b
  {
    if a + suffix == b + suffix {
      assert a == (a + suffix)[..|a|] && b == (b + suffix)[..|b|];
    }
  }

  // A delta that comes after the end is appended to `undefined`, and what came before is lost.
  lemma DeltaAfterEnd(p: Parsers, id: Text, name: Text, before: Text, after: Text)
    ensures
      var events := [BlockStart(ToolKind, 0, id, name), Delta(ToolKind, 0, before), BlockEnd(ToolKind, 0, None), Delta(ToolKind, 0, after)];
      AppliedAll(p, events) ==
      Some(map[0 := ToolCall(id, name, p.arguments(Units("undefined") + after), Some(Units("undefined") + after))])
  {
    hide Units;
    var start, first, end, second :=
      BlockStart(ToolKind, 0, id, name), Delta(ToolKind, 0, before), BlockEnd(ToolKind, 0, None), Delta(ToolKind, 0, after);
    assert [start, first, end, second][..3] == [start, first, end];
    assert [start, first, end][..2] == [start, first];
    assert [start, first][..1] == [start] && [start][..0] == [];
    var started := NewBlock(ToolKind, id, name);
    var begun := Extended(p, started, before);
    var ended := Ended(begun, None);
    assert AppliedAll(p, [start]) == Some(map[0 := started]);
    assert map[0 := started][0 := begun] == map[0 := begun];
    assert AppliedAll(p, [start, first]) == Some(map[0 := begun]);
    assert map[0 := begun][0 := ended] == map[0 := ended];
    assert AppliedAll(p, [start, first, end]) == Some(map[0 := ended]);
    assert map[0 := ended][0 := Extended(p, ended, after)] == map[0 := Extended(p, ended, after)];
  }

  // The events that a list of lines carries.
  function Received(p: Parsers, lines: seq<Text>): Option<seq<ProxyEvent>> {
    if lines == [] then Some([])
    else match Received(p, lines[..|lines| - 1])
      case None => None
      case Some(events) => match Payload(lines[|lines| - 1])
        case None => Some(events)
        case Some(data) => match p.event(data)
          case None => None
          case Some(e) => Some(events + [e])
  }

  // As long as the client has not failed, its partial message is what the received events make it.
  lemma {:induction false} ClientHoldsBlocks(p: Parsers, lines: seq<Text>, index: int)
    requires !AfterLines(p, INITIAL, lines).failed
    ensures Received(p, lines).Some?
    ensures AppliedAll(p, Received(p, lines).value) == Some(AfterLines(p, INITIAL, lines).content)
    ensures BlockIs(p, AfterLines(p, INITIAL, lines).content, Received(p, lines).value, index)
  {
    hide Payload, Applied, BlockIs;
    if lines == [] {
      BlocksAreTheirDeltas(p, [], index);
    } else {
      var before := lines[..|lines| - 1];
      ClientHoldsBlocks(p, before, index);
      var events := Received(p, lines).value;
      if Payload(lines[|lines| - 1]).Some? {
        assert events[..|events| - 1] == Received(p, before).value;
      }
      BlocksAreTheirDeltas(p, events, index);
    }
  }
}
