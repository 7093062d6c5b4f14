/**
 Turning tool calls that a model wrote as text back into tool calls
 (packages/agent/src/salvage-text-tool-calls.ts). `JSON.parse` is the function value `parse`.
 */
module TextToolCalls {
  import opened Results
  import opened Utf16
  import opened JsonScanner

  // An object is known by its keys; `id` stands for the rest of it.
  datatype Parsed = ParsedObject(keys: seq<Text>, id: nat) | ParsedOther

  datatype Leading = Leading(keys: seq<Text>, id: nat, rest: Text)

  datatype Tool = Tool(name: Text, properties: set<Text>)

  datatype Block = TextBlock(text: Text) | OtherBlock(id: nat) | ToolCall(number: nat, name: Text, arguments: nat)

  datatype StopReason = Stop | ToolUse | OtherReason

  datatype AssistantMessage = AssistantMessage(content: seq<Block>, stopReason: StopReason)

  // The index of the first character that is not white space, or -1.
  function FirstNonSpace(text: Text): (start: int)
    ensures -1 <= start < |text|
    ensures start >= 0 ==> !IsSpace(text[start])
    ensures forall i | 0 <= i < |text| && (start < 0 || i < start) :: IsSpace(text[i])
  {
    if text == [] then -1
    else if !IsSpace(text[0]) then 0
    else
      var rest := FirstNonSpace(text[1..]);
      if rest < 0 then -1 else rest + 1
  }

  lemma {:induction false} EndInRange(rest: Text, consumed: nat, s: Scan)
    ensures EndOfObject(rest, consumed, s) == -1 || consumed < EndOfObject(rest, consumed, s) <= consumed + |rest|
  {
    if rest != [] {
      EndInRange(rest[1..], consumed + 1, Advanced(s, rest[0]));
    }
  }

  function ParseLeading(parse: Text -> Option<Parsed>, text: Text): Option<Leading> {
    var start := FirstNonSpace(text);
    if start < 0 || text[start] != OPEN_BRACE then None
    else
      var end := EndOfObject(text[start..], start, START);
      EndInRange(text[start..], start, START);
      if end < 0 then None
      else match parse(text[start..end])
        case Some(ParsedObject(keys, id)) => Some(Leading(keys, id, text[end..]))
        case _ => None
  }

  method ParseLeadingJsonObject(parse: Text -> Option<Parsed>, text: Text) returns (leading: Option<Leading>)
    ensures leading == ParseLeading(parse, text)
  {
    var start := FirstNonSpace(text);
    if start < 0 || text[start] != OPEN_BRACE {
      return None;
    }
    var end := ScanJsonObject(text, start);
    if end < 0 {
      return None;
    }
    EndInRange(text[start..], start, START);
    var value := parse(text[start..end]);
    if value.None? || value.value.ParsedOther? {
      return None;
    }
    leading := Some(Leading(value.value.keys, value.value.id, text[end..]));
  }

  // A brace, and what follows up to the brace that closes it.
  predicate IsObjectText(printed: Text) {
    printed != [] && printed[0] == OPEN_BRACE && EndOfObject(printed, 0, START) == |printed|
  }

  // The text is white space, an object that can be parsed, and the rest.
  predicate Begins(parse: Text -> Option<Parsed>, text: Text, blank: Text, printed: Text, rest: Text) {
    && text == blank + printed + rest && AllSpace(blank) && IsObjectText(printed)
    && parse(printed).Some? && parse(printed).value.ParsedObject?
  }

  lemma {:induction false} CountedFromZero(rest: Text, consumed: nat, s: Scan)
    ensures EndOfObject(rest, consumed, s) == if EndOfObject(rest, 0, s) < 0 then -1 else consumed + EndOfObject(rest, 0, s)
  {
    EndInRange(rest, 0, s);
    if rest != [] {
      var next := Advanced(s, rest[0]);
      CountedFromZero(rest[1..], consumed + 1, next);
      CountedFromZero(rest[1..], 1, next);
    }
  }

  lemma {:induction false} FoundInPrefix(text: Text, consumed: nat, s: Scan, end: nat)
    requires EndOfObject(text, consumed, s) == consumed + end && end <= |text|
    ensures EndOfObject(text[..end], consumed, s) == consumed + end
  {
    if text != [] {
      EndInRange(text, consumed, s);
      var next := Advanced(s, text[0]);
      assert text[..end][1..] == text[1..][..end - 1];
      if !(!s.inString && text[0] == CLOSE_BRACE && next.depth == 0) {
        EndInRange(text[1..], consumed + 1, next);
        FoundInPrefix(text[1..], consumed + 1, next, end - 1);
      }
    }
  }

  // Nothing is lost: a text that is split begins so.
  lemma ParseLeadingSplits(parse: Text -> Option<Parsed>, text: Text) returns (blank: Text, printed: Text)
    requires ParseLeading(parse, text).Some?
    ensures
      var leading := ParseLeading(parse, text).value;
      && Begins(parse, text, blank, printed, leading.rest)
      && parse(printed) == Some(ParsedObject(leading.keys, leading.id))
  {
    hide EndOfObject;
    var start := FirstNonSpace(text);
    var tail := text[start..];
    var end := EndOfObject(tail, start, START);
    EndInRange(tail, start, START);
    CountedFromZero(tail, start, START);
    FoundInPrefix(tail, 0, START, end - start);
    blank, printed := text[..start], text[start..end];
    assert tail[..end - start] == printed;
  }

  lemma FirstNonSpaceAfter(blank: Text, rest: Text)
    requires AllSpace(blank) && rest != [] && !IsSpace(rest[0])
    ensures FirstNonSpace(blank + rest) == |blank|
  {
    var text := blank + rest;
    var start := FirstNonSpace(text);
    assert text[|blank|] == rest[0];
    forall i | 0 <= i < |blank|
      ensures IsSpace(text[i])
    {
      assert text[i] == blank[i];
    }
  }

  // A text that begins with such an object is split right there, whatever follows.
  lemma BeginsIsSplit(parse: Text -> Option<Parsed>, text: Text, blank: Text, printed: Text, rest: Text)
    requires Begins(parse, text, blank, printed, rest)
    ensures ParseLeading(parse, text) == Some(Leading(parse(printed).value.keys, parse(printed).value.id, rest))
  {
    hide EndOfObject;
    var tail, start, end := printed + rest, |blank|, |blank| + |printed|;
    assert tail[0] == OPEN_BRACE && !IsSpace(tail[0]);
    FirstNonSpaceAfter(blank, tail);
    assert text == blank + tail && text[start..] == tail;
    FoundStays(printed, rest, 0, START);
    CountedFromZero(tail, start, START);
    assert text[start..end] == printed && text[end..] == rest;
  }

  // A printed JSON object at the beginning of a text is split off exactly, whatever follows it.
  lemma PrintedObjectIsSplitOff(parse: Text -> Option<Parsed>, blank: Text, v: Value, rest: Text)
    requires AllSpace(blank) && v.Object? && ValidValue(v)
    ensures ParseLeading(parse, blank + Printed(v) + rest)
         == match parse(Printed(v))
            case Some(ParsedObject(keys, id)) => Some(Leading(keys, id, rest))
            case _ => None
  {
    hide EndOfObject, ValidValue, Inside;
    var text, start := blank + Printed(v) + rest, |blank|;
    var tail := Printed(v) + rest;
    assert tail[0] == OPEN_BRACE && !IsSpace(tail[0]);
    FirstNonSpaceAfter(blank, tail);
    assert text == blank + tail && text[start..] == tail;
    ScanFindsObjectEnd(v, start, rest);
    var end := start + |Printed(v)|;
    assert text[start..end] == Printed(v) && text[end..] == rest;
  }

  // One that breaks off is no call.
  lemma UnfinishedIsNotSplit(parse: Text -> Option<Parsed>, blank: Text, v: Value, n: nat)
    requires AllSpace(blank) && v.Object? && ValidValue(v) && n < |Printed(v)|
    ensures ParseLeading(parse, blank + Printed(v)[..n]) == None
  {
    hide EndOfObject, ValidValue, Inside;
    var tail := Printed(v)[..n];
    var text := blank + tail;
    if tail == [] {
      assert FirstNonSpace(text) == -1;
    } else {
      assert tail[0] == OPEN_BRACE && !IsSpace(tail[0]);
      FirstNonSpaceAfter(blank, tail);
      assert text[|blank|..] == tail;
      UnfinishedHasNoEnd(v, |blank|, n);
    }
  }

  // Matching

  predicate Takes(tool: Tool, keys: seq<Text>) {
    forall key | key in keys :: key in tool.properties
  }

  function Taking(candidates: seq<Tool>, keys: seq<Text>): seq<Tool> {
    if candidates == [] then []
    else (if Takes(candidates[0], keys) then [candidates[0]] else []) + Taking(candidates[1..], keys)
  }

  function MatchTool(keys: seq<Text>, candidates: seq<Tool>): Option<Tool> {
    var matched := Taking(candidates, keys);
    if keys != [] && |matched| == 1 then Some(matched[0]) else None
  }

  function Allowed(tools: seq<Tool>, names: set<Text>): seq<Tool> {
    if tools == [] then []
    else (if tools[0].name in names then [tools[0]] else []) + Allowed(tools[1..], names)
  }

  predicate OnlyTaker(candidates: seq<Tool>, keys: seq<Text>, i: int) {
    0 <= i < |candidates| && forall j | 0 <= j < |candidates| :: Takes(candidates[j], keys) <==> j == i
  }

  lemma {:induction false} TakingNone(candidates: seq<Tool>, keys: seq<Text>)
    ensures Taking(candidates, keys) == [] <==> forall j | 0 <= j < |candidates| :: !Takes(candidates[j], keys)
  {
    hide Takes;
    if candidates != [] {
      var rest := candidates[1..];
      TakingNone(rest, keys);
      forall j | 0 < j < |candidates|
        ensures candidates[j] == rest[j - 1]
      {
      }
    }
  }

  lemma {:induction false} TakingOne(candidates: seq<Tool>, keys: seq<Text>) returns (i: int)
    ensures |Taking(candidates, keys)| == 1 ==> OnlyTaker(candidates, keys, i) && Taking(candidates, keys) == [candidates[i]]
  {
    hide Takes;
    i := 0;
    if candidates != [] && |Taking(candidates, keys)| == 1 {
      var rest := candidates[1..];
      if Takes(candidates[0], keys) {
        TakingNone(rest, keys);
        forall j | 0 < j < |candidates|
          ensures !Takes(candidates[j], keys)
        {
          assert candidates[j] == rest[j - 1];
        }
      } else {
        var k := TakingOne(rest, keys);
        i := k + 1;
        forall j | 0 < j < |candidates|
          ensures Takes(candidates[j], keys) <==> j == i
        {
          assert candidates[j] == rest[j - 1];
        }
      }
    }
  }

  lemma {:induction false} OnlyTakerTaken(candidates: seq<Tool>, keys: seq<Text>, i: int)
    requires OnlyTaker(candidates, keys, i)
    ensures Taking(candidates, keys) == [candidates[i]]
  {
    hide Takes;
    var rest := candidates[1..];
    if i == 0 {
      TakingNone(rest, keys);
    } else {
      forall j | 0 <= j < |rest|
        ensures Takes(rest[j], keys) <==> j == i - 1
      {
        assert rest[j] == candidates[j + 1];
      }
      OnlyTakerTaken(rest, keys, i - 1);
    }
  }

  // A tool is matched exactly when the object has keys and one candidate alone knows all of them.
  lemma MatchedExactly(keys: seq<Text>, candidates: seq<Tool>, tool: Tool)
    ensures MatchTool(keys, candidates) == Some(tool)
       <==> keys != [] && exists i | 0 <= i < |candidates| :: OnlyTaker(candidates, keys, i) && candidates[i] == tool
  {
    hide OnlyTaker, Taking;
    var i := TakingOne(candidates, keys);
    forall k | OnlyTaker(candidates, keys, k)
      ensures 0 <= k < |candidates| && Taking(candidates, keys) == [candidates[k]]
    {
      OnlyTakerTaken(candidates, keys, k);
      OnlyTakerInRange(candidates, keys, k);
    }
  }

  lemma OnlyTakerInRange(candidates: seq<Tool>, keys: seq<Text>, i: int)
    requires OnlyTaker(candidates, keys, i)
    ensures 0 <= i < |candidates|
  {
  }

  // Salvaging

  datatype Salvage = Salvage(content: seq<Block>, salvaged: nat)

  // What becomes of one block, after `salvaged` calls have been found.
  function Salvaged(parse: Text -> Option<Parsed>, candidates: seq<Tool>, block: Block, salvaged: nat): Salvage {
    if !block.TextBlock? then Salvage([block], salvaged)
    else match ParseLeading(parse, block.text)
      case None => Salvage([block], salvaged)
      case Some(leading) =>
        match MatchTool(leading.keys, candidates)
        case None => Salvage([block], salvaged)
        case Some(tool) =>
          Salvage([ToolCall(salvaged + 1, tool.name, leading.id)] + if Trim(leading.rest) != [] then [TextBlock(leading.rest)] else [],
                  salvaged + 1)
  }

  function SalvagedAll(parse: Text -> Option<Parsed>, candidates: seq<Tool>, content: seq<Block>): Salvage {
    if content == [] then Salvage([], 0)
    else
      var before := SalvagedAll(parse, candidates, content[..|content| - 1]);
      var last := Salvaged(parse, candidates, content[|content| - 1], before.salvaged);
      Salvage(before.content + last.content, last.salvaged)
  }

  function AfterSalvage(parse: Text -> Option<Parsed>, message: AssistantMessage, tools: seq<Tool>, names: set<Text>): AssistantMessage {
    var candidates := Allowed(tools, names);
    var all := SalvagedAll(parse, candidates, message.content);
    if candidates == [] || all.salvaged == 0 then message
    else AssistantMessage(all.content, if message.stopReason == Stop then ToolUse else message.stopReason)
  }

  class Message {
    var content: seq<Block>
    var stopReason: StopReason

    ghost function View(): AssistantMessage
      reads this
    {
      AssistantMessage(content, stopReason)
    }

    // Rewrites the message in place and says whether anything was restored.
    method SalvageTextToolCalls(parse: Text -> Option<Parsed>, tools: seq<Tool>, names: set<Text>) returns (restored: bool)
      modifies this
      ensures View() == AfterSalvage(parse, old(View()), tools, names)
      ensures restored <==> AnySalvageable(parse, Allowed(tools, names), old(content))
    {
      hide ParseLeading, MatchTool, Trim, AnySalvageable, Allowed;
      SomethingSalvaged(parse, Allowed(tools, names), content);
      NoCandidates(parse, content);
      if |tools| == 0 || names == {} {
        NothingAllowed(tools, names);
        return false;
      }
      var candidates := Allowed(tools, names);
      if |candidates| == 0 {
        return false;
      }
      var rewritten: seq<Block> := [];
      var salvaged: nat := 0;
      for i := 0 to |content|
        invariant View() == old(View())
        invariant SalvagedAll(parse, candidates, content[..i]) == Salvage(rewritten, salvaged)
      {
        assert content[..i + 1][..i] == content[..i];
        var block := content[i];
        if !block.TextBlock? {
          rewritten := rewritten + [block];
          continue;
        }
        var parsed := ParseLeadingJsonObject(parse, block.text);
        var tool := if parsed.Some? then MatchTool(parsed.value.keys, candidates) else None;
        if tool.None? {
          rewritten := rewritten + [block];
          continue;
        }
        salvaged := salvaged + 1;
        var call := ToolCall(salvaged, tool.value.name, parsed.value.id);
        if |Trim(parsed.value.rest)| > 0 {
          rewritten := rewritten + [call, TextBlock(parsed.value.rest)];
        } else {
          rewritten := rewritten + [call];
        }
        assert [call] + [TextBlock(parsed.value.rest)] == [call, TextBlock(parsed.value.rest)] && [call] + [] == [call];
      }
      assert content[..|content|] == content;
      if salvaged == 0 {
        return false;
      }
      content := rewritten;
      if stopReason == Stop {
        stopReason := ToolUse;
      }
      restored := true;
    }
  }

  lemma {:induction false} NothingAllowed(tools: seq<Tool>, names: set<Text>)
    requires tools == [] || names == {}
    ensures Allowed(tools, names) == []
  {
    if tools != [] {
      NothingAllowed(tools[1..], names);
    }
  }

  // The characters of a text that are not white space.
  function Visible(text: Text): Text {
    if text == [] then [] else (if IsSpace(text[0]) then [] else [text[0]]) + Visible(text[1..])
  }

  function VisibleText(content: seq<Block>): Text {
    if content == [] then []
    else (if content[0].TextBlock? then Visible(content[0].text) else []) + VisibleText(content[1..])
  }

  lemma VisibleStep(first: CodeUnit, rest: Text)
    ensures Visible([first] + rest) == (if IsSpace(first) then [] else [first]) + Visible(rest)
  {
    assert ([first] + rest)[1..] == rest;
  }

  lemma {:induction false} VisibleJoined(a: Text, b: Text)
    ensures Visible(a + b) == Visible(a) + Visible(b)
  {
    if a == [] {
      assert a + b == b;
    } else {
      hide Visible, IsSpace;
      VisibleJoined(a[1..], b);
      VisibleStep(a[0], a[1..]);
      VisibleStep(a[0], a[1..] + b);
      assert a == [a[0]] + a[1..] && a + b == [a[0]] + (a[1..] + b);
    }
  }

  lemma {:induction false} SpaceInvisible(text: Text)
    requires AllSpace(text)
    ensures Visible(text) == []
  {
    if text != [] {
      SpaceInvisible(text[1..]);
    }
  }

  // One candidate alone knows all of the keys, and there are some.
  ghost predicate HasTaker(candidates: seq<Tool>, keys: seq<Text>) {
    keys != [] && exists i :: OnlyTaker(candidates, keys, i)
  }

  // The block is a text that begins with the arguments of one of the candidates.
  ghost predicate Salvageable(parse: Text -> Option<Parsed>, candidates: seq<Tool>, block: Block) {
    block.TextBlock? &&
    exists blank, printed, rest :: Begins(parse, block.text, blank, printed, rest) && HasTaker(candidates, parse(printed).value.keys)
  }

  // A text that begins with the arguments of one candidate becomes a call of it with these arguments,
  // and what follows them stays as text if any of it can be seen.
  lemma BecomesCall(
      parse: Text -> Option<Parsed>, candidates: seq<Tool>, text: Text, salvaged: nat, blank: Text, printed: Text, rest: Text, i: int)
    requires Begins(parse, text, blank, printed, rest)
    requires parse(printed).value.keys != [] && OnlyTaker(candidates, parse(printed).value.keys, i)
    ensures Salvaged(parse, candidates, TextBlock(text), salvaged) ==
            Salvage([ToolCall(salvaged + 1, candidates[i].name, parse(printed).value.id)]
                    + (if AllSpace(rest) then [] else [TextBlock(rest)]), salvaged + 1)
  {
    hide ParseLeading, Trim, AllSpace, IsObjectText;
    BeginsIsSplit(parse, text, blank, printed, rest);
    OnlyTakerTaken(candidates, parse(printed).value.keys, i);
    TrimEmptyExactly(rest);
  }

  // So does any printed JSON object that the parser reads, with white space in front and anything behind.
  lemma PrintedBecomesCall(
      parse: Text -> Option<Parsed>, candidates: seq<Tool>, blank: Text, v: Value, rest: Text, salvaged: nat, i: int)
    requires AllSpace(blank) && v.Object? && ValidValue(v) && parse(Printed(v)).Some? && parse(Printed(v)).value.ParsedObject?
    requires parse(Printed(v)).value.keys != [] && OnlyTaker(candidates, parse(Printed(v)).value.keys, i)
    ensures Salvaged(parse, candidates, TextBlock(blank + Printed(v) + rest), salvaged) ==
            Salvage([ToolCall(salvaged + 1, candidates[i].name, parse(Printed(v)).value.id)]
                    + (if AllSpace(rest) then [] else [TextBlock(rest)]), salvaged + 1)
  {
    hide EndOfObject, ValidValue, Inside, AllSpace, OnlyTaker;
    ScanFindsObjectEnd(v, 0, []);
    assert Printed(v) + [] == Printed(v);
    BecomesCall(parse, candidates, blank + Printed(v) + rest, salvaged, blank, Printed(v), rest, i);
  }

  lemma SalvageableBegins(parse: Text -> Option<Parsed>, candidates: seq<Tool>, block: Block)
    returns (blank: Text, printed: Text, rest: Text, i: int)
    requires Salvageable(parse, candidates, block)
    ensures Begins(parse, block.text, blank, printed, rest)
    ensures parse(printed).value.keys != [] && OnlyTaker(candidates, parse(printed).value.keys, i)
  {
    hide OnlyTaker, AllSpace, IsObjectText;
    blank, printed, rest :| Begins(parse, block.text, blank, printed, rest) && HasTaker(candidates, parse(printed).value.keys);
    i :| OnlyTaker(candidates, parse(printed).value.keys, i);
  }

  // Every other block stays as it is.
  lemma ChangesExactly(parse: Text -> Option<Parsed>, candidates: seq<Tool>, block: Block, salvaged: nat)
    ensures
      var after := Salvaged(parse, candidates, block, salvaged);
      && (after.content != [block] <==> Salvageable(parse, candidates, block))
      && after.salvaged == salvaged + if after.content == [block] then 0 else 1
  {
    hide ParseLeading, MatchTool, Trim, OnlyTaker, Begins, HasTaker;
    if Salvageable(parse, candidates, block) {
      var blank, printed, rest, i := SalvageableBegins(parse, candidates, block);
      BeginsParses(parse, block.text, blank, printed, rest);
      BecomesCall(parse, candidates, block.text, salvaged, blank, printed, rest, i);
      assert Salvaged(parse, candidates, block, salvaged).content[0].ToolCall?;
    } else if block.TextBlock? && ParseLeading(parse, block.text).Some? {
      var leading := ParseLeading(parse, block.text).value;
      var blank, printed := ParseLeadingSplits(parse, block.text);
      MatchedIfTaken(candidates, leading.keys);
    }
  }

  lemma BeginsParses(parse: Text -> Option<Parsed>, text: Text, blank: Text, printed: Text, rest: Text)
    requires Begins(parse, text, blank, printed, rest)
    ensures parse(printed).Some? && parse(printed).value.ParsedObject?
  {
  }

  lemma MatchedIfTaken(candidates: seq<Tool>, keys: seq<Text>)
    ensures MatchTool(keys, candidates).Some? <==> HasTaker(candidates, keys)
  {
    hide OnlyTaker;
    if MatchTool(keys, candidates).Some? {
      MatchedExactly(keys, candidates, MatchTool(keys, candidates).value);
    } else if HasTaker(candidates, keys) {
      var i :| OnlyTaker(candidates, keys, i);
      OnlyTakerInRange(candidates, keys, i);
      MatchedExactly(keys, candidates, candidates[i]);
    }
  }

  lemma RestVisible(call: Block, rest: Text)
    requires call.ToolCall?
    ensures VisibleText([call]) == []
    ensures VisibleText([call] + [TextBlock(rest)]) == Visible(rest)
  {
    var both := [call] + [TextBlock(rest)];
    assert both[1..] == [TextBlock(rest)] && [call][1..] == [] && [TextBlock(rest)][1..] == [];
    assert VisibleText([TextBlock(rest)]) == Visible(rest) + [];
  }

  // The whole message

  // A call whose arguments were `printed` in front of the text, and what is left of that text.
  ghost predicate CallAndRest(
      parse: Text -> Option<Parsed>, candidates: seq<Tool>, text: Text, salvaged: nat, piece: seq<Block>, printed: Text,
      blank: Text, rest: Text, i: int)
  {
    && Begins(parse, text, blank, printed, rest)
    && OnlyTaker(candidates, parse(printed).value.keys, i)
    && piece == [ToolCall(salvaged + 1, candidates[i].name, parse(printed).value.id)]
                + if AllSpace(rest) then [] else [TextBlock(rest)]
  }

  // What a block turned into, after `salvaged` calls.
  ghost predicate Piece(
      parse: Text -> Option<Parsed>, candidates: seq<Tool>, block: Block, salvaged: nat, piece: seq<Block>, printed: Text)
  {
    if Salvageable(parse, candidates, block)
    then exists blank, rest, i :: CallAndRest(parse, candidates, block.text, salvaged, piece, printed, blank, rest, i)
    else piece == [block] && printed == []
  }

  // Nothing a reader could see is lost: a salvaged block is white space, the arguments and a rest
  // that is kept, unless it is white space too.
  lemma SalvageKeepsText(parse: Text -> Option<Parsed>, candidates: seq<Tool>, block: Block, salvaged: nat) returns (printed: Text)
    ensures
      var after := Salvaged(parse, candidates, block, salvaged);
      && Piece(parse, candidates, block, salvaged, after.content, printed)
      && VisibleText([block]) == Visible(printed) + VisibleText(after.content)
      && after.salvaged == salvaged + if after.content == [block] then 0 else 1
  {
    hide Salvaged, OnlyTaker, Visible, Begins, HasTaker, AllSpace;
    printed := [];
    ChangesExactly(parse, candidates, block, salvaged);
    assert [block][1..] == [];
    if Salvageable(parse, candidates, block) {
      var blank, text, rest, i := SalvageableBegins(parse, candidates, block);
      printed := text;
      BeginsParses(parse, block.text, blank, printed, rest);
      BecomesCall(parse, candidates, block.text, salvaged, blank, printed, rest, i);
      var after := Salvaged(parse, candidates, block, salvaged);
      assert CallAndRest(parse, candidates, block.text, salvaged, after.content, printed, blank, rest, i);
      BeginsVisibly(parse, block.text, blank, printed, rest);
      if AllSpace(rest) {
        SpaceInvisible(rest);
      }
      RestVisible(after.content[0], rest);
    } else {
      NothingIsInvisible();
    }
  }

  lemma NothingIsInvisible()
    ensures Visible([]) == []
  {
  }

  lemma BeginsVisibly(parse: Text -> Option<Parsed>, text: Text, blank: Text, printed: Text, rest: Text)
    requires Begins(parse, text, blank, printed, rest)
    ensures Visible(text) == Visible(printed) + Visible(rest)
  {
    hide Visible, IsObjectText;
    SpaceInvisible(blank);
    VisibleJoined(blank + printed, rest);
    VisibleJoined(blank, printed);
    assert [] + Visible(printed) == Visible(printed);
  }

  function Flattened(pieces: seq<seq<Block>>): seq<Block> {
    if pieces == [] then [] else Flattened(pieces[..|pieces| - 1]) + pieces[|pieces| - 1]
  }

  // How many blocks became something else.
  function Changed(content: seq<Block>, pieces: seq<seq<Block>>): nat
    requires |content| == |pieces|
  {
    if content == [] then 0
    else
      var n := |content| - 1;
      Changed(content[..n], pieces[..n]) + if pieces[n] == [content[n]] then 0 else 1
  }

  // What was printed and what is kept, block by block.
  function Woven(printed: seq<Text>, pieces: seq<seq<Block>>): Text
    requires |printed| == |pieces|
  {
    if pieces == [] then []
    else
      var n := |pieces| - 1;
      Woven(printed[..n], pieces[..n]) + (Visible(printed[n]) + VisibleText(pieces[n]))
  }

  lemma {:induction false} VisibleTextJoined(a: seq<Block>, b: seq<Block>)
    ensures VisibleText(a + b) == VisibleText(a) + VisibleText(b)
  {
    hide Visible;
    if a == [] {
      assert a + b == b;
    } else {
      assert (a + b)[1..] == a[1..] + b;
      VisibleTextJoined(a[1..], b);
    }
  }

  lemma OnePieceMore(content: seq<Block>, pieces: seq<seq<Block>>, printed: seq<Text>, block: Block, piece: seq<Block>, text: Text)
    requires |content| == |pieces| == |printed|
    ensures Flattened(pieces + [piece]) == Flattened(pieces) + piece
    ensures Changed(content + [block], pieces + [piece]) == Changed(content, pieces) + if piece == [block] then 0 else 1
    ensures Woven(printed + [text], pieces + [piece]) == Woven(printed, pieces) + (Visible(text) + VisibleText(piece))
  {
    hide Visible, VisibleText;
    var n := |content|;
    assert (content + [block])[..n] == content && (pieces + [piece])[..n] == pieces && (printed + [text])[..n] == printed;
  }

  lemma NoPieces()
    ensures Flattened([]) == [] && Changed([], []) == 0 && Woven([], []) == [] && VisibleText([]) == []
  {
  }

  lemma OneBlockMore(parse: Text -> Option<Parsed>, candidates: seq<Tool>, content: seq<Block>, block: Block)
    ensures
      var before := SalvagedAll(parse, candidates, content);
      var last := Salvaged(parse, candidates, block, before.salvaged);
      SalvagedAll(parse, candidates, content + [block]) == Salvage(before.content + last.content, last.salvaged)
  {
    hide Salvaged;
    assert (content + [block])[..|content|] == content;
  }

  lemma {:induction false} ContentKept(parse: Text -> Option<Parsed>, candidates: seq<Tool>, content: seq<Block>)
    returns (pieces: seq<seq<Block>>, printed: seq<Text>)
    ensures |pieces| == |printed| == |content|
    ensures SalvagedAll(parse, candidates, content) == Salvage(Flattened(pieces), Changed(content, pieces))
    ensures forall i | 0 <= i < |content| ::
              Piece(parse, candidates, content[i], Changed(content[..i], pieces[..i]), pieces[i], printed[i])
    ensures VisibleText(content) == Woven(printed, pieces)
  {
    hide Piece, Salvaged, Visible, VisibleText, Flattened, Changed, Woven;
    if content == [] {
      pieces, printed := [], [];
      NoPieces();
    } else {
      var n := |content| - 1;
      var before, block := content[..n], content[n];
      var init, texts := ContentKept(parse, candidates, before);
      var salvaged := Changed(before, init);
      var text := SalvageKeepsText(parse, candidates, block, salvaged);
      var piece := Salvaged(parse, candidates, block, salvaged).content;
      pieces, printed := init + [piece], texts + [text];
      OneMorePiece(parse, candidates, before, init, texts, block, piece, text);
      OnePieceMore(before, init, texts, block, piece, text);
      OneBlockMore(parse, candidates, before, block);
      VisibleTextJoined(before, [block]);
      assert content == before + [block];
    }
  }

  lemma OneMorePiece(
      parse: Text -> Option<Parsed>, candidates: seq<Tool>, content: seq<Block>, pieces: seq<seq<Block>>, printed: seq<Text>,
      block: Block, piece: seq<Block>, text: Text)
    requires |content| == |pieces| == |printed|
    requires forall i | 0 <= i < |content| ::
               Piece(parse, candidates, content[i], Changed(content[..i], pieces[..i]), pieces[i], printed[i])
    requires Piece(parse, candidates, block, Changed(content, pieces), piece, text)
    ensures var all, blocks, texts := pieces + [piece], content + [block], printed + [text];
            forall i | 0 <= i < |blocks| :: Piece(parse, candidates, blocks[i], Changed(blocks[..i], all[..i]), all[i], texts[i])
  {
    hide Piece, Changed;
    var all, blocks, texts := pieces + [piece], content + [block], printed + [text];
    forall i | 0 <= i < |blocks|
      ensures Piece(parse, candidates, blocks[i], Changed(blocks[..i], all[..i]), all[i], texts[i])
    {
      assert blocks[..i] == content[..i] && all[..i] == pieces[..i];
      if i == |content| {
        assert content[..i] == content && pieces[..i] == pieces;
      }
    }
  }

  lemma {:induction false} NothingChanged(content: seq<Block>, pieces: seq<seq<Block>>)
    requires |content| == |pieces| && Changed(content, pieces) == 0
    ensures Flattened(pieces) == content
  {
    if content != [] {
      var n := |content| - 1;
      NothingChanged(content[..n], pieces[..n]);
      assert content == content[..n] + [content[n]];
    }
  }

  lemma {:induction false} NoCandidates(parse: Text -> Option<Parsed>, content: seq<Block>)
    ensures SalvagedAll(parse, [], content).salvaged == 0
  {
    hide ParseLeading;
    if content != [] {
      NoCandidates(parse, content[..|content| - 1]);
    }
  }

  ghost predicate AnySalvageable(parse: Text -> Option<Parsed>, candidates: seq<Tool>, content: seq<Block>) {
    exists i | 0 <= i < |content| :: Salvageable(parse, candidates, content[i])
  }

  // The message is rewritten exactly if one of its blocks begins with the arguments of a candidate.
  lemma {:induction false} SomethingSalvaged(parse: Text -> Option<Parsed>, candidates: seq<Tool>, content: seq<Block>)
    ensures SalvagedAll(parse, candidates, content).salvaged > 0
       <==> AnySalvageable(parse, candidates, content)
  {
    hide Salvaged, Salvageable;
    if content != [] {
      var before, last := content[..|content| - 1], content[|content| - 1];
      SomethingSalvaged(parse, candidates, before);
      ChangesExactly(parse, candidates, last, SalvagedAll(parse, candidates, before).salvaged);
      assert forall i | 0 <= i < |before| :: content[i] == before[i];
    }
  }

  lemma FirstAllowed(first: Tool, rest: seq<Tool>, names: set<Text>)
    ensures Allowed([first] + rest, names) == (if first.name in names then [first] else []) + Allowed(rest, names)
  {
    assert ([first] + rest)[1..] == rest;
  }

  // The candidates are the tools whose names are allowed, in their order.
  lemma {:induction false} AllowedExactly(before: seq<Tool>, tool: Tool, names: set<Text>)
    ensures Allowed([], names) == []
    ensures Allowed(before + [tool], names) == Allowed(before, names) + if tool.name in names then [tool] else []
  {
    assert Allowed([], names) == [];
    hide Allowed;
    if before == [] {
      FirstAllowed(tool, [], names);
      assert [] + [tool] == [tool] + [] == [tool];
    } else {
      assert before == [before[0]] + before[1..] && before + [tool] == [before[0]] + (before[1..] + [tool]);
      FirstAllowed(before[0], before[1..], names);
      FirstAllowed(before[0], before[1..] + [tool], names);
      AllowedExactly(before[1..], tool, names);
    }
  }

  // Of a whole message nothing visible is lost either: its blocks keep their order; each becomes a call,
  // numbered in that order, with what is left of its text, if it begins with the arguments of one
  // candidate, and stays otherwise; and the visible text of the message is, block by block, the arguments
  // that became calls and the text that is kept. It stops for tool use if it stopped regularly and any
  // block became a call.
  lemma SalvageKeepsMessage(parse: Text -> Option<Parsed>, message: AssistantMessage, tools: seq<Tool>, names: set<Text>)
    returns (pieces: seq<seq<Block>>, printed: seq<Text>)
    ensures |pieces| == |printed| == |message.content|
    ensures
      var after := AfterSalvage(parse, message, tools, names);
      && after.content == Flattened(pieces)
      && after.stopReason == (if Changed(message.content, pieces) > 0 && message.stopReason == Stop then ToolUse else message.stopReason)
    ensures forall i | 0 <= i < |message.content| ::
              Piece(parse, Allowed(tools, names), message.content[i], Changed(message.content[..i], pieces[..i]), pieces[i], printed[i])
    ensures VisibleText(message.content) == Woven(printed, pieces)
  {
    hide Piece, Salvaged, SalvagedAll, Flattened, Changed, Woven, VisibleText;
    var candidates := Allowed(tools, names);
    pieces, printed := ContentKept(parse, candidates, message.content);
    if candidates == [] {
      NoCandidates(parse, message.content);
    }
    if Changed(message.content, pieces) == 0 {
      NothingChanged(message.content, pieces);
    }
  }
}
