/**
 Finding the end of a JSON object at the beginning of a text
 (packages/agent/src/salvage-text-tool-calls.ts, `scanJsonObject`).

 The objects are printed from concrete syntax trees of RFC 8259, sections 2, 4, 5 and 7: any nesting,
 any insignificant white space, any choice of escapes.
 */
module JsonScanner {
  import opened Results
  import opened Utf16

  // The scanner

  datatype Scan = Scan(depth: int, inString: bool, escaped: bool)

  const START := Scan(0, false, false)

  function Advanced(s: Scan, c: CodeUnit): Scan {
    if s.inString then
      if s.escaped then s.(escaped := false)
      else if c == BACKSLASH then s.(escaped := true)
      else if c == QUOTE then s.(inString := false)
      else s
    else if c == QUOTE then s.(inString := true)
    else if c == OPEN_BRACE then s.(depth := s.depth + 1)
    else if c == CLOSE_BRACE then s.(depth := s.depth - 1)
    else s
  }

  // Where the object ends in a text of which `consumed` characters have been read, or -1.
  function EndOfObject(rest: Text, consumed: nat, s: Scan): int {
    if rest == [] then -1
    else
      var next := Advanced(s, rest[0]);
      if !s.inString && rest[0] == CLOSE_BRACE && next.depth == 0 then consumed + 1
      else EndOfObject(rest[1..], consumed + 1, next)
  }

  method ScanJsonObject(text: Text, start: nat) returns (end: int)
    requires start <= |text|
    ensures end == EndOfObject(text[start..], start, START)
  {
    var depth, inString, escaped := 0, false, false;
    var i := start;
    while i < |text|
      invariant start <= i <= |text|
      invariant EndOfObject(text[start..], start, START) == EndOfObject(text[i..], i, Scan(depth, inString, escaped))
    {
      var c := text[i];
      assert text[i..][1..] == text[i + 1..];
      i := i + 1;
      if inString {
        if escaped {
          escaped := false;
        } else if c == BACKSLASH {
          escaped := true;
        } else if c == QUOTE {
          inString := false;
        }
        continue;
      }
      if c == QUOTE {
        inString := true;
      } else if c == OPEN_BRACE {
        depth := depth + 1;
      } else if c == CLOSE_BRACE {
        depth := depth - 1;
        if depth == 0 {
          return i;
        }
      }
    }
    end := -1;
  }

  // Concrete syntax

  datatype Token = Unescaped(c: CodeUnit) | Escape(c: CodeUnit) | UnicodeEscape(hex: Text)

  // `Word` is a number, `true`, `false` or `null`.
  datatype Value = Word(text: Text) | String(tokens: seq<Token>) | Array(blank: Text, items: Items) | Object(blank: Text, members: Members)

  datatype Items = NoItems | Item(before: Text, value: Value, after: Text, rest: Items)

  datatype Members =
    | NoMembers
    | Member(before: Text, key: seq<Token>, colonBefore: Text, colonAfter: Text, value: Value, after: Text, rest: Members)

  predicate IsBlank(text: Text) {
    forall c | c in text :: c == 0x20 || c == 0x09 || c == 0x0A || c == 0x0D
  }

  predicate IsHex(c: CodeUnit) {
    IsDigit(c) || 0x41 <= c <= 0x46 || 0x61 <= c <= 0x66
  }

  predicate IsWordCharacter(c: CodeUnit) {
    IsDigit(c) || c == 0x2B || c == MINUS || c == 0x2E || c == 0x45 || 0x61 <= c <= 0x7A
  }

  predicate ValidToken(t: Token) {
    match t
    case Unescaped(c) => c >= 0x20 && c != QUOTE && c != BACKSLASH
    case Escape(c) => c in [QUOTE, BACKSLASH, 0x2F, 0x62, 0x66, 0x6E, 0x72, 0x74]
    case UnicodeEscape(hex) => |hex| == 4 && forall c | c in hex :: IsHex(c)
  }

  predicate ValidValue(v: Value) {
    match v
    case Word(text) => text != [] && forall c | c in text :: IsWordCharacter(c)
    case String(tokens) => forall t | t in tokens :: ValidToken(t)
    case Array(blank, items) => IsBlank(blank) && ValidItems(items)
    case Object(blank, members) => IsBlank(blank) && ValidMembers(members)
  }

  predicate ValidItems(items: Items) {
    items.Item? ==> IsBlank(items.before) && ValidValue(items.value) && IsBlank(items.after) && ValidItems(items.rest)
  }

  predicate ValidMembers(members: Members) {
    members.Member? ==>
      && IsBlank(members.before) && (forall t | t in members.key :: ValidToken(t))
      && IsBlank(members.colonBefore) && IsBlank(members.colonAfter)
      && ValidValue(members.value) && IsBlank(members.after) && ValidMembers(members.rest)
  }

  function PrintedToken(t: Token): Text {
    match t
    case Unescaped(c) => [c]
    case Escape(c) => [BACKSLASH, c]
    case UnicodeEscape(hex) => [BACKSLASH, 0x75] + hex
  }

  function PrintedTokens(tokens: seq<Token>): Text {
    if tokens == [] then [] else PrintedToken(tokens[0]) + PrintedTokens(tokens[1..])
  }

  function PrintedString(tokens: seq<Token>): Text {
    [QUOTE] + PrintedTokens(tokens) + [QUOTE]
  }

  function Printed(v: Value): Text {
    match v
    case Word(text) => text
    case String(tokens) => PrintedString(tokens)
    case Array(blank, items) => [OPEN_BRACKET] + blank + PrintedItems(items) + [CLOSE_BRACKET]
    case Object(blank, members) => [OPEN_BRACE] + Inside(blank, members) + [CLOSE_BRACE]
  }

  function Separator(more: bool): Text {
    if more then [COMMA] else []
  }

  function PrintedItems(items: Items): Text {
    match items
    case NoItems => []
    case Item(before, value, after, rest) =>
      before + Printed(value) + after + Separator(rest.Item?) + PrintedItems(rest)
  }

  function Inside(blank: Text, members: Members): Text
    decreases members, 1
  {
    blank + PrintedMembers(members)
  }

  function PrintedMembers(members: Members): Text
    decreases members, 0
  {
    match members
    case NoMembers => []
    case Member(before, key, colonBefore, colonAfter, value, after, rest) =>
      before + PrintedString(key) + colonBefore + [COLON] + colonAfter + Printed(value) + after
      + Separator(rest.Member?) + PrintedMembers(rest)
  }

  // Scanning printed text

  // Reading `part` outside strings and inside an object changes nothing but the position.
  ghost predicate Neutral(part: Text) {
    forall rest: Text, consumed: nat, depth: int | depth > 0 ::
      EndOfObject(part + rest, consumed, Scan(depth, false, false)) == EndOfObject(rest, consumed + |part|, Scan(depth, false, false))
  }

  lemma NeutralJoined(a: Text, b: Text)
    requires Neutral(a) && Neutral(b)
    ensures Neutral(a + b)
  {
    hide EndOfObject;
    forall rest: Text, consumed: nat, depth: int | depth > 0
      ensures EndOfObject(a + b + rest, consumed, Scan(depth, false, false))
           == EndOfObject(rest, consumed + |a + b|, Scan(depth, false, false))
    {
      assert a + b + rest == a + (b + rest);
      assert EndOfObject(a + (b + rest), consumed, Scan(depth, false, false))
          == EndOfObject(b + rest, consumed + |a|, Scan(depth, false, false));
      assert EndOfObject(b + rest, consumed + |a|, Scan(depth, false, false))
          == EndOfObject(rest, consumed + |a| + |b|, Scan(depth, false, false));
      assert consumed + |a + b| == consumed + |a| + |b|;
    }
  }

  lemma {:induction false} PlainIsNeutral(part: Text)
    requires forall c | c in part :: c != QUOTE && c != OPEN_BRACE && c != CLOSE_BRACE
    ensures Neutral(part)
  {
    if part == [] {
      forall rest: Text
        ensures part + rest == rest
      {
      }
    } else {
      assert part[0] in part && forall c | c in part[1..] :: c in part;
      PlainIsNeutral(part[1..]);
      CharacterIsNeutral(part[0]);
      NeutralJoined([part[0]], part[1..]);
      assert [part[0]] + part[1..] == part;
    }
  }

  lemma CharacterIsNeutral(c: CodeUnit)
    requires c != QUOTE && c != OPEN_BRACE && c != CLOSE_BRACE
    ensures Neutral([c])
  {
    forall rest: Text, consumed: nat, depth: int | depth > 0
      ensures EndOfObject([c] + rest, consumed, Scan(depth, false, false)) == EndOfObject(rest, consumed + 1, Scan(depth, false, false))
    {
      assert ([c] + rest)[1..] == rest;
    }
  }

  // Within a string, up to and including its closing quotation mark.
  lemma {:induction false} StringScanned(tokens: seq<Token>, rest: Text, consumed: nat, depth: int)
    requires forall t | t in tokens :: ValidToken(t)
    ensures EndOfObject(PrintedTokens(tokens) + [QUOTE] + rest, consumed, Scan(depth, true, false))
         == EndOfObject(rest, consumed + |PrintedTokens(tokens)| + 1, Scan(depth, false, false))
    decreases |tokens|
  {
    hide EndOfObject, PrintedToken, ValidToken;
    if tokens == [] {
      assert PrintedTokens(tokens) + [QUOTE] + rest == [QUOTE] + rest;
      OneScanned(QUOTE, rest, consumed, Scan(depth, true, false));
    } else {
      var after := PrintedTokens(tokens[1..]) + [QUOTE] + rest;
      assert PrintedTokens(tokens) + [QUOTE] + rest == PrintedToken(tokens[0]) + after;
      assert tokens[0] in tokens && forall t | t in tokens[1..] :: t in tokens;
      TokenScanned(tokens[0], after, consumed, depth);
      StringScanned(tokens[1..], rest, consumed + |PrintedToken(tokens[0])|, depth);
    }
  }

  lemma OneScanned(c: CodeUnit, rest: Text, consumed: nat, s: Scan)
    requires s.inString || c != CLOSE_BRACE
    ensures EndOfObject([c] + rest, consumed, s) == EndOfObject(rest, consumed + 1, Advanced(s, c))
  {
    assert ([c] + rest)[1..] == rest;
  }

  lemma TokenScanned(t: Token, rest: Text, consumed: nat, depth: int)
    requires ValidToken(t)
    ensures EndOfObject(PrintedToken(t) + rest, consumed, Scan(depth, true, false))
         == EndOfObject(rest, consumed + |PrintedToken(t)|, Scan(depth, true, false))
  {
    hide EndOfObject;
    var s := Scan(depth, true, false);
    match t
    case Unescaped(c) =>
      OneScanned(c, rest, consumed, s);
    case Escape(c) =>
      assert PrintedToken(t) + rest == [BACKSLASH] + ([c] + rest);
      OneScanned(BACKSLASH, [c] + rest, consumed, s);
      OneScanned(c, rest, consumed + 1, s.(escaped := true));
    case UnicodeEscape(hex) =>
      assert PrintedToken(t) + rest == [BACKSLASH] + ([0x75] + (hex + rest));
      OneScanned(BACKSLASH, [0x75] + (hex + rest), consumed, s);
      OneScanned(0x75, hex + rest, consumed + 1, s.(escaped := true));
      HexScanned(hex, rest, consumed + 2, s);
  }

  lemma {:induction false} HexScanned(hex: Text, rest: Text, consumed: nat, s: Scan)
    requires (forall c | c in hex :: IsHex(c)) && s.inString && !s.escaped
    ensures EndOfObject(hex + rest, consumed, s) == EndOfObject(rest, consumed + |hex|, s)
  {
    hide EndOfObject;
    if hex == [] {
      assert hex + rest == rest;
    } else {
      assert hex + rest == [hex[0]] + (hex[1..] + rest) && IsHex(hex[0]);
      OneScanned(hex[0], hex[1..] + rest, consumed, s);
      HexScanned(hex[1..], rest, consumed + 1, s);
    }
  }

  lemma StringIsNeutral(tokens: seq<Token>)
    requires forall t | t in tokens :: ValidToken(t)
    ensures Neutral(PrintedString(tokens))
  {
    hide EndOfObject, PrintedTokens;
    forall rest: Text, consumed: nat, depth: int | depth > 0
      ensures EndOfObject(PrintedString(tokens) + rest, consumed, Scan(depth, false, false))
           == EndOfObject(rest, consumed + |PrintedString(tokens)|, Scan(depth, false, false))
    {
      var body := PrintedTokens(tokens) + [QUOTE] + rest;
      assert PrintedString(tokens) + rest == [QUOTE] + body;
      OneScanned(QUOTE, body, consumed, Scan(depth, false, false));
      StringScanned(tokens, rest, consumed + 1, depth);
    }
  }

  // An opening brace, neutral text and the closing brace.
  lemma BracedScanned(part: Text, rest: Text, consumed: nat, depth: nat)
    requires Neutral(part)
    ensures EndOfObject([OPEN_BRACE] + part + [CLOSE_BRACE] + rest, consumed, Scan(depth, false, false))
         == if depth == 0 then consumed + |part| + 2
            else EndOfObject(rest, consumed + |part| + 2, Scan(depth, false, false))
  {
    var closing := [CLOSE_BRACE] + rest;
    assert [OPEN_BRACE] + part + [CLOSE_BRACE] + rest == [OPEN_BRACE] + (part + closing);
    OneScanned(OPEN_BRACE, part + closing, consumed, Scan(depth, false, false));
    assert EndOfObject(part + closing, consumed + 1, Scan(depth + 1, false, false))
        == EndOfObject(closing, consumed + 1 + |part|, Scan(depth + 1, false, false));
    assert closing[1..] == rest;
  }

  lemma BracedIsNeutral(part: Text)
    requires Neutral(part)
    ensures Neutral([OPEN_BRACE] + part + [CLOSE_BRACE])
  {
    hide EndOfObject;
    forall rest: Text, consumed: nat, depth: int | depth > 0
      ensures EndOfObject([OPEN_BRACE] + part + [CLOSE_BRACE] + rest, consumed, Scan(depth, false, false))
           == EndOfObject(rest, consumed + |[OPEN_BRACE] + part + [CLOSE_BRACE]|, Scan(depth, false, false))
    {
      BracedScanned(part, rest, consumed, depth);
    }
  }

  lemma BlankIsNeutral(blank: Text)
    requires IsBlank(blank)
    ensures Neutral(blank)
  {
    PlainIsNeutral(blank);
  }

  lemma {:induction false} ValueIsNeutral(v: Value)
    requires ValidValue(v)
    ensures Neutral(Printed(v))
    decreases v, 0
  {
    hide Neutral, IsBlank, IsWordCharacter;
    match v
    case Word(text) =>
      WordIsNeutral(text);
    case String(tokens) =>
      StringIsNeutral(tokens);
    case Array(blank, items) =>
      BlankIsNeutral(blank);
      ItemsAreNeutral(items);
      CharacterIsNeutral(OPEN_BRACKET);
      CharacterIsNeutral(CLOSE_BRACKET);
      NeutralJoined([OPEN_BRACKET], blank);
      NeutralJoined([OPEN_BRACKET] + blank, PrintedItems(items));
      NeutralJoined([OPEN_BRACKET] + blank + PrintedItems(items), [CLOSE_BRACKET]);
    case Object(blank, members) =>
      InsideIsNeutral(blank, members);
      BracedIsNeutral(Inside(blank, members));
  }

  lemma WordIsNeutral(text: Text)
    requires forall c | c in text :: IsWordCharacter(c)
    ensures Neutral(text)
  {
    PlainIsNeutral(text);
  }

  lemma {:induction false} InsideIsNeutral(blank: Text, members: Members)
    requires IsBlank(blank) && ValidMembers(members)
    ensures Neutral(Inside(blank, members))
    decreases members, 1
  {
    hide Neutral, IsBlank;
    BlankIsNeutral(blank);
    MembersAreNeutral(members);
    NeutralJoined(blank, PrintedMembers(members));
  }

  lemma SeparatorIsNeutral(more: bool)
    ensures Neutral(Separator(more))
  {
    PlainIsNeutral(Separator(more));
  }

  lemma {:induction false} ItemsAreNeutral(items: Items)
    requires ValidItems(items)
    ensures Neutral(PrintedItems(items))
    decreases items, 0
  {
    hide Neutral, IsBlank;
    match items
    case NoItems =>
      SeparatorIsNeutral(false);
    case Item(before, value, after, rest) =>
      BlankIsNeutral(before);
      ValueIsNeutral(value);
      BlankIsNeutral(after);
      SeparatorIsNeutral(rest.Item?);
      ItemsAreNeutral(rest);
      NeutralJoined(before, Printed(value));
      NeutralJoined(before + Printed(value), after);
      NeutralJoined(before + Printed(value) + after, Separator(rest.Item?));
      NeutralJoined(before + Printed(value) + after + Separator(rest.Item?), PrintedItems(rest));
  }

  lemma {:induction false} MembersAreNeutral(members: Members)
    requires ValidMembers(members)
    ensures Neutral(PrintedMembers(members))
    decreases members, 0
  {
    hide Neutral, IsBlank, ValidToken, PrintedString;
    match members
    case NoMembers =>
      SeparatorIsNeutral(false);
    case Member(before, key, colonBefore, colonAfter, value, after, rest) =>
      BlankIsNeutral(before);
      StringIsNeutral(key);
      BlankIsNeutral(colonBefore);
      CharacterIsNeutral(COLON);
      BlankIsNeutral(colonAfter);
      ValueIsNeutral(value);
      BlankIsNeutral(after);
      SeparatorIsNeutral(rest.Member?);
      MembersAreNeutral(rest);
      var a := before + PrintedString(key);
      NeutralJoined(before, PrintedString(key));
      NeutralJoined(a, colonBefore);
      NeutralJoined(a + colonBefore, [COLON]);
      NeutralJoined(a + colonBefore + [COLON], colonAfter);
      var b := a + colonBefore + [COLON] + colonAfter;
      NeutralJoined(b, Printed(value));
      NeutralJoined(b + Printed(value), after);
      NeutralJoined(b + Printed(value) + after, Separator(rest.Member?));
      NeutralJoined(b + Printed(value) + after + Separator(rest.Member?), PrintedMembers(rest));
  }

  // For every JSON object, however it is nested and printed, and for every text that follows, the
  // scanner stops exactly at the end of the object.
  lemma ScanFindsObjectEnd(v: Value, consumed: nat, rest: Text)
    requires v.Object? && ValidValue(v)
    ensures EndOfObject(Printed(v) + rest, consumed, START) == consumed + |Printed(v)|
  {
    hide EndOfObject;
    InsideIsNeutral(v.blank, v.members);
    BracedScanned(Inside(v.blank, v.members), rest, consumed, 0);
  }

  lemma {:induction false} FoundStays(text: Text, more: Text, consumed: nat, s: Scan)
    requires EndOfObject(text, consumed, s) >= 0
    ensures EndOfObject(text + more, consumed, s) == EndOfObject(text, consumed, s) <= consumed + |text|
  {
    if text != [] {
      assert (text + more)[1..] == text[1..] + more;
      var next := Advanced(s, text[0]);
      if !(!s.inString && text[0] == CLOSE_BRACE && next.depth == 0) {
        FoundStays(text[1..], more, consumed + 1, next);
      }
    }
  }

  // In a printed object that breaks off no end is found.
  lemma UnfinishedHasNoEnd(v: Value, consumed: nat, n: nat)
    requires v.Object? && ValidValue(v) && n < |Printed(v)|
    ensures EndOfObject(Printed(v)[..n], consumed, START) < 0
  {
    hide EndOfObject, Printed, ValidValue;
    var text, rest := Printed(v)[..n], Printed(v)[n..];
    assert Printed(v) + [] == Printed(v) && text + rest == Printed(v);
    ScanFindsObjectEnd(v, consumed, []);
    if EndOfObject(text, consumed, START) >= 0 {
      FoundStays(text, rest, consumed, START);
    }
  }
}
