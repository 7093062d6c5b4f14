/**
 What `JSON.stringify` prints for strings (QuoteJSONString of ECMA-262, section 25.5.4.3)
 and how such text can be read back unambiguously.
 */
module JsonText {
  import opened Utf16

  function HexDigit(n: int): CodeUnit
    requires 0 <= n < 16
  {
    if n < 10 then 0x30 + n else 0x61 + n - 10
  }

  function Hex4(c: CodeUnit): Text {
    var high, middle := c / 0x10 / 0x10, c / 0x10;
    [HexDigit(high / 0x10), HexDigit(high % 0x10), HexDigit(middle % 0x10), HexDigit(c % 0x10)]
  }

  // The letter of a two-character escape, or 0.
  function ShortEscape(c: CodeUnit): CodeUnit {
    if c == 0x08 then 0x62
    else if c == 0x09 then 0x74
    else if c == 0x0A then 0x6E
    else if c == 0x0C then 0x66
    else if c == 0x0D then 0x72
    else if c == QUOTE || c == BACKSLASH then c
    else 0
  }

  function Escaped(c: CodeUnit): Text {
    if ShortEscape(c) != 0 then [BACKSLASH, ShortEscape(c)]
    else if c < 0x20 || 0xD800 <= c <= 0xDFFF then [BACKSLASH, 0x75] + Hex4(c)
    else [c]
  }

  // A surrogate pair is copied; a lone surrogate is escaped.
  predicate StartsWithPair(text: Text) {
    |text| >= 2 && IsHighSurrogate(text[0]) && IsLowSurrogate(text[1])
  }

  function Width(text: Text): (n: nat)
    requires text != []
    ensures 1 <= n <= |text|
  {
    if StartsWithPair(text) then 2 else 1
  }

  function Token(text: Text): Text
    requires text != []
  {
    if StartsWithPair(text) then text[..2] else Escaped(text[0])
  }

  function QuotedBody(text: Text): Text {
    if text == [] then [] else Token(text) + QuotedBody(text[Width(text)..])
  }

  function Quoted(text: Text): Text {
    [QUOTE] + QuotedBody(text) + [QUOTE]
  }

  lemma Hex4Injective(c: CodeUnit, d: CodeUnit)
    requires Hex4(c) == Hex4(d)
    ensures c == d
  {
    assert Hex4(c)[0] == Hex4(d)[0] && Hex4(c)[1] == Hex4(d)[1];
    assert c / 0x10 / 0x10 == d / 0x10 / 0x10;
    assert Hex4(c)[2] == Hex4(d)[2];
    assert c / 0x10 == d / 0x10;
    assert Hex4(c)[3] == Hex4(d)[3];
  }

  // A token never starts with a quotation mark, and tells how many units it stands for.
  lemma TokenShape(text: Text)
    requires text != []
    ensures |Token(text)| >= 1 && Token(text)[0] != QUOTE
    ensures IsHighSurrogate(Token(text)[0]) <==> StartsWithPair(text)
    ensures Token(text)[0] == BACKSLASH ==> |Token(text)| >= 2 && !StartsWithPair(text)
  {
  }

  lemma EscapedInjective(c: CodeUnit, d: CodeUnit, x: Text, y: Text)
    requires Escaped(c) + x == Escaped(d) + y
    ensures c == d && x == y
  {
    var whole, other := Escaped(c) + x, Escaped(d) + y;
    assert whole[0] == Escaped(c)[0] && other[0] == Escaped(d)[0];
    if whole[0] == BACKSLASH {
      assert whole[1] == Escaped(c)[1] && other[1] == Escaped(d)[1];
      if whole[1] == 0x75 {
        assert whole[2..6] == Hex4(c) && other[2..6] == Hex4(d);
        Hex4Injective(c, d);
      }
    }
    assert whole[|Escaped(c)|..] == x && other[|Escaped(d)|..] == y;
  }

  lemma TokenIsReadable(a: Text, b: Text, x: Text, y: Text)
    requires a != [] && b != [] && Token(a) + x == Token(b) + y
    ensures Width(a) == Width(b) && a[..Width(a)] == b[..Width(b)] && x == y
  {
    TokenShape(a);
    TokenShape(b);
    var whole, other := Token(a) + x, Token(b) + y;
    assert whole[0] == Token(a)[0] && other[0] == Token(b)[0];
    if StartsWithPair(a) {
      assert whole[..2] == a[..2] && other[..2] == b[..2];
      assert whole[2..] == x && other[2..] == y;
    } else {
      EscapedInjective(a[0], b[0], x, y);
    }
  }

  lemma BodyStart(text: Text, rest: Text)
    ensures text == [] <==> (QuotedBody(text) + [QUOTE] + rest)[0] == QUOTE
  {
    if text != [] {
      TokenShape(text);
      assert (QuotedBody(text) + [QUOTE] + rest)[0] == Token(text)[0];
    }
  }

  lemma {:induction false} BodyIsReadable(a: Text, b: Text, x: Text, y: Text)
    requires QuotedBody(a) + [QUOTE] + x == QuotedBody(b) + [QUOTE] + y
    ensures a == b && x == y
    decreases |a|
  {
    hide Token;
    var whole, other := QuotedBody(a) + [QUOTE] + x, QuotedBody(b) + [QUOTE] + y;
    BodyStart(a, x);
    BodyStart(b, y);
    if a == [] || b == [] {
      assert whole[1..] == x && other[1..] == y;
    } else {
      var a', b' := a[Width(a)..], b[Width(b)..];
      assert whole == Token(a) + (QuotedBody(a') + [QUOTE] + x);
      assert other == Token(b) + (QuotedBody(b') + [QUOTE] + y);
      TokenIsReadable(a, b, QuotedBody(a') + [QUOTE] + x, QuotedBody(b') + [QUOTE] + y);
      BodyIsReadable(a', b', x, y);
      assert a == a[..Width(a)] + a' && b == b[..Width(b)] + b';
    }
  }

  // A quoted string can be read off the front of any text it starts.
  lemma QuotedIsReadable(a: Text, b: Text, x: Text, y: Text)
    requires Quoted(a) + x == Quoted(b) + y
    ensures a == b && x == y
  {
    var whole, other := Quoted(a) + x, Quoted(b) + y;
    assert whole[1..] == QuotedBody(a) + [QUOTE] + x && other[1..] == QuotedBody(b) + [QUOTE] + y;
    BodyIsReadable(a, b, x, y);
  }

  // Quoted strings, each followed by a comma.
  function QuotedList(texts: seq<Text>): Text {
    if texts == [] then [] else Quoted(texts[0]) + [COMMA] + QuotedList(texts[1..])
  }

  lemma {:induction false} QuotedListIsReadable(a: seq<Text>, b: seq<Text>, x: Text, y: Text)
    requires |a| == |b| && QuotedList(a) + x == QuotedList(b) + y
    ensures a == b && x == y
    decreases |a|
  {
    hide Quoted;
    if a == [] {
      assert QuotedList(a) + x == x && QuotedList(b) + y == y;
    } else {
      var x', y' := QuotedList(a[1..]) + x, QuotedList(b[1..]) + y;
      assert QuotedList(a) + x == Quoted(a[0]) + ([COMMA] + x');
      assert QuotedList(b) + y == Quoted(b[0]) + ([COMMA] + y');
      QuotedIsReadable(a[0], b[0], [COMMA] + x', [COMMA] + y');
      assert ([COMMA] + x')[1..] == x' && ([COMMA] + y')[1..] == y';
      QuotedListIsReadable(a[1..], b[1..], x, y);
    }
  }

  // Reading as RFC 8259, section 7, defines it

  function HexValue(c: CodeUnit): int {
    if 0x30 <= c <= 0x39 then c - 0x30
    else if 0x61 <= c <= 0x66 then c - 0x61 + 10
    else if 0x41 <= c <= 0x46 then c - 0x41 + 10
    else -1
  }

  // What the letter of a two-character escape stands for, or -1.
  function EscapeValue(c: CodeUnit): int {
    if c == 0x22 || c == 0x5C || c == 0x2F then c
    else if c == 0x62 then 0x08
    else if c == 0x66 then 0x0C
    else if c == 0x6E then 0x0A
    else if c == 0x72 then 0x0D
    else if c == 0x74 then 0x09
    else -1
  }

  datatype Unquoted = Unquoted(text: Text, rest: Text) | Unreadable

  function Before(c: int, following: Unquoted): Unquoted {
    if 0 <= c < 0x10000 && following.Unquoted? then Unquoted([c] + following.text, following.rest) else Unreadable
  }

  // The string up to the closing quotation mark, and what follows that.
  function Unquote(text: Text): Unquoted {
    if text == [] || text[0] < 0x20 then Unreadable
    else if text[0] == QUOTE then Unquoted([], text[1..])
    else if text[0] != BACKSLASH then Before(text[0], Unquote(text[1..]))
    else if |text| >= 6 && text[1] == 0x75 then
      if forall i | 2 <= i < 6 :: HexValue(text[i]) >= 0 then
        Before(((HexValue(text[2]) * 0x10 + HexValue(text[3])) * 0x10 + HexValue(text[4])) * 0x10 + HexValue(text[5]), Unquote(text[6..]))
      else Unreadable
    else if |text| >= 2 then Before(EscapeValue(text[1]), Unquote(text[2..]))
    else Unreadable
  }

  lemma HexDigitValue(n: int)
    requires 0 <= n < 16
    ensures HexValue(HexDigit(n)) == n
  {
  }

  lemma ShortEscapeIsRead(c: CodeUnit, rest: Text)
    requires ShortEscape(c) != 0
    ensures Unquote([BACKSLASH, ShortEscape(c)] + rest) == Before(c, Unquote(rest))
  {
    hide HexValue;
    var text := [BACKSLASH, ShortEscape(c)] + rest;
    assert text[0] == BACKSLASH && text[1] == ShortEscape(c) && text[2..] == rest;
  }

  lemma HexIsRead(c: CodeUnit)
    ensures
      var hex := Hex4(c);
      && (forall i | 0 <= i < 4 :: HexValue(hex[i]) >= 0)
      && ((HexValue(hex[0]) * 0x10 + HexValue(hex[1])) * 0x10 + HexValue(hex[2])) * 0x10 + HexValue(hex[3]) == c
  {
    hide HexValue, HexDigit;
    var high, middle := c / 0x10 / 0x10, c / 0x10;
    HexDigitValue(high / 0x10);
    HexDigitValue(high % 0x10);
    HexDigitValue(middle % 0x10);
    HexDigitValue(c % 0x10);
  }

  lemma LongEscapeIsRead(c: CodeUnit, rest: Text)
    ensures Unquote([BACKSLASH, 0x75] + Hex4(c) + rest) == Before(c, Unquote(rest))
  {
    hide HexValue, Hex4, EscapeValue;
    var text, hex := [BACKSLASH, 0x75] + Hex4(c) + rest, Hex4(c);
    HexIsRead(c);
    HexLength(c);
    assert text[0] == BACKSLASH && text[1] == 0x75 && text[6..] == rest;
    assert text[2] == hex[0] && text[3] == hex[1] && text[4] == hex[2] && text[5] == hex[3];
  }

  lemma HexLength(c: CodeUnit)
    ensures |Hex4(c)| == 4
  {
  }

  lemma EscapedIsRead(c: CodeUnit, rest: Text)
    ensures Unquote(Escaped(c) + rest) == Before(c, Unquote(rest))
  {
    hide Unquote, Hex4;
    if ShortEscape(c) != 0 {
      ShortEscapeIsRead(c, rest);
    } else if c < 0x20 || 0xD800 <= c <= 0xDFFF {
      LongEscapeIsRead(c, rest);
    } else {
      PlainIsRead(c, rest);
    }
  }

  lemma PlainIsRead(c: CodeUnit, rest: Text)
    requires c >= 0x20 && c != QUOTE && c != BACKSLASH
    ensures Unquote([c] + rest) == Before(c, Unquote(rest))
  {
    assert ([c] + rest)[1..] == rest;
  }

  lemma TokenIsRead(text: Text, tail: Text, following: Text, rest: Text)
    requires text != [] && Unquote(tail) == Unquoted(following, rest)
    ensures Unquote(Token(text) + tail) == Unquoted(text[..Width(text)] + following, rest)
  {
    hide Escaped, Unquote;
    if StartsWithPair(text) {
      assert Token(text) + tail == [text[0]] + ([text[1]] + tail);
      PlainIsRead(text[1], tail);
      PlainIsRead(text[0], [text[1]] + tail);
      assert text[..2] + following == [text[0]] + ([text[1]] + following);
    } else {
      EscapedIsRead(text[0], tail);
      assert text[..1] == [text[0]];
    }
  }

  lemma ClosingIsRead(rest: Text)
    ensures Unquote([QUOTE] + rest) == Unquoted([], rest)
  {
    assert ([QUOTE] + rest)[1..] == rest;
  }

  // A quoted string is read back as it was, whatever follows it.
  lemma {:induction false} QuotedIsReadBack(text: Text, rest: Text)
    ensures Unquote(QuotedBody(text) + [QUOTE] + rest) == Unquoted(text, rest)
  {
    hide Token, Unquote;
    if text == [] {
      assert QuotedBody(text) + [QUOTE] + rest == [QUOTE] + rest;
      ClosingIsRead(rest);
    } else {
      var following := text[Width(text)..];
      var tail := QuotedBody(following) + [QUOTE] + rest;
      QuotedIsReadBack(following, rest);
      TokenIsRead(text, tail, following, rest);
      assert QuotedBody(text) + [QUOTE] + rest == Token(text) + tail;
      assert text == text[..Width(text)] + following;
    }
  }
}
