/** Strings as the source sees them: sequences of UTF-16 code units. */
module Utf16 {

  type CodeUnit = c: int | 0 <= c < 0x10000

  type Text = seq<CodeUnit>

  // The code units of a literal from the Basic Multilingual Plane.
  function Units(literal: string): Text {
    seq(|literal|, i requires 0 <= i < |literal| => (literal[i] as int) % 0x10000)
  }

  const QUOTE: CodeUnit := 0x22
  const COMMA: CodeUnit := 0x2C
  const MINUS: CodeUnit := 0x2D
  const ZERO: CodeUnit := 0x30
  const COLON: CodeUnit := 0x3A
  const OPEN_BRACKET: CodeUnit := 0x5B
  const BACKSLASH: CodeUnit := 0x5C
  const CLOSE_BRACKET: CodeUnit := 0x5D
  const OPEN_BRACE: CodeUnit := 0x7B
  const BAR: CodeUnit := 0x7C
  const CLOSE_BRACE: CodeUnit := 0x7D

  predicate IsHighSurrogate(c: CodeUnit) {
    0xD800 <= c <= 0xDBFF
  }

  predicate IsLowSurrogate(c: CodeUnit) {
    0xDC00 <= c <= 0xDFFF
  }

  // The white space that `trim` removes and `\S` does not match.
  predicate IsSpace(c: CodeUnit) {
    || 0x09 <= c <= 0x0D || c == 0x20 || c == 0xA0 || c == 0x1680 || 0x2000 <= c <= 0x200A
    || c == 0x2028 || c == 0x2029 || c == 0x202F || c == 0x205F || c == 0x3000 || c == 0xFEFF
  }

  function TrimStart(text: Text): Text {
    if text != [] && IsSpace(text[0]) then TrimStart(text[1..]) else text
  }

  function TrimEnd(text: Text): Text {
    if text != [] && IsSpace(text[|text| - 1]) then TrimEnd(text[..|text| - 1]) else text
  }

  function Trim(text: Text): Text {
    TrimEnd(TrimStart(text))
  }

  lemma {:induction false} TrimEndTwice(text: Text)
    ensures TrimEnd(TrimEnd(text)) == TrimEnd(text)
    ensures TrimEnd(text) <= text
    ensures text != [] && !IsSpace(text[0]) ==> TrimEnd(text) != []
  {
    if text != [] && IsSpace(text[|text| - 1]) {
      TrimEndTwice(text[..|text| - 1]);
    }
  }

  predicate AllSpace(text: Text) {
    forall i | 0 <= i < |text| :: IsSpace(text[i])
  }

  // What `trim` leaves is what stands between the white space at both ends.
  lemma TrimSplits(text: Text) returns (before: Text, after: Text)
    ensures text == before + Trim(text) + after && AllSpace(before) && AllSpace(after)
    ensures var left := Trim(text); left != [] ==> !IsSpace(left[0]) && !IsSpace(left[|left| - 1])
  {
    before := TrimStartSplits(text);
    after := TrimEndSplits(TrimStart(text));
    TrimEndTwice(TrimStart(text));
  }

  lemma TrimEmptyExactly(text: Text)
    ensures Trim(text) == [] <==> AllSpace(text)
  {
    var before, after := TrimSplits(text);
    if Trim(text) != [] {
      assert text[|before|] == Trim(text)[0];
    }
  }

  lemma {:induction false} TrimStartSplits(text: Text) returns (before: Text)
    ensures text == before + TrimStart(text) && AllSpace(before)
    ensures TrimStart(text) != [] ==> !IsSpace(TrimStart(text)[0])
  {
    before := [];
    if text != [] && IsSpace(text[0]) {
      before := TrimStartSplits(text[1..]);
      before := [text[0]] + before;
    }
  }

  lemma {:induction false} TrimEndSplits(text: Text) returns (after: Text)
    ensures text == TrimEnd(text) + after && AllSpace(after)
    ensures TrimEnd(text) != [] ==> !IsSpace(TrimEnd(text)[|TrimEnd(text)| - 1])
  {
    after := [];
    if text != [] && IsSpace(text[|text| - 1]) {
      after := TrimEndSplits(text[..|text| - 1]);
      after := after + [text[|text| - 1]];
    }
  }

  // Decimal numbers

  predicate IsDigit(c: CodeUnit) {
    0x30 <= c <= 0x39
  }

  function Decimal(n: nat): Text {
    if n < 10 then [ZERO + n] else Decimal(n / 10) + [ZERO + n % 10]
  }

  function IntegerText(n: int): Text {
    if n < 0 then [MINUS] + Decimal(-n) else Decimal(n)
  }

  lemma {:induction false} DecimalIsDigits(n: nat)
    ensures |Decimal(n)| > 0 && forall c | c in Decimal(n) :: IsDigit(c)
  {
    if n >= 10 {
      DecimalIsDigits(n / 10);
    }
  }

  lemma {:induction false} DecimalInjective(m: nat, n: nat)
    requires Decimal(m) == Decimal(n)
    ensures m == n
  {
    DecimalIsDigits(m / 10);
    DecimalIsDigits(n / 10);
    var last := Decimal(m)[|Decimal(m)| - 1];
    assert last == ZERO + m % 10 == ZERO + n % 10;
    if m >= 10 && n >= 10 {
      assert Decimal(m)[..|Decimal(m)| - 1] == Decimal(m / 10);
      assert Decimal(n)[..|Decimal(n)| - 1] == Decimal(n / 10);
      DecimalInjective(m / 10, n / 10);
    }
  }

  // The number that a row of digits stands for.
  function DecimalValue(text: Text): int {
    if text == [] then 0 else DecimalValue(text[..|text| - 1]) * 10 + (text[|text| - 1] as int - 0x30)
  }

  // A decimal text stands for its number and has no needless zero in front.
  lemma {:induction false} DecimalIsReadBack(n: nat)
    ensures DecimalValue(Decimal(n)) == n && (n > 0 ==> Decimal(n)[0] != ZERO)
  {
    if n >= 10 {
      var before := Decimal(n / 10);
      DecimalIsReadBack(n / 10);
      DecimalIsDigits(n / 10);
      assert Decimal(n)[..|before|] == before;
    } else {
      assert Decimal(n)[..0] == [];
    }
  }

  predicate InNumber(c: CodeUnit) {
    IsDigit(c) || c == MINUS
  }

  // Two texts that begin with a number up to a delimiter agree on its characters and on the rest.
  lemma NumberUpToDelimiter(a: Text, b: Text, delimiter: CodeUnit, x: Text, y: Text)
    requires (forall c | c in a :: InNumber(c)) && (forall c | c in b :: InNumber(c)) && !InNumber(delimiter)
    requires a + [delimiter] + x == b + [delimiter] + y
    ensures a == b && x == y
  {
    var whole, other := a + [delimiter] + x, b + [delimiter] + y;
    assert whole[|a|] == delimiter && other[|b|] == delimiter;
    forall i | 0 <= i < |a|
      ensures InNumber(whole[i])
    {
      assert whole[i] == a[i];
    }
    forall i | 0 <= i < |b|
      ensures InNumber(other[i])
    {
      assert other[i] == b[i];
    }
    assert whole[..|a|] == a && other[..|b|] == b;
    assert whole[|a| + 1..] == x && other[|b| + 1..] == y;
  }

  lemma IntegerTextInNumber(n: int)
    ensures |IntegerText(n)| > 0 && (forall c | c in IntegerText(n) :: InNumber(c))
    ensures IntegerText(n)[0] == MINUS <==> n < 0
  {
    hide Decimal;
    DecimalIsDigits(if n < 0 then -n else n);
    assert n >= 0 ==> IntegerText(n)[0] in Decimal(n);
  }

  lemma IntegerTextInjective(m: int, n: int)
    requires IntegerText(m) == IntegerText(n)
    ensures m == n
  {
    hide Decimal;
    IntegerTextInNumber(m);
    IntegerTextInNumber(n);
    if m < 0 {
      assert IntegerText(m)[1..] == Decimal(-m) && IntegerText(n)[1..] == Decimal(-n);
      DecimalInjective(-m, -n);
    } else {
      DecimalInjective(m, n);
    }
  }
}
