/**
 The base64url text of a byte sequence (packages/remote-control/src/crypto.ts): `btoa` follows
 section 4 of RFC 4648, `atob` the forgiving-base64 decode of the WHATWG Infra Standard.
 */
module Base64Url {
  import opened Results
  import opened Utf16

  type Byte = b: int | 0 <= b < 256

  type Sextet = s: int | 0 <= s < 64

  const PLUS: CodeUnit := 0x2B
  const SLASH: CodeUnit := 0x2F
  const UNDERSCORE: CodeUnit := 0x5F
  const PAD: CodeUnit := 0x3D

  function Symbol(n: Sextet): CodeUnit {
    if n < 26 then 0x41 + n
    else if n < 52 then 0x61 + n - 26
    else if n < 62 then 0x30 + n - 52
    else if n == 62 then PLUS
    else SLASH
  }

  function ValueOf(c: CodeUnit): Option<Sextet> {
    if 0x41 <= c <= 0x5A then Some(c - 0x41)
    else if 0x61 <= c <= 0x7A then Some(c - 0x61 + 26)
    else if 0x30 <= c <= 0x39 then Some(c - 0x30 + 52)
    else if c == PLUS then Some(62)
    else if c == SLASH then Some(63)
    else None
  }

  // Encoding

  function Sextets(bytes: seq<Byte>): seq<Sextet> {
    if bytes == [] then []
    else if |bytes| == 1 then [bytes[0] / 4, bytes[0] % 4 * 16]
    else if |bytes| == 2 then [bytes[0] / 4, bytes[0] % 4 * 16 + bytes[1] / 16, bytes[1] % 16 * 4]
    else
      [bytes[0] / 4, bytes[0] % 4 * 16 + bytes[1] / 16, bytes[1] % 16 * 4 + bytes[2] / 64, bytes[2] % 64]
      + Sextets(bytes[3..])
  }

  function Symbols(sextets: seq<Sextet>): Text {
    seq(|sextets|, i requires 0 <= i < |sextets| => Symbol(sextets[i]))
  }

  function Pads(count: nat): Text {
    seq(count, i => PAD)
  }

  function Btoa(bytes: seq<Byte>): Text {
    Symbols(Sextets(bytes)) + Pads((3 - |bytes| % 3) % 3)
  }

  function Replaced(text: Text, from: CodeUnit, to: CodeUnit): Text {
    seq(|text|, i requires 0 <= i < |text| => if text[i] == from then to else text[i])
  }

  function WithoutPads(text: Text): Text {
    if text != [] && text[|text| - 1] == PAD then WithoutPads(text[..|text| - 1]) else text
  }

  function Encoded(bytes: seq<Byte>): Text {
    WithoutPads(Replaced(Replaced(Btoa(bytes), PLUS, MINUS), SLASH, UNDERSCORE))
  }

  // Decoding

  predicate IsAsciiSpace(c: CodeUnit) {
    c == 0x09 || c == 0x0A || c == 0x0C || c == 0x0D || c == 0x20
  }

  function WithoutSpaces(text: Text): Text {
    if text == [] then [] else (if IsAsciiSpace(text[0]) then [] else [text[0]]) + WithoutSpaces(text[1..])
  }

  // Up to two, and only from a text of whole groups.
  function WithoutPadding(text: Text): Text {
    if |text| % 4 != 0 || text == [] || text[|text| - 1] != PAD then text
    else if text[|text| - 2] == PAD then text[..|text| - 2]
    else text[..|text| - 1]
  }

  function Values(text: Text): Option<seq<Sextet>> {
    if text == [] then Some([])
    else
      var first, rest := ValueOf(text[0]), Values(text[1..]);
      if first.Some? && rest.Some? then Some([first.value] + rest.value) else None
  }

  // The bytes of a group of sextets.
  function First(a: Sextet, b: Sextet): Byte {
    a * 4 + b / 16
  }

  function Second(b: Sextet, c: Sextet): Byte {
    b % 16 * 16 + c / 4
  }

  function Third(c: Sextet, d: Sextet): Byte {
    c % 4 * 64 + d
  }

  // Bits that do not fill a byte are discarded.
  function BytesOf(sextets: seq<Sextet>): seq<Byte> {
    if |sextets| < 2 then []
    else if |sextets| == 2 then [First(sextets[0], sextets[1])]
    else if |sextets| == 3 then [First(sextets[0], sextets[1]), Second(sextets[1], sextets[2])]
    else
      [First(sextets[0], sextets[1]), Second(sextets[1], sextets[2]), Third(sextets[2], sextets[3])] + BytesOf(sextets[4..])
  }

  function Atob(text: Text): Option<seq<Byte>> {
    var stripped := WithoutPadding(WithoutSpaces(text));
    var values := Values(stripped);
    if |stripped| % 4 == 1 || values.None? then None else Some(BytesOf(values.value))
  }

  datatype Base64Error = InvalidBase64Url

  function Decoded(text: Text): Result<seq<Byte>, Base64Error> {
    var normalized := Replaced(Replaced(text, MINUS, PLUS), UNDERSCORE, SLASH);
    match Atob(normalized + Pads((4 - |normalized| % 4) % 4))
    case Some(bytes) => Ok(bytes)
    case None => Err(InvalidBase64Url)
  }

  method ToBase64Url(bytes: seq<Byte>) returns (text: Text)
    ensures text == Encoded(bytes)
  {
    var binary: seq<Byte> := [];
    for i := 0 to |bytes|
      invariant binary == bytes[..i]
    {
      binary := binary + [bytes[i]];
    }
    assert bytes[..|bytes|] == bytes;
    text := WithoutPads(Replaced(Replaced(Btoa(binary), PLUS, MINUS), SLASH, UNDERSCORE));
  }

  method FromBase64Url(text: Text) returns (result: Result<seq<Byte>, Base64Error>)
    ensures result == Decoded(text)
  {
    hide Atob, Replaced, Pads;
    var normalized := Replaced(Replaced(text, MINUS, PLUS), UNDERSCORE, SLASH);
    var padded := normalized + Pads((4 - |normalized| % 4) % 4);
    var binary := Atob(padded);
    if binary.None? {
      return Err(InvalidBase64Url);
    }
    var bytes := new Byte[|binary.value|](_ => 0);
    for index := 0 to |binary.value|
      invariant bytes[..index] == binary.value[..index]
    {
      bytes[index] := binary.value[index];
    }
    assert bytes[..] == bytes[..bytes.Length] && binary.value[..bytes.Length] == binary.value;
    result := Ok(bytes[..]);
  }

  // Round trip

  function UrlSymbol(n: Sextet): CodeUnit {
    if n == 62 then MINUS else if n == 63 then UNDERSCORE else Symbol(n)
  }

  function UrlSymbols(sextets: seq<Sextet>): Text {
    seq(|sextets|, i requires 0 <= i < |sextets| => UrlSymbol(sextets[i]))
  }

  lemma {:induction false} PadsStripped(text: Text, count: nat)
    requires text != [] ==> text[|text| - 1] != PAD
    ensures WithoutPads(text + Pads(count)) == text
  {
    if count == 0 {
      assert text + Pads(0) == text;
    } else {
      var padded := text + Pads(count);
      assert padded[..|padded| - 1] == text + Pads(count - 1);
      PadsStripped(text, count - 1);
    }
  }

  // The text is one URL-safe character per sextet and nothing else.
  lemma EncodedIsUrlSafe(bytes: seq<Byte>)
    ensures Encoded(bytes) == UrlSymbols(Sextets(bytes))
    ensures forall c | c in Encoded(bytes) :: c != PLUS && c != SLASH && c != PAD
  {
    hide Sextets;
    var sextets, count := Sextets(bytes), (3 - |bytes| % 3) % 3;
    var text := UrlSymbols(sextets);
    assert Replaced(Replaced(Btoa(bytes), PLUS, MINUS), SLASH, UNDERSCORE) == text + Pads(count);
    PadsStripped(text, count);
  }

  lemma {:induction false} SextetCount(bytes: seq<Byte>)
    ensures |Sextets(bytes)| == |bytes| / 3 * 4 + (if |bytes| % 3 == 0 then 0 else |bytes| % 3 + 1)
  {
    if |bytes| >= 3 {
      SextetCount(bytes[3..]);
    }
  }

  lemma {:induction false} BytesRestored(bytes: seq<Byte>)
    ensures BytesOf(Sextets(bytes)) == bytes
  {
    if |bytes| >= 3 {
      var rest := Sextets(bytes[3..]);
      BytesRestored(bytes[3..]);
      assert Sextets(bytes)[4..] == rest;
      GroupRestored(bytes[0], bytes[1], bytes[2]);
      assert bytes == bytes[..3] + bytes[3..];
    } else if |bytes| == 2 {
      GroupRestored(bytes[0], bytes[1], 0);
    } else if |bytes| == 1 {
      GroupRestored(bytes[0], 0, 0);
    }
  }

  lemma GroupRestored(a: Byte, b: Byte, c: Byte)
    ensures a / 4 * 4 + (a % 4 * 16 + b / 16) / 16 == a
    ensures (a % 4 * 16 + b / 16) % 16 * 16 + (b % 16 * 4 + c / 64) / 4 == b
    ensures (b % 16 * 4 + c / 64) % 4 * 64 + c % 64 == c
  {
  }

  lemma {:induction false} ValuesOfSymbols(sextets: seq<Sextet>)
    ensures Values(Symbols(sextets)) == Some(sextets)
  {
    if sextets != [] {
      assert Symbols(sextets)[1..] == Symbols(sextets[1..]);
      ValuesOfSymbols(sextets[1..]);
      ValueOfSymbol(sextets[0]);
      assert [sextets[0]] + sextets[1..] == sextets;
    }
  }

  lemma ValueOfSymbol(n: Sextet)
    ensures ValueOf(Symbol(n)) == Some(n)
  {
  }

  lemma {:induction false} NoSpaces(text: Text)
    requires forall c | c in text :: !IsAsciiSpace(c)
    ensures WithoutSpaces(text) == text
  {
    if text != [] {
      assert text[0] in text && forall c | c in text[1..] :: c in text;
      NoSpaces(text[1..]);
    }
  }

  lemma SymbolsAreSymbols(sextets: seq<Sextet>, count: nat)
    ensures forall c | c in Symbols(sextets) + Pads(count) :: !IsAsciiSpace(c)
    ensures forall c | c in Symbols(sextets) :: c != PAD
  {
  }

  // The padding that decoding restores is removed again.
  lemma PaddingRemoved(text: Text)
    requires (forall c | c in text :: c != PAD) && |text| % 4 != 1
    ensures WithoutPadding(text + Pads((4 - |text| % 4) % 4)) == text
  {
    var count := (4 - |text| % 4) % 4;
    var padded := text + Pads(count);
    assert |padded| % 4 == 0;
    if count == 0 {
      assert padded == text;
      assert text != [] ==> text[|text| - 1] in text;
    } else if count == 1 {
      assert padded[|padded| - 1] == PAD && padded[|padded| - 2] == text[|text| - 1] && text[|text| - 1] in text;
      assert padded[..|padded| - 1] == text;
    } else {
      assert padded[|padded| - 1] == PAD && padded[|padded| - 2] == PAD;
      assert padded[..|padded| - 2] == text;
    }
  }

  // Every byte sequence of every length survives encoding and decoding.
  lemma RoundTrip(bytes: seq<Byte>)
    ensures Decoded(Encoded(bytes)) == Ok(bytes)
  {
    hide Sextets, BytesOf, WithoutPadding, WithoutSpaces, Values, Encoded;
    var sextets := Sextets(bytes);
    EncodedIsUrlSafe(bytes);
    var text := Symbols(sextets);
    assert Replaced(Replaced(UrlSymbols(sextets), MINUS, PLUS), UNDERSCORE, SLASH) == text;
    SextetCount(bytes);
    var count := (4 - |text| % 4) % 4;
    SymbolsAreSymbols(sextets, count);
    NoSpaces(text + Pads(count));
    PaddingRemoved(text);
    ValuesOfSymbols(sextets);
    BytesRestored(bytes);
  }

  // Digits to a base, the first one the most significant.
  function Number(base: int, digits: seq<int>): int {
    if digits == [] then 0 else Number(base, digits[..|digits| - 1]) * base + digits[|digits| - 1]
  }

  lemma {:induction false} NumberOfFour(base: int, a: int, b: int, c: int, d: int)
    ensures Number(base, [a]) == a && Number(base, [a, b]) == a * base + b
    ensures Number(base, [a, b, c]) == (a * base + b) * base + c
    ensures Number(base, [a, b, c, d]) == ((a * base + b) * base + c) * base + d
  {
    assert [a][..0] == [] && [a, b][..1] == [a] && [a, b, c][..2] == [a, b] && [a, b, c, d][..3] == [a, b, c];
  }

  // The bits of a byte sequence, eight to a byte, are those of its sextets, six to a sextet, filled up
  // with zeros: three bytes make one number, and so do their four sextets.
  lemma SextetsHoldTheBits(bytes: seq<Byte>)
    ensures
      var s := Sextets(bytes);
      match |bytes|
      case 0 => s == []
      case 1 => |s| == 2 && Number(0x40, s) == Number(0x100, bytes) * 0x10
      case 2 => |s| == 3 && Number(0x40, s) == Number(0x100, bytes) * 4
      case _ => |s| >= 4 && s[4..] == Sextets(bytes[3..]) && Number(0x40, s[..4]) == Number(0x100, bytes[..3])
  {
    hide Number;
    var s := Sextets(bytes);
    if |bytes| == 1 {
      NumberOfFour(0x100, bytes[0], 0, 0, 0);
      NumberOfFour(0x40, s[0], s[1], 0, 0);
      assert bytes == [bytes[0]] && s == [s[0], s[1]];
    } else if |bytes| == 2 {
      NumberOfFour(0x100, bytes[0], bytes[1], 0, 0);
      NumberOfFour(0x40, s[0], s[1], s[2], 0);
      assert bytes == [bytes[0], bytes[1]] && s == [s[0], s[1], s[2]];
    } else if |bytes| >= 3 {
      NumberOfFour(0x100, bytes[0], bytes[1], bytes[2], 0);
      NumberOfFour(0x40, s[0], s[1], s[2], s[3]);
      assert bytes[..3] == [bytes[0], bytes[1], bytes[2]] && s[..4] == [s[0], s[1], s[2], s[3]];
    }
  }

  // Decoding what was not encoded here

  predicate IsSymbol(c: CodeUnit) {
    || 0x41 <= c <= 0x5A || 0x61 <= c <= 0x7A || 0x30 <= c <= 0x39
    || c == PLUS || c == SLASH || c == MINUS || c == UNDERSCORE
  }

  lemma {:induction false} ValuesExactly(text: Text)
    ensures Values(text).Some? <==> forall i | 0 <= i < |text| :: ValueOf(text[i]).Some?
    ensures Values(text).Some? ==> |Values(text).value| == |text|
  {
    if text != [] {
      ValuesExactly(text[1..]);
    }
  }

  lemma {:induction false} SpacesRemoved(a: Text, b: Text)
    ensures WithoutSpaces(a + b) == WithoutSpaces(a) + WithoutSpaces(b)
  {
    if a == [] {
      assert a + b == b;
    } else {
      assert (a + b)[1..] == a[1..] + b;
      SpacesRemoved(a[1..], b);
    }
  }

  lemma {:induction false} SpacesStay(text: Text, from: CodeUnit, to: CodeUnit)
    requires !IsAsciiSpace(from) && !IsAsciiSpace(to)
    ensures WithoutSpaces(Replaced(text, from, to)) == Replaced(WithoutSpaces(text), from, to)
  {
    if text != [] {
      assert Replaced(text, from, to)[1..] == Replaced(text[1..], from, to);
      SpacesStay(text[1..], from, to);
    }
  }

  lemma NormalizedSpaces(text: Text)
    ensures
      var left, normalized := WithoutSpaces(text), WithoutSpaces(Replaced(Replaced(text, MINUS, PLUS), UNDERSCORE, SLASH));
      && |left| == |normalized|
      && (PAD in left <==> PAD in normalized)
      && forall i | 0 <= i < |left| :: IsSymbol(left[i]) <==> ValueOf(normalized[i]).Some?
  {
    hide WithoutSpaces;
    SpacesStay(text, MINUS, PLUS);
    SpacesStay(Replaced(text, MINUS, PLUS), UNDERSCORE, SLASH);
    var left := WithoutSpaces(text);
    var normalized := Replaced(Replaced(left, MINUS, PLUS), UNDERSCORE, SLASH);
    forall i | 0 <= i < |left|
      ensures left[i] == PAD <==> normalized[i] == PAD
    {
    }
  }

  lemma PadsAreNoSymbols(text: Text, count: nat)
    requires count > 0
    ensures Values(text + Pads(count)).None?
  {
    var padded := text + Pads(count);
    ValuesExactly(padded);
    assert padded[|text|] == PAD;
  }

  lemma PaddingStripped(text: Text, count: nat)
    requires PAD !in text && count <= 3
    ensures
      var stripped := WithoutPadding(text + Pads(count));
      if (|text| + count) % 4 != 0 then stripped == text + Pads(count)
      else if count <= 2 then stripped == text
      else stripped == text + Pads(1)
  {
    var padded := text + Pads(count);
    if count == 0 {
      assert padded == text;
    } else if (|text| + count) % 4 == 0 {
      assert padded[..|text|] == text && (count == 3 ==> padded[..|text| + 1] == text + Pads(1));
    }
  }

  // A text without padding is decoded exactly if, apart from ASCII white space, it consists of symbols of
  // either alphabet, and the padding that is added for its length, white space included, completes the
  // symbols to groups of four or is none.
  lemma DecodedExactly(text: Text)
    requires PAD !in WithoutSpaces(text)
    ensures
      var left, count := WithoutSpaces(text), (4 - |text| % 4) % 4;
      Decoded(text).Ok? <==>
      && (forall i | 0 <= i < |left| :: IsSymbol(left[i]))
      && (if count == 0 then |left| % 4 != 1 else count <= 2 && (|left| + count) % 4 == 0)
  {
    hide WithoutSpaces, WithoutPadding, Values, BytesOf, Replaced, IsSymbol;
    var normalized := Replaced(Replaced(text, MINUS, PLUS), UNDERSCORE, SLASH);
    ReplacedLength(text);
    var count := (4 - |text| % 4) % 4;
    var left := WithoutSpaces(normalized);
    SpacesRemoved(normalized, Pads(count));
    NoSpaces(Pads(count));
    NormalizedSpaces(text);
    PaddingStripped(left, count);
    ValuesExactly(left);
    PadsAreNoSymbols(left, 1);
    if count > 0 {
      PadsAreNoSymbols(left, count);
    } else {
      assert left + Pads(count) == left;
    }
  }

  lemma ReplacedLength(text: Text)
    ensures |Replaced(Replaced(text, MINUS, PLUS), UNDERSCORE, SLASH)| == |text|
  {
  }
}
