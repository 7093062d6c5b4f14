/**
 The text that `stableTeamEventId` hashes (packages/agent-team/src/context-projector.ts):
 every part as `length:part`, joined by `|`.
 */
module CanonicalEncoding {
  import opened Utf16

  function EncodedPart(part: Text): Text {
    Decimal(|part|) + [COLON] + part
  }

  function Canonical(parts: seq<Text>): Text {
    if parts == [] then []
    else if |parts| == 1 then EncodedPart(parts[0])
    else EncodedPart(parts[0]) + [BAR] + Canonical(parts[1..])
  }

  // A part can be read off the front of any text it starts, whatever characters it contains.
  lemma PartIsReadable(a: Text, b: Text, x: Text, y: Text)
    requires EncodedPart(a) + x == EncodedPart(b) + y
    ensures a == b && x == y
  {
    DecimalIsDigits(|a|);
    DecimalIsDigits(|b|);
    assert EncodedPart(a) + x == Decimal(|a|) + [COLON] + (a + x);
    assert EncodedPart(b) + y == Decimal(|b|) + [COLON] + (b + y);
    NumberUpToDelimiter(Decimal(|a|), Decimal(|b|), COLON, a + x, b + y);
    DecimalInjective(|a|, |b|);
    assert (a + x)[..|a|] == a && (b + y)[..|b|] == b;
    assert (a + x)[|a|..] == x && (b + y)[|b|..] == y;
  }

  function Tail(parts: seq<Text>): Text
    requires parts != []
  {
    if |parts| == 1 then [] else [BAR] + Canonical(parts[1..])
  }

  lemma CanonicalParts(parts: seq<Text>)
    requires parts != []
    ensures Canonical(parts) == EncodedPart(parts[0]) + Tail(parts)
    ensures Canonical(parts) != []
  {
  }

  // Different lists of parts are never encoded alike, even if parts contain digits, `:` or `|`.
  lemma {:induction false} CanonicalInjective(a: seq<Text>, b: seq<Text>)
    requires Canonical(a) == Canonical(b)
    ensures a == b
    decreases |a|
  {
    hide EncodedPart;
    if a == [] {
      if b != [] {
        CanonicalParts(b);
      }
    } else {
      CanonicalParts(a);
      if b != [] {
        CanonicalParts(b);
        TailsDecide(a, b);
      }
    }
  }

  lemma {:induction false} TailsDecide(a: seq<Text>, b: seq<Text>)
    requires a != [] && b != []
    requires EncodedPart(a[0]) + Tail(a) == EncodedPart(b[0]) + Tail(b)
    ensures a == b
    decreases |a|, 0
  {
    hide EncodedPart, Canonical;
    PartIsReadable(a[0], b[0], Tail(a), Tail(b));
    if |a| > 1 && |b| > 1 {
      assert Tail(a)[1..] == Canonical(a[1..]) && Tail(b)[1..] == Canonical(b[1..]);
      CanonicalInjective(a[1..], b[1..]);
      assert a == [a[0]] + a[1..] && b == [b[0]] + b[1..];
    }
  }
}
