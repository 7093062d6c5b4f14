/**
 The records of a shared team conversation and the texts they are identified by
 (packages/agent-team/src/collaboration.ts, shared-history.ts, shared-context.ts).

 `stableTeamEventId` hashes a text; an identifier is modelled as that text itself.
 */
module TeamRecords {
  import opened Utf16
  import opened JsonText
  import opened CanonicalEncoding

  datatype RecordKind = UserMessage | AgentMessage | TeamEvent | Summary

  datatype ImportRecord = ImportRecord(
    sourceEntryId: Text,
    sourceTurnId: Text,
    sourceAuthorId: Text,
    kind: RecordKind,
    content: Text,
    sourceTimestamp: int,
    projectionPolicyId: Text)

  function KindText(kind: RecordKind): Text {
    match kind
    case UserMessage => Units("user-message")
    case AgentMessage => Units("agent-message")
    case TeamEvent => Units("team-event")
    case Summary => Units("summary")
  }

  lemma KindTextInjective(a: RecordKind, b: RecordKind)
    requires KindText(a) == KindText(b)
    ensures a == b
  {
    assert KindText(a)[0] == KindText(b)[0] && |KindText(a)| == |KindText(b)|;
  }

  function StringFields(r: ImportRecord): seq<Text> {
    [r.sourceEntryId, r.sourceTurnId, r.sourceAuthorId, KindText(r.kind), r.content]
  }

  // JSON.stringify of the seven fields, as the history paginator fingerprints a record.
  function Serialized(r: ImportRecord): Text {
    [OPEN_BRACKET] + QuotedList(StringFields(r)) + IntegerText(r.sourceTimestamp) + [COMMA]
    + Quoted(r.projectionPolicyId) + [CLOSE_BRACKET]
  }

  // The six fields that a checkpoint fingerprints: the policy is fingerprinted once, not per record.
  function SerializedShared(r: ImportRecord): Text {
    [OPEN_BRACKET] + QuotedList(StringFields(r)) + IntegerText(r.sourceTimestamp) + [CLOSE_BRACKET]
  }

  predicate SameShared(a: ImportRecord, b: ImportRecord) {
    a.(projectionPolicyId := b.projectionPolicyId) == b
  }

  lemma StringFieldsInjective(a: ImportRecord, b: ImportRecord)
    requires StringFields(a) == StringFields(b) && a.sourceTimestamp == b.sourceTimestamp
    ensures SameShared(a, b)
  {
    var x, y := StringFields(a), StringFields(b);
    assert x[0] == y[0] && x[1] == y[1] && x[2] == y[2] && x[3] == y[3] && x[4] == y[4];
    KindTextInjective(a.kind, b.kind);
  }

  lemma TimestampIsReadable(m: int, n: int, delimiter: CodeUnit, x: Text, y: Text)
    requires !InNumber(delimiter) && IntegerText(m) + [delimiter] + x == IntegerText(n) + [delimiter] + y
    ensures m == n && x == y
  {
    hide IntegerText;
    IntegerTextInNumber(m);
    IntegerTextInNumber(n);
    NumberUpToDelimiter(IntegerText(m), IntegerText(n), delimiter, x, y);
    IntegerTextInjective(m, n);
  }

  lemma SerializedInjective(a: ImportRecord, b: ImportRecord)
    requires Serialized(a) == Serialized(b)
    ensures a == b
  {
    hide QuotedList, Quoted, IntegerText, KindText;
    var x := Quoted(a.projectionPolicyId) + [CLOSE_BRACKET];
    var y := Quoted(b.projectionPolicyId) + [CLOSE_BRACKET];
    var restA := IntegerText(a.sourceTimestamp) + [COMMA] + x;
    var restB := IntegerText(b.sourceTimestamp) + [COMMA] + y;
    assert Serialized(a)[1..] == QuotedList(StringFields(a)) + restA;
    assert Serialized(b)[1..] == QuotedList(StringFields(b)) + restB;
    QuotedListIsReadable(StringFields(a), StringFields(b), restA, restB);
    TimestampIsReadable(a.sourceTimestamp, b.sourceTimestamp, COMMA, x, y);
    QuotedIsReadable(a.projectionPolicyId, b.projectionPolicyId, [CLOSE_BRACKET], [CLOSE_BRACKET]);
    StringFieldsInjective(a, b);
  }

  lemma SerializedSharedInjective(a: ImportRecord, b: ImportRecord)
    requires SerializedShared(a) == SerializedShared(b)
    ensures SameShared(a, b)
  {
    hide QuotedList, IntegerText, KindText;
    var restA := IntegerText(a.sourceTimestamp) + [CLOSE_BRACKET] + [];
    var restB := IntegerText(b.sourceTimestamp) + [CLOSE_BRACKET] + [];
    assert SerializedShared(a)[1..] == QuotedList(StringFields(a)) + restA;
    assert SerializedShared(b)[1..] == QuotedList(StringFields(b)) + restB;
    QuotedListIsReadable(StringFields(a), StringFields(b), restA, restB);
    TimestampIsReadable(a.sourceTimestamp, b.sourceTimestamp, CLOSE_BRACKET, [], []);
    StringFieldsInjective(a, b);
  }

  function SerializedAll(records: seq<ImportRecord>): seq<Text> {
    seq(|records|, i requires 0 <= i < |records| => Serialized(records[i]))
  }

  function SerializedSharedAll(records: seq<ImportRecord>): seq<Text> {
    seq(|records|, i requires 0 <= i < |records| => SerializedShared(records[i]))
  }

  function StableId(parts: seq<Text>): Text {
    Canonical(parts)
  }

  function Ids(records: seq<ImportRecord>): seq<Text> {
    seq(|records|, i requires 0 <= i < |records| => records[i].sourceEntryId)
  }

  predicate Unique(ids: seq<Text>) {
    forall i, j | 0 <= i < j < |ids| :: ids[i] != ids[j]
  }
}
