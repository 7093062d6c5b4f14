/**
 Reading a shared team conversation page by page (packages/agent-team/src/shared-history.ts).

 `PageOf` is the answer to one query; the method computes it with the loop of the source.
 */
module SharedHistory {
  import opened Results
  import opened Utf16
  import opened TeamRecords

  datatype Cursor = Cursor(snapshotId: Text, throughEntryId: Text, nextEntryId: Text, offset: int)

  datatype Query = Query(entryId: Option<Text>, cursor: Option<Cursor>, maxRecords: Option<int>, maxContentCharacters: Option<int>)

  // `record.content` is the part of the content that starts at `offset`.
  datatype Fragment = Fragment(record: ImportRecord, offset: nat, totalCharacters: nat)

  datatype Page = Page(snapshotId: Text, fragments: seq<Fragment>, nextCursor: Option<Cursor>)

  datatype HistoryError =
    | InvalidLimit
    | EntryAndCursor
    | DuplicateIdentities
    | CursorExpired
    | HistoryChanged
    | EntryUnavailable
    | InvalidOffset

  function Limit(value: Option<int>, fallback: int, minimum: int, maximum: int): (limit: Option<nat>)
    requires 0 <= minimum <= fallback <= maximum
    ensures limit.None? <==> value.Some? && !(minimum <= value.value <= maximum)
    ensures limit.Some? ==> minimum <= limit.value <= maximum && (value.Some? ==> limit.value == value.value)
    ensures value.None? ==> limit == Some(fallback)
  {
    match value
    case None => Some(fallback)
    case Some(limit) => if minimum <= limit <= maximum then Some(limit) else None
  }

  // Out of range, `charCodeAt` is NaN and nothing is split.
  predicate SplitsSurrogate(text: Text, offset: int) {
    0 < offset < |text| && IsHighSurrogate(text[offset - 1]) && IsLowSurrogate(text[offset])
  }

  function IndexOf(records: seq<ImportRecord>, id: Text): int {
    if records == [] then -1
    else if records[0].sourceEntryId == id then 0
    else
      var rest := IndexOf(records[1..], id);
      if rest < 0 then -1 else rest + 1
  }

  function SnapshotId(scope: seq<Text>, records: seq<ImportRecord>): Text {
    StableId([Units("shared-history-v1")] + scope + SerializedAll(records))
  }

  // Where the fragment that starts at `offset` ends.
  function FragmentEnd(content: Text, offset: nat, remaining: nat): int {
    var end := if |content| < offset + remaining then |content| else offset + remaining;
    if SplitsSurrogate(content, end) then end - 1 else end
  }

  function FragmentOf(record: ImportRecord, offset: nat, end: nat): Fragment
    requires offset <= end <= |record.content|
  {
    Fragment(record.(content := record.content[offset..end]), offset, |record.content|)
  }

  datatype Filling = Filling(fragments: seq<Fragment>, index: nat, offset: nat)

  function Prepend(fragments: seq<Fragment>, rest: Result<Filling, HistoryError>): Result<Filling, HistoryError> {
    match rest
    case Ok(filling) => Ok(filling.(fragments := fragments + filling.fragments))
    case Err(error) => Err(error)
  }

  predicate ValidOffset(content: Text, offset: nat) {
    offset <= |content| && !SplitsSurrogate(content, offset)
  }

  // Fills a page from `offset` in record `index` on.
  function Fill(records: seq<ImportRecord>, index: nat, offset: nat, remaining: nat, slots: nat): Result<Filling, HistoryError>
    requires remaining > 0
    decreases |records| - index
  {
    if index >= |records| || slots == 0 then Ok(Filling([], index, offset))
    else if !ValidOffset(records[index].content, offset) then Err(InvalidOffset)
    else
      var content := records[index].content;
      var end := FragmentEnd(content, offset, remaining);
      if end == offset && offset < |content| then Ok(Filling([], index, offset))
      else
        var fragment := FragmentOf(records[index], offset, end);
        var left := remaining - (end - offset);
        if end < |content| then Ok(Filling([fragment], index, end))
        else if left == 0 then Ok(Filling([fragment], index + 1, 0))
        else Prepend([fragment], Fill(records, index + 1, 0, left, slots - 1))
  }

  function Finished(snapshotId: Text, records: seq<ImportRecord>, filling: Filling): Page {
    Page(snapshotId, filling.fragments,
         if filling.index < |records|
         then Some(Cursor(snapshotId, records[|records| - 1].sourceEntryId, records[filling.index].sourceEntryId, filling.offset))
         else None)
  }

  function PageOf(scope: seq<Text>, all: seq<ImportRecord>, query: Query): Result<Page, HistoryError> {
    var maxRecords := Limit(query.maxRecords, 20, 1, 50);
    var maxCharacters := Limit(query.maxContentCharacters, 12_000, 2, 32_000);
    if maxRecords.None? || maxCharacters.None? then Err(InvalidLimit)
    else if query.entryId.Some? && query.cursor.Some? then Err(EntryAndCursor)
    else if !Unique(Ids(all)) then Err(DuplicateIdentities)
    else
      var through := if query.cursor.Some? then IndexOf(all, query.cursor.value.throughEntryId) else |all| - 1;
      if query.cursor.Some? && through < 0 then Err(CursorExpired)
      else PageWithin(scope, if through < |all| then all[..through + 1] else all, query, maxRecords.value, maxCharacters.value)
  }

  // The page over the records that the query may see.
  function PageWithin(scope: seq<Text>, records: seq<ImportRecord>, query: Query, maxRecords: nat, maxCharacters: nat)
    : Result<Page, HistoryError>
    requires maxCharacters > 0
  {
    var snapshotId := SnapshotId(scope, records);
    var startId := if query.cursor.Some? then Some(query.cursor.value.nextEntryId) else query.entryId;
    var index := if startId.Some? then IndexOf(records, startId.value) else 0;
    var offset := if query.cursor.Some? then query.cursor.value.offset else 0;
    if query.cursor.Some? && query.cursor.value.snapshotId != snapshotId then Err(HistoryChanged)
    else if index < 0 then Err(EntryUnavailable)
    else if offset < 0 then Err(InvalidOffset)
    else match Fill(records, index, offset, maxCharacters, maxRecords)
      case Ok(filling) => Ok(Finished(snapshotId, records, filling))
      case Err(error) => Err(error)
  }

  lemma PrependTwice(before: seq<Fragment>, fragment: Fragment, rest: Result<Filling, HistoryError>)
    ensures Prepend(before, Prepend([fragment], rest)) == Prepend(before + [fragment], rest)
  {
    if rest.Ok? {
      assert before + ([fragment] + rest.value.fragments) == before + [fragment] + rest.value.fragments;
    }
  }

  method FillPage(records: seq<ImportRecord>, start: nat, startOffset: nat, maxCharacters: nat, maxRecords: nat)
    returns (result: Result<Filling, HistoryError>)
    requires maxCharacters > 0
    ensures result == Fill(records, start, startOffset, maxCharacters, maxRecords)
  {
    var index: nat, offset: nat, remaining: nat := start, startOffset, maxCharacters;
    var page: seq<Fragment> := [];
    ghost var filled := Fill(records, index, offset, remaining, maxRecords);
    assert filled.Ok? ==> page + filled.value.fragments == filled.value.fragments;
    while index < |records| && |page| < maxRecords
      invariant 0 < remaining && |page| <= maxRecords
      invariant filled == Prepend(page, Fill(records, index, offset, remaining, maxRecords - |page|))
      decreases |records| - index
    {
      var record := records[index];
      if offset > |record.content| || SplitsSurrogate(record.content, offset) {
        return Err(InvalidOffset);
      }
      var end := if |record.content| < offset + remaining then |record.content| else offset + remaining;
      if SplitsSurrogate(record.content, end) {
        end := end - 1;
      }
      if end == offset && offset < |record.content| {
        assert page + [] == page;
        return Ok(Filling(page, index, offset));
      }
      ghost var before := page;
      var fragment := FragmentOf(record, offset, end);
      page := page + [fragment];
      remaining := remaining - (end - offset);
      if end < |record.content| {
        return Ok(Filling(page, index, end));
      }
      index := index + 1;
      offset := 0;
      if remaining == 0 {
        return Ok(Filling(page, index, offset));
      }
      PrependTwice(before, fragment, Fill(records, index, 0, remaining, maxRecords - |page|));
    }
    assert page + [] == page;
    result := Ok(Filling(page, index, offset));
  }

  method PageTeamSharedHistory(scope: seq<Text>, all: seq<ImportRecord>, query: Query) returns (result: Result<Page, HistoryError>)
    ensures result == PageOf(scope, all, query)
  {
    var maxRecords := Limit(query.maxRecords, 20, 1, 50);
    var maxCharacters := Limit(query.maxContentCharacters, 12_000, 2, 32_000);
    if maxRecords.None? || maxCharacters.None? {
      return Err(InvalidLimit);
    }
    if query.entryId.Some? && query.cursor.Some? {
      return Err(EntryAndCursor);
    }
    if !Unique(Ids(all)) {
      return Err(DuplicateIdentities);
    }
    var throughIndex := if query.cursor.Some? then IndexOf(all, query.cursor.value.throughEntryId) else |all| - 1;
    if query.cursor.Some? && throughIndex < 0 {
      return Err(CursorExpired);
    }
    IndexInRange(all, if query.cursor.Some? then query.cursor.value.throughEntryId else []);
    var records := all[..throughIndex + 1];
    var snapshotId := SnapshotId(scope, records);
    if query.cursor.Some? && query.cursor.value.snapshotId != snapshotId {
      return Err(HistoryChanged);
    }
    var startId := if query.cursor.Some? then Some(query.cursor.value.nextEntryId) else query.entryId;
    var index := if startId.Some? then IndexOf(records, startId.value) else 0;
    if index < 0 {
      return Err(EntryUnavailable);
    }
    var offset := if query.cursor.Some? then query.cursor.value.offset else 0;
    if offset < 0 {
      return Err(InvalidOffset);
    }
    var filled := FillPage(records, index, offset, maxCharacters.value, maxRecords.value);
    match filled {
      case Ok(filling) => result := Ok(Finished(snapshotId, records, filling));
      case Err(error) => result := Err(error);
    }
  }

  lemma {:induction false} IndexInRange(records: seq<ImportRecord>, id: Text)
    ensures -1 <= IndexOf(records, id) < |records|
    ensures IndexOf(records, id) >= 0 ==> records[IndexOf(records, id)].sourceEntryId == id
    ensures IndexOf(records, id) < 0 ==> forall r | r in records :: r.sourceEntryId != id
  {
    if records != [] && records[0].sourceEntryId != id {
      IndexInRange(records[1..], id);
    }
  }
}
