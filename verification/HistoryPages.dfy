/**
 Single pages of a shared history: which queries are refused, and why, and how full a page is
 (packages/agent-team/src/shared-history.ts).
 */
module HistoryPages {
  import opened Results
  import opened Utf16
  import opened TeamRecords
  import opened SharedHistory
  import opened HistoryReading

  predicate Within(value: Option<int>, low: int, high: int) {
    value.Some? ==> low <= value.value <= high
  }

  predicate HasEntry(records: seq<ImportRecord>, id: Text) {
    exists k | 0 <= k < |records| :: records[k].sourceEntryId == id
  }

  // The records up to the entry that the cursor reads through, or all of them.
  ghost predicate IsVisible(all: seq<ImportRecord>, query: Query, visible: seq<ImportRecord>) {
    match query.cursor
    case None => visible == all
    case Some(cursor) => visible <= all && visible != [] && visible[|visible| - 1].sourceEntryId == cursor.throughEntryId
  }

  // A place in a text at which a fragment may begin.
  predicate IsOffset(content: Text, offset: int) {
    && 0 <= offset <= |content|
    && !(0 < offset < |content| && IsHighSurrogate(content[offset - 1]) && IsLowSurrogate(content[offset]))
  }

  lemma FoundExactly(records: seq<ImportRecord>, id: Text)
    ensures IndexOf(records, id) >= 0 <==> HasEntry(records, id)
  {
    IndexInRange(records, id);
    if k :| 0 <= k < |records| && records[k].sourceEntryId == id {
      assert records[k] in records;
    }
  }

  lemma VisibleFound(all: seq<ImportRecord>, query: Query, visible: seq<ImportRecord>)
    requires Unique(Ids(all)) && IsVisible(all, query, visible) && query.cursor.Some?
    ensures IndexOf(all, query.cursor.value.throughEntryId) == |visible| - 1
    ensures all[..|visible|] == visible
  {
    assert all[|visible| - 1] == visible[|visible| - 1];
    IndexOfUnique(all, |visible| - 1);
  }

  lemma IsPageWithin(scope: seq<Text>, all: seq<ImportRecord>, query: Query, visible: seq<ImportRecord>)
    requires Within(query.maxRecords, 1, 50) && Within(query.maxContentCharacters, 2, 32_000)
    requires (query.entryId.None? || query.cursor.None?) && Unique(Ids(all)) && IsVisible(all, query, visible)
    ensures PageOf(scope, all, query) ==
            PageWithin(scope, visible, query, if query.maxRecords.Some? then query.maxRecords.value else 20,
                       if query.maxContentCharacters.Some? then query.maxContentCharacters.value else 12_000)
  {
    hide PageWithin, Unique, Ids, IndexOf;
    if query.cursor.Some? {
      VisibleFound(all, query, visible);
    } else {
      assert all[..|all|] == all;
    }
  }

  // Every query that is refused is refused for its reason, the first of these that applies.
  lemma RefusedForItsReason(scope: seq<Text>, all: seq<ImportRecord>, query: Query)
    ensures
      var result := PageOf(scope, all, query);
      var legal := Within(query.maxRecords, 1, 50) && Within(query.maxContentCharacters, 2, 32_000);
      if !legal then result == Err(InvalidLimit)
      else if query.entryId.Some? && query.cursor.Some? then result == Err(EntryAndCursor)
      else if !Unique(Ids(all)) then result == Err(DuplicateIdentities)
      else query.cursor.Some? && !HasEntry(all, query.cursor.value.throughEntryId) ==> result == Err(CursorExpired)
  {
    hide PageWithin, Unique, Ids;
    if query.cursor.Some? {
      FoundExactly(all, query.cursor.value.throughEntryId);
    }
  }

  // The entry to start with, if one is named.
  function StartEntry(query: Query): Option<Text> {
    if query.cursor.Some? then Some(query.cursor.value.nextEntryId) else query.entryId
  }

  // The same for the records that the query sees: they must be the ones that the cursor was made for, hold
  // the entry to start with, and allow a fragment to begin at the offset. Nothing else is refused.
  lemma SeenRefusedForItsReason(scope: seq<Text>, all: seq<ImportRecord>, query: Query, visible: seq<ImportRecord>, k: nat)
    requires Within(query.maxRecords, 1, 50) && Within(query.maxContentCharacters, 2, 32_000)
    requires (query.entryId.None? || query.cursor.None?) && Unique(Ids(all)) && IsVisible(all, query, visible)
    ensures
      var result, entry := PageOf(scope, all, query), StartEntry(query);
      if query.cursor.Some? && query.cursor.value.snapshotId != SnapshotId(scope, visible) then result == Err(HistoryChanged)
      else if entry.Some? && !HasEntry(visible, entry.value) then result == Err(EntryUnavailable)
      else if query.cursor.None? then result.Ok?
      else k < |visible| && visible[k].sourceEntryId == query.cursor.value.nextEntryId ==>
             if IsOffset(visible[k].content, query.cursor.value.offset) then result.Ok? else result == Err(InvalidOffset)
  {
    hide Unique, Ids, SnapshotId, Fill, IndexOf, FragmentEnd, FragmentOf;
    IsPageWithin(scope, all, query, visible);
    hide PageOf;
    var entry := StartEntry(query);
    UniqueVisible(all, query, visible);
    if entry.Some? {
      FoundExactly(visible, entry.value);
      IndexInRange(visible, entry.value);
      if k < |visible| && visible[k].sourceEntryId == entry.value {
        IndexOfUnique(visible, k);
      }
    }
    var start := if entry.Some? then IndexOf(visible, entry.value) else 0;
    var offset := if query.cursor.Some? then query.cursor.value.offset else 0;
    var slots := if query.maxRecords.Some? then query.maxRecords.value else 20;
    var characters := if query.maxContentCharacters.Some? then query.maxContentCharacters.value else 12_000;
    if start >= 0 && offset >= 0 {
      FillFailsExactly(visible, start, offset, characters, slots);
    }
  }

  lemma UniqueVisible(all: seq<ImportRecord>, query: Query, visible: seq<ImportRecord>)
    requires Unique(Ids(all)) && IsVisible(all, query, visible)
    ensures Unique(Ids(visible))
  {
    UniquePrefix(visible, all);
  }

  lemma {:induction false} FillFailsExactly(records: seq<ImportRecord>, index: nat, offset: nat, remaining: nat, slots: nat)
    requires remaining > 0
    ensures
      var filled := Fill(records, index, offset, remaining, slots);
      && (filled.Err? <==> index < |records| && slots > 0 && !IsOffset(records[index].content, offset))
      && (filled.Err? ==> filled.error == InvalidOffset)
    decreases |records| - index
  {
    hide FragmentOf;
    if index < |records| && slots > 0 && ValidOffset(records[index].content, offset) {
      var content := records[index].content;
      var end := FragmentEnd(content, offset, remaining);
      EndIsSafe(content, offset, remaining);
      if end == |content| && remaining > end - offset {
        FillFailsExactly(records, index + 1, 0, remaining - (end - offset), slots - 1);
      }
    }
  }

  // A page breaks off only when no record is left, all its places are taken, or no character more fits:
  // the last free one is left only in front of a surrogate pair.
  lemma {:induction false} PageIsFull(records: seq<ImportRecord>, index: nat, offset: nat, remaining: nat, slots: nat)
    requires remaining > 0 && index <= |records| && Fill(records, index, offset, remaining, slots).Ok?
    ensures
      var filling := Fill(records, index, offset, remaining, slots).value;
      filling.index <= |records| && |filling.fragments| <= slots
    ensures
      var filling := Fill(records, index, offset, remaining, slots).value;
      var used := Characters(filling.fragments);
      || filling.index == |records| || |filling.fragments| == slots || used == remaining
      || (used == remaining - 1 && SplitsSurrogate(records[filling.index].content, filling.offset + 1))
    decreases |records| - index
  {
    hide FragmentOf;
    if index < |records| && slots > 0 {
      var content := records[index].content;
      var end := FragmentEnd(content, offset, remaining);
      EndIsSafe(content, offset, remaining);
      var fragment := FragmentOf(records[index], offset, end);
      FragmentIsThere(records[index], offset, end);
      OneFragment(fragment);
      if end == |content| && remaining > end - offset {
        PageIsFull(records, index + 1, 0, remaining - (end - offset), slots - 1);
        OneMoreFragment(fragment, Fill(records, index + 1, 0, remaining - (end - offset), slots - 1).value.fragments);
      }
    }
  }

  lemma FragmentIsThere(record: ImportRecord, offset: nat, end: nat)
    requires offset <= end <= |record.content|
    ensures |FragmentOf(record, offset, end).record.content| == end - offset
  {
  }
}
