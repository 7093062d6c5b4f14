/**
 Reading the whole shared history by following `nextCursor`, while the history may grow between
 two pages and every call may choose other limits (packages/agent-team/src/shared-history.ts).
 */
module HistoryReading {
  import opened Results
  import opened Utf16
  import opened CanonicalEncoding
  import opened TeamRecords
  import opened SharedHistory

  // Positions that a read can be at: between two records, or inside one but not inside a character.
  predicate Position(records: seq<ImportRecord>, index: nat, offset: nat) {
    && index <= |records|
    && (offset > 0 ==> index < |records| && offset < |records[index].content| && !SplitsSurrogate(records[index].content, offset))
  }

  // How much is left to read; an empty record still counts for one.
  function Left(records: seq<ImportRecord>, index: nat, offset: nat): int
    decreases |records| - index
  {
    if index >= |records| then 0 else |records[index].content| + 1 - offset + Left(records, index + 1, 0)
  }

  function Characters(fragments: seq<Fragment>): nat {
    if fragments == [] then 0 else |fragments[0].record.content| + Characters(fragments[1..])
  }

  // A piece of one of the records that begins and ends on a whole character.
  predicate Whole(records: seq<ImportRecord>, fragment: Fragment) {
    exists k | 0 <= k < |records| ::
      && fragment.record == records[k].(content := fragment.record.content)
      && fragment.totalCharacters == |records[k].content|
      && IsPart(records[k].content, fragment.offset, fragment.record.content)
  }

  predicate IsPart(content: Text, offset: nat, part: Text) {
    && offset + |part| <= |content|
    && part == content[offset..offset + |part|]
    && !SplitsSurrogate(content, offset)
    && !SplitsSurrogate(content, offset + |part|)
  }

  // What a reader has after a number of fragments: a fragment at offset 0 begins a record, any other
  // fragment continues the last one.
  function Assemble(fragments: seq<Fragment>): seq<ImportRecord> {
    if fragments == [] then []
    else Glue(Assemble(fragments[..|fragments| - 1]), fragments[|fragments| - 1])
  }

  function Glue(records: seq<ImportRecord>, fragment: Fragment): seq<ImportRecord> {
    if fragment.offset == 0 || records == [] then records + [fragment.record]
    else
      var last := records[|records| - 1];
      records[..|records| - 1] + [last.(content := last.content + fragment.record.content)]
  }

  // The history between `start` and a position.
  function Passed(records: seq<ImportRecord>, start: nat, index: nat, offset: nat): seq<ImportRecord>
    requires start <= index && Position(records, index, offset)
  {
    records[start..index]
    + if offset == 0 then [] else [records[index].(content := records[index].content[..offset])]
  }

  lemma AssembleOneMore(fragments: seq<Fragment>, fragment: Fragment)
    ensures Assemble(fragments + [fragment]) == Glue(Assemble(fragments), fragment)
  {
    assert (fragments + [fragment])[..|fragments|] == fragments;
  }

  // Taking one more fragment moves what has been assembled to the fragment's end.
  lemma GlueAdvances(records: seq<ImportRecord>, start: nat, index: nat, offset: nat, end: nat)
    requires start <= index < |records| && Position(records, index, offset)
    requires offset <= end <= |records[index].content| && !SplitsSurrogate(records[index].content, end)
    requires end == offset ==> records[index].content == []
    ensures Glue(Passed(records, start, index, offset), FragmentOf(records[index], offset, end))
         == if end < |records[index].content| then Passed(records, start, index, end) else Passed(records, start, index + 1, 0)
  {
    var record := records[index];
    var passed := Passed(records, start, index, offset);
    assert records[start..index + 1] == records[start..index] + [record];
    if offset == 0 {
      assert passed == records[start..index];
    } else {
      assert passed[..|passed| - 1] == records[start..index];
      assert record.content[..offset] + record.content[offset..end] == record.content[..end];
    }
    if end == |record.content| {
      assert record.content[..end] == record.content;
      assert record.(content := record.content[..end]) == record;
    }
  }

  // A page is within its limits, made of whole characters, continues what was read before and,
  // unless the history has ended, is not empty.
  lemma {:induction false} FillAdvances(
      records: seq<ImportRecord>, start: nat, before: seq<Fragment>, index: nat, offset: nat, remaining: nat, slots: nat)
    requires start <= index && Position(records, index, offset) && remaining > 0
    requires Assemble(before) == Passed(records, start, index, offset)
    ensures Fill(records, index, offset, remaining, slots).Ok?
    ensures
      var filling := Fill(records, index, offset, remaining, slots).value;
      && |filling.fragments| <= slots && Characters(filling.fragments) <= remaining
      && start <= filling.index && Position(records, filling.index, filling.offset)
      && (forall f | f in filling.fragments :: Whole(records, f))
      && Assemble(before + filling.fragments) == Passed(records, start, filling.index, filling.offset)
      && (if index < |records| && remaining >= 2 && slots >= 1
          then filling.fragments != [] && Left(records, filling.index, filling.offset) < Left(records, index, offset)
          else Left(records, filling.index, filling.offset) <= Left(records, index, offset))
    decreases |records| - index
  {
    hide Assemble, Glue, Passed, Whole, SplitsSurrogate, FragmentEnd, ValidOffset;
    if index < |records| && slots > 0 {
      var content := records[index].content;
      OffsetIsValid(records, index, offset);
      var end := FragmentEnd(content, offset, remaining);
      EndIsSafe(content, offset, remaining);
      if end == offset && offset < |content| {
        assert before + [] == before;
      } else {
        var fragment := FragmentOf(records[index], offset, end);
        FragmentIsWhole(records, index, offset, end);
        GlueAdvances(records, start, index, offset, end);
        AssembleOneMore(before, fragment);
        OneFragment(fragment);
        if end == |content| && remaining > end - offset {
          ZeroIsSafe(records, index + 1);
          FillAdvances(records, start, before + [fragment], index + 1, 0, remaining - (end - offset), slots - 1);
          var rest := Fill(records, index + 1, 0, remaining - (end - offset), slots - 1).value;
          assert before + [fragment] + rest.fragments == before + ([fragment] + rest.fragments);
          OneMoreFragment(fragment, rest.fragments);
        }
      }
    } else {
      assert before + [] == before;
    }
  }

  lemma OneFragment(fragment: Fragment)
    ensures Characters([fragment]) == |fragment.record.content|
  {
    assert Characters([fragment][1..]) == 0;
  }

  lemma OneMoreFragment(fragment: Fragment, rest: seq<Fragment>)
    ensures Characters([fragment] + rest) == |fragment.record.content| + Characters(rest)
  {
    assert ([fragment] + rest)[1..] == rest;
  }

  lemma OffsetIsValid(records: seq<ImportRecord>, index: nat, offset: nat)
    requires Position(records, index, offset) && index < |records|
    ensures ValidOffset(records[index].content, offset)
  {
  }

  lemma ZeroIsSafe(records: seq<ImportRecord>, index: nat)
    requires index <= |records|
    ensures Position(records, index, 0)
  {
  }

  // The end of a fragment never lies inside a surrogate pair, and two characters always make progress.
  lemma EndIsSafe(content: Text, offset: nat, remaining: nat)
    requires ValidOffset(content, offset) && remaining > 0
    ensures offset <= FragmentEnd(content, offset, remaining) <= |content|
    ensures FragmentEnd(content, offset, remaining) - offset <= remaining
    ensures !SplitsSurrogate(content, FragmentEnd(content, offset, remaining))
    ensures remaining >= 2 && offset < |content| ==> FragmentEnd(content, offset, remaining) > offset
  {
  }

  lemma FragmentIsWhole(records: seq<ImportRecord>, index: nat, offset: nat, end: nat)
    requires index < |records| && offset <= end <= |records[index].content|
    requires !SplitsSurrogate(records[index].content, offset) && !SplitsSurrogate(records[index].content, end)
    ensures Whole(records, FragmentOf(records[index], offset, end))
  {
    var fragment := FragmentOf(records[index], offset, end);
    assert fragment.record == records[index].(content := fragment.record.content);
    assert IsPart(records[index].content, offset, fragment.record.content);
  }

  // Pages

  datatype Limits = Limits(maxRecords: Option<int>, maxContentCharacters: Option<int>)

  function MaxRecords(limits: Limits): Option<nat> {
    Limit(limits.maxRecords, 20, 1, 50)
  }

  function MaxCharacters(limits: Limits): Option<nat> {
    Limit(limits.maxContentCharacters, 12_000, 2, 32_000)
  }

  predicate Legal(limits: Limits) {
    MaxRecords(limits).Some? && MaxCharacters(limits).Some?
  }

  predicate WithinLimits(page: Page, limits: Limits) {
    && Legal(limits)
    && |page.fragments| <= MaxRecords(limits).value
    && Characters(page.fragments) <= MaxCharacters(limits).value
  }

  predicate StartsAt(records: seq<ImportRecord>, cursor: Cursor, index: nat) {
    && index < |records|
    && records[index].sourceEntryId == cursor.nextEntryId
    && cursor.offset >= 0
    && Position(records, index, cursor.offset)
  }

  // A cursor handed out for the history `base`.
  ghost predicate Issued(scope: seq<Text>, base: seq<ImportRecord>, cursor: Cursor) {
    && base != []
    && cursor.snapshotId == SnapshotId(scope, base)
    && cursor.throughEntryId == base[|base| - 1].sourceEntryId
    && exists index: nat :: StartsAt(base, cursor, index)
  }

  function Continue(cursor: Cursor, limits: Limits): Query {
    Query(None, Some(cursor), limits.maxRecords, limits.maxContentCharacters)
  }

  function Start(entryId: Option<Text>, limits: Limits): Query {
    Query(entryId, None, limits.maxRecords, limits.maxContentCharacters)
  }

  lemma {:induction false} IndexOfUnique(records: seq<ImportRecord>, index: nat)
    requires index < |records| && Unique(Ids(records))
    ensures IndexOf(records, records[index].sourceEntryId) == index
  {
    var ids := Ids(records);
    var found := IndexOf(records, records[index].sourceEntryId);
    IndexInRange(records, records[index].sourceEntryId);
    assert records[index] in records;
    assert ids[found] == records[found].sourceEntryId && ids[index] == records[index].sourceEntryId;
  }

  lemma UniquePrefix(records: seq<ImportRecord>, more: seq<ImportRecord>)
    requires records <= more && Unique(Ids(more))
    ensures Unique(Ids(records))
  {
    forall i, j | 0 <= i < j < |records|
      ensures Ids(records)[i] != Ids(records)[j]
    {
      assert Ids(more)[i] != Ids(more)[j];
    }
  }

  // Where `PageOf` continues and in which part of the history.
  lemma ContinuesIn(scope: seq<Text>, base: seq<ImportRecord>, all: seq<ImportRecord>, cursor: Cursor, limits: Limits)
    requires base != [] && base <= all && Unique(Ids(all)) && Legal(limits)
    requires cursor.throughEntryId == base[|base| - 1].sourceEntryId
    ensures PageOf(scope, all, Continue(cursor, limits))
         == PageWithin(scope, base, Continue(cursor, limits), MaxRecords(limits).value, MaxCharacters(limits).value)
  {
    assert all[|base| - 1] == base[|base| - 1];
    IndexOfUnique(all, |base| - 1);
    assert all[..|base|] == base;
  }

  // Append stability: a page read through a cursor does not depend on what was appended since.
  lemma AppendStable(scope: seq<Text>, records: seq<ImportRecord>, extra: seq<ImportRecord>, cursor: Cursor, limits: Limits)
    requires Unique(Ids(records + extra)) && IndexOf(records, cursor.throughEntryId) >= 0
    ensures PageOf(scope, records + extra, Continue(cursor, limits)) == PageOf(scope, records, Continue(cursor, limits))
  {
    UniquePrefix(records, records + extra);
    if Legal(limits) {
      IndexInRange(records, cursor.throughEntryId);
      var base := records[..IndexOf(records, cursor.throughEntryId) + 1];
      assert base <= records + extra;
      ContinuesIn(scope, base, records + extra, cursor, limits);
      ContinuesIn(scope, base, records, cursor, limits);
    }
  }

  // The page read from a position, and the cursor it hands out.
  lemma PageAdvances(
      scope: seq<Text>, base: seq<ImportRecord>, query: Query, limits: Limits, start: nat, before: seq<Fragment>, index: nat, offset: nat)
    requires Unique(Ids(base)) && Legal(limits)
    requires start <= index && Position(base, index, offset) && Assemble(before) == Passed(base, start, index, offset)
    requires query.cursor.Some? ==>
      && query.cursor.value.snapshotId == SnapshotId(scope, base)
      && StartsAt(base, query.cursor.value, index) && query.cursor.value.offset == offset
    requires query.cursor.None? ==> offset == 0 && index == if query.entryId.Some? then IndexOf(base, query.entryId.value) else 0
    ensures
      var result := PageWithin(scope, base, query, MaxRecords(limits).value, MaxCharacters(limits).value);
      result.Ok? && var page := result.value;
      && WithinLimits(page, limits)
      && (forall f | f in page.fragments :: Whole(base, f))
      && (page.nextCursor.None? ==> Assemble(before + page.fragments) == base[start..])
      && (page.nextCursor.Some? ==>
            && page.fragments != []
            && Issued(scope, base, page.nextCursor.value)
            && exists next: nat ::
                && start <= next && StartsAt(base, page.nextCursor.value, next)
                && Assemble(before + page.fragments) == Passed(base, start, next, page.nextCursor.value.offset)
                && Left(base, next, page.nextCursor.value.offset) < Left(base, index, offset))
  {
    hide Assemble, Passed, Whole, Characters, Left, SnapshotId, Fill;
    if query.cursor.Some? {
      IndexOfUnique(base, index);
    }
    var slots, characters := MaxRecords(limits).value, MaxCharacters(limits).value;
    FillAdvances(base, start, before, index, offset, characters, slots);
    var filling := Fill(base, index, offset, characters, slots).value;
    var page := Finished(SnapshotId(scope, base), base, filling);
    if filling.index < |base| {
      assert StartsAt(base, page.nextCursor.value, filling.index);
      NothingLeft(base, index, offset);
      NothingLeft(base, filling.index, filling.offset);
    } else {
      PassedAll(base, start, filling.index, filling.offset);
    }
  }

  lemma {:induction false} NothingLeft(records: seq<ImportRecord>, index: nat, offset: nat)
    requires Position(records, index, offset)
    ensures Left(records, index, offset) >= 0
    ensures index == |records| ==> Left(records, index, offset) == 0
    ensures index < |records| ==> Left(records, index, offset) > 0
    decreases |records| - index
  {
    if index < |records| {
      NothingLeft(records, index + 1, 0);
    }
  }

  lemma PassedAll(records: seq<ImportRecord>, start: nat, index: nat, offset: nat)
    requires start <= index && Position(records, index, offset) && index == |records|
    ensures Passed(records, start, index, offset) == records[start..]
  {
  }

  // Whole reads

  // Follows `nextCursor`, at most `more` times; call number `turn` sees the history `sources(turn)`.
  function Read(scope: seq<Text>, sources: nat -> seq<ImportRecord>, limits: nat -> Limits, turn: nat, query: Query, more: nat)
    : Result<seq<Page>, HistoryError>
    decreases more
  {
    match PageOf(scope, sources(turn), query)
    case Err(error) => Err(error)
    case Ok(page) =>
      if page.nextCursor.None? || more == 0 then Ok([page])
      else match Read(scope, sources, limits, turn + 1, Continue(page.nextCursor.value, limits(turn + 1)), more - 1)
        case Ok(pages) => Ok([page] + pages)
        case Err(error) => Err(error)
  }

  function Fragments(pages: seq<Page>): seq<Fragment> {
    if pages == [] then [] else pages[0].fragments + Fragments(pages[1..])
  }

  // The history never loses what the read began with, and every call names legal limits.
  ghost predicate Growing(sources: nat -> seq<ImportRecord>, limits: nat -> Limits) {
    forall n: nat :: sources(0) <= sources(n) && Unique(Ids(sources(n))) && Legal(limits(n))
  }

  ghost predicate SoundPages(base: seq<ImportRecord>, limits: nat -> Limits, turn: nat, pages: seq<Page>) {
    forall n | 0 <= n < |pages| ::
      && WithinLimits(pages[n], limits(turn + n))
      && (forall f | f in pages[n].fragments :: Whole(base, f))
      && (pages[n].nextCursor.Some? <==> n < |pages| - 1)
      && (pages[n].nextCursor.Some? ==> pages[n].fragments != [])
  }

  // Read from any entry, with limits chosen anew on each call and a history that grows meanwhile: no
  // call fails, the read ends after at most as many pages as there are characters and records, and
  // the fragments assemble to the history that the first call saw, from the start entry on.
  lemma EveryReadIsComplete(
      scope: seq<Text>, sources: nat -> seq<ImportRecord>, limits: nat -> Limits, entryId: Option<Text>, more: nat)
    requires Growing(sources, limits)
    requires entryId.Some? ==> IndexOf(sources(0), entryId.value) >= 0
    requires more >= Left(sources(0), 0, 0)
    ensures
      var base := sources(0);
      var start := if entryId.Some? then IndexOf(base, entryId.value) else 0;
      var read := Read(scope, sources, limits, 0, Start(entryId, limits(0)), more);
      && read.Ok?
      && SoundPages(base, limits, 0, read.value)
      && 0 < |read.value| <= Left(base, start, 0) + 1
      && start <= |base| && Assemble(Fragments(read.value)) == base[start..]
  {
    hide Assemble, Passed, Whole, Characters, PageOf, Left, IndexOf;
    var base := sources(0);
    var query := Start(entryId, limits(0));
    IndexInRange(base, if entryId.Some? then entryId.value else []);
    var start := if entryId.Some? then IndexOf(base, entryId.value) else 0;
    StartsInBase(scope, base, entryId, limits(0));
    NothingPassed(base, start);
    LeftShrinks(base, start);
    ReadsOn(scope, sources, limits, 0, query, start, [], start, 0, more);
    var pages := Read(scope, sources, limits, 0, query, more).value;
    assert [] + Fragments(pages) == Fragments(pages);
  }

  lemma StartsInBase(scope: seq<Text>, base: seq<ImportRecord>, entryId: Option<Text>, limits: Limits)
    requires Unique(Ids(base)) && Legal(limits)
    ensures PageOf(scope, base, Start(entryId, limits))
         == PageWithin(scope, base, Start(entryId, limits), MaxRecords(limits).value, MaxCharacters(limits).value)
  {
    assert base[..|base|] == base;
  }

  lemma NothingPassed(records: seq<ImportRecord>, start: nat)
    requires start <= |records|
    ensures Position(records, start, 0) && Assemble([]) == Passed(records, start, start, 0)
  {
  }

  lemma {:induction false} LeftShrinks(records: seq<ImportRecord>, start: nat)
    requires start <= |records|
    ensures 0 <= Left(records, start, 0) <= Left(records, 0, 0)
  {
    NothingLeft(records, start, 0);
    if start > 0 {
      LeftShrinks(records, start - 1);
    }
  }

  // The query of call number `turn`, for the position that the read has reached.
  ghost predicate Asks(scope: seq<Text>, base: seq<ImportRecord>, limits: nat -> Limits, turn: nat, query: Query, index: nat, offset: nat) {
    match query.cursor
    case Some(cursor) =>
      query == Continue(cursor, limits(turn)) && Issued(scope, base, cursor) && StartsAt(base, cursor, index) && cursor.offset == offset
    case None =>
      && turn == 0 && query == Start(query.entryId, limits(0)) && offset == 0
      && index == if query.entryId.Some? then IndexOf(base, query.entryId.value) else 0
  }

  lemma PageOfTurn(
      scope: seq<Text>, sources: nat -> seq<ImportRecord>, limits: nat -> Limits, turn: nat, query: Query, index: nat, offset: nat)
    requires Growing(sources, limits) && Asks(scope, sources(0), limits, turn, query, index, offset)
    ensures PageOf(scope, sources(turn), query)
         == PageWithin(scope, sources(0), query, MaxRecords(limits(turn)).value, MaxCharacters(limits(turn)).value)
    ensures Unique(Ids(sources(0)))
  {
    hide PageOf, PageWithin, IndexOf, Unique, Ids;
    var base := sources(0);
    assert Legal(limits(turn)) && base <= sources(turn) && Unique(Ids(sources(turn)));
    UniquePrefix(base, sources(turn));
    if query.cursor.Some? {
      ContinuesIn(scope, base, sources(turn), query.cursor.value, limits(turn));
    } else {
      StartsInBase(scope, base, query.entryId, limits(0));
    }
  }

  lemma {:induction false} ReadsOn(
      scope: seq<Text>, sources: nat -> seq<ImportRecord>, limits: nat -> Limits, turn: nat, query: Query,
      start: nat, before: seq<Fragment>, index: nat, offset: nat, more: nat)
    requires Growing(sources, limits) && Asks(scope, sources(0), limits, turn, query, index, offset)
    requires start <= index && Position(sources(0), index, offset) && Assemble(before) == Passed(sources(0), start, index, offset)
    requires more >= Left(sources(0), index, offset)
    ensures
      var read := Read(scope, sources, limits, turn, query, more);
      && read.Ok?
      && SoundPages(sources(0), limits, turn, read.value)
      && 0 < |read.value| <= Left(sources(0), index, offset) + 1
      && Assemble(before + Fragments(read.value)) == sources(0)[start..]
    decreases more
  {
    hide Assemble, Passed, Whole, Characters, Left, PageOf, PageWithin, IndexOf, WithinLimits, Growing, SoundPages, Position, Fragments;
    var base := sources(0);
    PageOfTurn(scope, sources, limits, turn, query, index, offset);
    LegalTurn(sources, limits, turn);
    PageAdvances(scope, base, query, limits(turn), start, before, index, offset);
    var page := PageOf(scope, sources(turn), query).value;
    NothingLeft(base, index, offset);
    if page.nextCursor.Some? {
      var cursor := page.nextCursor.value;
      var next: nat :| start <= next && StartsAt(base, cursor, next)
                       && Assemble(before + page.fragments) == Passed(base, start, next, cursor.offset)
                       && Left(base, next, cursor.offset) < Left(base, index, offset);
      NothingLeft(base, next, cursor.offset);
      var following := Continue(cursor, limits(turn + 1));
      ReadsOn(scope, sources, limits, turn + 1, following, start, before + page.fragments, next, cursor.offset, more - 1);
      var pages := Read(scope, sources, limits, turn + 1, following, more - 1).value;
      OnePageMore(base, limits, turn, page, pages);
      assert before + page.fragments + Fragments(pages) == before + (page.fragments + Fragments(pages));
    } else {
      NoPages(base, limits, turn);
      OnePageMore(base, limits, turn, page, []);
      assert [page] + [] == [page];
      assert page.fragments + [] == page.fragments;
    }
  }

  lemma LegalTurn(sources: nat -> seq<ImportRecord>, limits: nat -> Limits, turn: nat)
    requires Growing(sources, limits)
    ensures Legal(limits(turn))
  {
  }

  lemma NoPages(base: seq<ImportRecord>, limits: nat -> Limits, turn: nat)
    ensures SoundPages(base, limits, turn + 1, []) && Fragments([]) == []
  {
  }

  lemma OnePageMore(base: seq<ImportRecord>, limits: nat -> Limits, turn: nat, page: Page, pages: seq<Page>)
    requires WithinLimits(page, limits(turn)) && (forall f | f in page.fragments :: Whole(base, f))
    requires page.nextCursor.Some? <==> pages != []
    requires page.nextCursor.Some? ==> page.fragments != []
    requires SoundPages(base, limits, turn + 1, pages)
    ensures SoundPages(base, limits, turn, [page] + pages)
    ensures Fragments([page] + pages) == page.fragments + Fragments(pages)
  {
    hide WithinLimits, Whole;
    var all := [page] + pages;
    assert all[1..] == pages;
    forall n | 0 <= n < |all|
      ensures WithinLimits(all[n], limits(turn + n)) && (forall f | f in all[n].fragments :: Whole(base, f))
      ensures all[n].nextCursor.Some? <==> n < |all| - 1
      ensures all[n].nextCursor.Some? ==> all[n].fragments != []
    {
      if n > 0 {
        assert all[n] == pages[n - 1] && turn + n == turn + 1 + (n - 1);
      }
    }
  }

  // When a cursor is accepted

  function Parts(scope: seq<Text>, records: seq<ImportRecord>): seq<Text> {
    scope + SerializedAll(records)
  }

  lemma SnapshotIdInjective(scope: seq<Text>, records: seq<ImportRecord>, otherScope: seq<Text>, others: seq<ImportRecord>)
    ensures SnapshotId(scope, records) == SnapshotId(otherScope, others) <==> Parts(scope, records) == Parts(otherScope, others)
  {
    hide Canonical, SerializedAll, Units;
    var version := [Units("shared-history-v1")];
    assert version + scope + SerializedAll(records) == version + Parts(scope, records);
    assert version + otherScope + SerializedAll(others) == version + Parts(otherScope, others);
    if SnapshotId(scope, records) == SnapshotId(otherScope, others) {
      CanonicalInjective(version + Parts(scope, records), version + Parts(otherScope, others));
      assert Parts(scope, records) == (version + Parts(scope, records))[1..];
    }
  }

  // Records at the same place from the end are the same.
  lemma PartsAlign(scope: seq<Text>, records: seq<ImportRecord>, otherScope: seq<Text>, others: seq<ImportRecord>, i: nat, j: nat)
    requires Parts(scope, records) == Parts(otherScope, others)
    requires i < |records| && j < |others| && |scope| + i == |otherScope| + j
    ensures records[i] == others[j]
  {
    hide Serialized;
    assert Parts(scope, records)[|scope| + i] == SerializedAll(records)[i];
    assert Parts(otherScope, others)[|otherScope| + j] == SerializedAll(others)[j];
    SerializedInjective(records[i], others[j]);
  }

  // For scopes of one length the parts determine scope and records.
  lemma PartsOfOneShape(scope: seq<Text>, records: seq<ImportRecord>, otherScope: seq<Text>, others: seq<ImportRecord>)
    requires |scope| == |otherScope|
    ensures Parts(scope, records) == Parts(otherScope, others) <==> scope == otherScope && records == others
  {
    hide Serialized;
    if Parts(scope, records) == Parts(otherScope, others) {
      assert |SerializedAll(records)| == |SerializedAll(others)|;
      assert scope == Parts(scope, records)[..|scope|] && otherScope == Parts(otherScope, others)[..|scope|];
      forall i | 0 <= i < |records|
        ensures records[i] == others[i]
      {
        PartsAlign(scope, records, otherScope, others, i, i);
      }
    }
  }

  // The records that a query with this cursor may see.
  function Seen(records: seq<ImportRecord>, cursor: Cursor): seq<ImportRecord> {
    var through := IndexOf(records, cursor.throughEntryId);
    if 0 <= through < |records| then records[..through + 1] else []
  }

  // What becomes of a cursor in any scope and any history. It is accepted exactly when the identities
  // are unique, its last record is still there, scope and records up to it read the same part by part
  // as those it was issued for, and the record to continue with is among them. A scope may only be
  // longer or shorter by parts that read like records.
  lemma AcceptedExactly(
      scope: seq<Text>, base: seq<ImportRecord>, cursor: Cursor, newScope: seq<Text>, records: seq<ImportRecord>, limits: Limits)
    requires Unique(Ids(base)) && Issued(scope, base, cursor) && Legal(limits)
    ensures
      var result, seen := PageOf(newScope, records, Continue(cursor, limits)), Seen(records, cursor);
      if !Unique(Ids(records)) then result == Err(DuplicateIdentities)
      else if IndexOf(records, cursor.throughEntryId) < 0 then result == Err(CursorExpired)
      else if Parts(newScope, seen) != Parts(scope, base) then result == Err(HistoryChanged)
      else if IndexOf(seen, cursor.nextEntryId) < 0 then result == Err(EntryUnavailable)
      else result.Ok?
  {
    hide Assemble, Passed, Whole, Characters, Left, SnapshotId, Fill, IndexOf, Parts;
    IndexInRange(records, cursor.throughEntryId);
    if Unique(Ids(records)) && IndexOf(records, cursor.throughEntryId) >= 0 {
      var seen := Seen(records, cursor);
      UniquePrefix(seen, records);
      SnapshotIdInjective(newScope, seen, scope, base);
      IndexInRange(seen, cursor.nextEntryId);
      if Parts(newScope, seen) == Parts(scope, base) && IndexOf(seen, cursor.nextEntryId) >= 0 {
        StartsAlike(scope, base, cursor, newScope, seen, IndexOf(seen, cursor.nextEntryId));
        AcceptedAt(newScope, seen, cursor, limits, IndexOf(seen, cursor.nextEntryId));
      }
    }
  }

  // The record to continue with is the one that the cursor was issued for.
  lemma StartsAlike(
      scope: seq<Text>, base: seq<ImportRecord>, cursor: Cursor, newScope: seq<Text>, seen: seq<ImportRecord>, found: nat)
    requires Unique(Ids(base)) && Unique(Ids(seen)) && Issued(scope, base, cursor)
    requires Parts(newScope, seen) == Parts(scope, base)
    requires found < |seen| && seen[found].sourceEntryId == cursor.nextEntryId
    ensures StartsAt(seen, cursor, found)
  {
    hide SnapshotId;
    var index: nat :| StartsAt(base, cursor, index);
    assert |newScope| + |seen| == |scope| + |base| by {
      assert |Parts(newScope, seen)| == |Parts(scope, base)|;
    }
    if |newScope| + found >= |scope| {
      var other := |newScope| + found - |scope|;
      PartsAlign(newScope, seen, scope, base, found, other);
      assert Ids(base)[other] == Ids(base)[index];
    } else {
      var other := |scope| + index - |newScope|;
      assert Ids(seen)[found] != Ids(seen)[other];
      PartsAlign(newScope, seen, scope, base, other, index);
      assert false;
    }
  }

  // With scopes of one length a cursor is accepted exactly when the scope is the one it was issued for
  // and the history still begins with every record it was issued over: any change up to the cursor's
  // last record rejects it.
  lemma AcceptedExactlyWhenUnchanged(
      scope: seq<Text>, base: seq<ImportRecord>, cursor: Cursor, newScope: seq<Text>, records: seq<ImportRecord>, limits: Limits)
    requires Unique(Ids(base)) && Issued(scope, base, cursor)
    requires |scope| == |newScope| && Legal(limits)
    ensures PageOf(newScope, records, Continue(cursor, limits)).Ok?
       <==> newScope == scope && base <= records && Unique(Ids(records))
    ensures Unique(Ids(records)) && !(newScope == scope && base <= records) ==>
      PageOf(newScope, records, Continue(cursor, limits))
      == Err(if IndexOf(records, cursor.throughEntryId) < 0 then CursorExpired else HistoryChanged)
  {
    hide Assemble, Passed, Whole, Characters, Left, SnapshotId, Fill, IndexOf, Parts, PageOf;
    AcceptedExactly(scope, base, cursor, newScope, records, limits);
    IndexInRange(records, cursor.throughEntryId);
    var seen := Seen(records, cursor);
    PartsOfOneShape(newScope, seen, scope, base);
    var index: nat :| StartsAt(base, cursor, index);
    IndexInRange(base, cursor.nextEntryId);
    if Unique(Ids(records)) && base <= records {
      assert records[|base| - 1] == base[|base| - 1];
      IndexOfUnique(records, |base| - 1);
      assert seen == base;
    }
  }

  // A cursor issued for two records in one scope is accepted for the second alone, in the scope that
  // ends with the text of the first.
  lemma AcceptedInLongerScope(scope: seq<Text>, first: ImportRecord, second: ImportRecord, limits: Limits)
    requires first.sourceEntryId != second.sourceEntryId && Legal(limits)
    ensures
      var cursor := Cursor(SnapshotId(scope, [first, second]), second.sourceEntryId, second.sourceEntryId, 0);
      && Issued(scope, [first, second], cursor)
      && PageOf(scope + [Serialized(first)], [second], Continue(cursor, limits)).Ok?
  {
    hide SnapshotId, PageOf, Serialized;
    var base, cursor := [first, second], Cursor(SnapshotId(scope, [first, second]), second.sourceEntryId, second.sourceEntryId, 0);
    assert StartsAt(base, cursor, 1);
    assert IndexOf([second], second.sourceEntryId) == 0 && Seen([second], cursor) == [second];
    assert SerializedAll(base) == [Serialized(first)] + SerializedAll([second]);
    assert Parts(scope + [Serialized(first)], [second]) == Parts(scope, base);
    AcceptedExactly(scope, base, cursor, scope + [Serialized(first)], [second], limits);
  }

  lemma AcceptedAt(scope: seq<Text>, base: seq<ImportRecord>, cursor: Cursor, limits: Limits, index: nat)
    requires Unique(Ids(base)) && Legal(limits) && Issued(scope, base, cursor) && StartsAt(base, cursor, index)
    ensures PageWithin(scope, base, Continue(cursor, limits), MaxRecords(limits).value, MaxCharacters(limits).value).Ok?
  {
    hide Assemble, Passed, Whole, Characters, Left, SnapshotId, PageWithin, IndexOf;
    var filled := AssembledUpTo(base, index, cursor.offset);
    PageAdvances(scope, base, Continue(cursor, limits), limits, index, filled, index, cursor.offset);
  }

  lemma AssembledUpTo(base: seq<ImportRecord>, index: nat, offset: nat) returns (fragments: seq<Fragment>)
    requires Position(base, index, offset)
    ensures Assemble(fragments) == Passed(base, index, index, offset)
  {
    if offset == 0 {
      fragments := [];
    } else {
      fragments := [FragmentOf(base[index], 0, offset)];
      AssembleOneMore([], fragments[0]);
      assert [] + fragments == fragments;
    }
  }
}
