/**
 Compacting again and again over changing sources, each time possibly starting from the summary of an
 earlier checkpoint (packages/agent-team/src/shared-context.ts,
 apps/desktop/src/main/agent-teams/team-shared-context-service.ts).
 */
module CompactionChain {
  import opened Results
  import opened Utf16
  import opened TeamRecords
  import opened SharedContext
  import opened ContextCompaction

  // `reply` is what the model answers when it is asked for a summary.
  datatype Request = Request(
    conversationId: Text,
    throughRevision: int,
    policyVersion: Text,
    source: seq<ImportRecord>,
    previous: Option<nat>,
    maxCharacters: int,
    keepRecent: int,
    reply: Text)

  // `accounted` is what went into the summary text: the records handed to the model, and before them
  // whatever went into the earlier summary that was handed to it or reused.
  datatype Entry = Entry(request: Request, checkpoint: Checkpoint, text: Text, accounted: seq<ImportRecord>)

  function PreviousOf(chain: seq<Entry>, request: Request): Option<Checkpoint> {
    if request.previous.Some? && request.previous.value < |chain| then Some(chain[request.previous.value].checkpoint) else None
  }

  function PlanFor(read: Text -> Option<Text>, chain: seq<Entry>, request: Request): Result<Plan, ContextError> {
    PlanOf(read, request.source, PreviousOf(chain, request), request.maxCharacters, request.keepRecent)
  }

  // With nothing new to summarize the earlier text is used as it is.
  function TextFor(plan: Plan, reply: Text): Text {
    if plan.summaryInputRecords == [] && plan.previousSummary.Some? && plan.previousSummary.value != []
    then plan.previousSummary.value else reply
  }

  function AccountedFor(chain: seq<Entry>, request: Request, plan: Plan): seq<ImportRecord> {
    (if plan.previousSummary.Some? && request.previous.Some? && request.previous.value < |chain|
     then chain[request.previous.value].accounted else [])
    + plan.summaryInputRecords
  }

  function Extend(read: Text -> Option<Text>, chain: seq<Entry>, request: Request): Result<Entry, ContextError> {
    match PlanFor(read, chain, request)
    case Err(error) => Err(error)
    case Ok(plan) =>
      var text := TextFor(plan, request.reply);
      match Compacted(request.conversationId, request.throughRevision, request.policyVersion, plan, text)
      case Err(error) => Err(error)
      case Ok(checkpoint) => Ok(Entry(request, checkpoint, text, AccountedFor(chain, request, plan)))
  }

  predicate IsChain(read: Text -> Option<Text>, chain: seq<Entry>) {
    chain == [] ||
    var before := chain[..|chain| - 1];
    IsChain(read, before) && Extend(read, before, chain[|chain| - 1].request) == Ok(chain[|chain| - 1])
  }

  // The summary stands for exactly the first `k` records, which are the ones the checkpoint says it
  // summarizes, and with the tail it is the whole source, each record once and in order.
  ghost predicate AccountsForPrefix(entry: Entry, k: nat) {
    && Summarizes(entry.checkpoint, entry.request.source, k, entry.text)
    && SameSharedAll(entry.accounted, entry.request.source[..k])
    && entry.checkpoint.summarizedSourceEntryIds == Some(Ids(entry.accounted))
    && SameSharedAll(entry.accounted + entry.checkpoint.summaryRecords[1..], entry.request.source)
  }

  // A summary that builds on an earlier one was given that summary's own text.
  ghost predicate BuildsOn(read: Text -> Option<Text>, chain: seq<Entry>, entry: Entry) {
    var plan := PlanFor(read, chain, entry.request);
    plan.Ok? && (plan.value.previousSummary.Some? ==>
      && entry.request.previous.Some? && entry.request.previous.value < |chain|
      && var earlier := chain[entry.request.previous.value];
      && plan.value.previousSummary.value == Trim(earlier.text)
      && entry.accounted == earlier.accounted + plan.value.summaryInputRecords
      && (plan.value.summaryInputRecords == [] ==> entry.text == Trim(earlier.text)))
  }

  lemma SameSharedIds(a: seq<ImportRecord>, b: seq<ImportRecord>)
    requires SameSharedAll(a, b)
    ensures Ids(a) == Ids(b)
  {
    forall i | 0 <= i < |a|
      ensures Ids(a)[i] == Ids(b)[i]
    {
      assert SameShared(a[i], b[i]);
    }
  }

  lemma SameSharedParts(a: seq<ImportRecord>, b: seq<ImportRecord>, source: seq<ImportRecord>, records: seq<ImportRecord>, k: nat)
    requires k <= |records| <= |source| && SameSharedAll(source[..|records|], records)
    requires SameSharedAll(a, records[..k])
    requires k + |b| <= |source| && b == source[k..k + |b|]
    ensures SameSharedAll(a + b, source[..k + |b|])
  {
    forall i | 0 <= i < k + |b|
      ensures SameShared((a + b)[i], source[..k + |b|][i])
    {
      if i < k {
        assert SameShared(source[..|records|][i], records[i]) && SameShared(a[i], records[..k][i]);
      } else {
        assert (a + b)[i] == b[i - k] && b[i - k] == source[k..k + |b|][i - k];
      }
    }
  }

  lemma SameSharedWhole(a: seq<ImportRecord>, source: seq<ImportRecord>, k: nat)
    requires k <= |source| && SameSharedAll(a, source[..k])
    ensures SameSharedAll(a + source[k..], source)
  {
    forall i | 0 <= i < |source|
      ensures SameShared((a + source[k..])[i], source[i])
    {
      if i < k {
        assert SameShared(a[i], source[..k][i]);
      }
    }
  }

  lemma NewEntryAccounts(read: Text -> Option<Text>, chain: seq<Entry>, entry: Entry, k: nat, earlier: nat)
    requires ReadsEnvelopes(read) && Extend(read, chain, entry.request) == Ok(entry)
    requires entry.request.previous.Some? && entry.request.previous.value < |chain| ==>
      AccountsForPrefix(chain[entry.request.previous.value], earlier)
    requires k == |entry.request.source| - |PlanFor(read, chain, entry.request).value.tailRecords|
    ensures AccountsForPrefix(entry, k) && BuildsOn(read, chain, entry)
  {
    hide Summarizes, Trim, Ids, Compacted, TailStart, TotalLength, ReusablePreviousSummary;
    var request := entry.request;
    var source, previous := request.source, PreviousOf(chain, request);
    var plan := PlanFor(read, chain, request).value;
    RequiredPlanSplitsSource(read, source, previous, request.maxCharacters, request.keepRecent);
    RequiresSummary(request, plan, entry.text);
    CompactedSummarizes(request.conversationId, request.throughRevision, request.policyVersion, plan, entry.text, k);
    ReuseNeedsPrevious(read, source, previous, k);
    if plan.previousSummary.Some? {
      var from := chain[request.previous.value];
      ReusedExactlyWhenUnchanged(read, from.checkpoint, from.request.source, earlier, from.text, source, k);
      SummarizesShape(from.checkpoint, from.request.source, earlier, from.text);
      SameSharedParts(from.accounted, plan.summaryInputRecords, source, from.request.source, earlier);
    } else {
      NewSummaryIsPrefix(source, plan.summaryInputRecords, k);
    }
    SummarizesShape(entry.checkpoint, source, k, entry.text);
    SameSharedIds(entry.accounted, source[..k]);
    SameSharedWhole(entry.accounted, source, k);
  }

  lemma ReuseNeedsPrevious(read: Text -> Option<Text>, source: seq<ImportRecord>, previous: Option<Checkpoint>, end: nat)
    ensures ReusablePreviousSummary(read, previous, source, end).Some? ==> previous.Some?
  {
  }

  lemma RequiresSummary(request: Request, plan: Plan, text: Text)
    requires Compacted(request.conversationId, request.throughRevision, request.policyVersion, plan, text).Ok?
    ensures plan.requiresSummary && Trim(text) != []
  {
  }

  lemma SummarizesShape(checkpoint: Checkpoint, records: seq<ImportRecord>, k: nat, text: Text)
    requires Summarizes(checkpoint, records, k, text)
    ensures 0 < k <= |records| && Trim(text) != [] && checkpoint.summaryRecords != []
    ensures checkpoint.summarizedSourceEntryIds == Some(Ids(records[..k])) && checkpoint.summaryRecords[1..] == records[k..]
  {
  }

  lemma NewSummaryIsPrefix(source: seq<ImportRecord>, input: seq<ImportRecord>, k: nat)
    requires k <= |source| && input == source[..k]
    ensures SameSharedAll([] + input, source[..k])
  {
    assert [] + input == input;
  }

  // In every chain each summary accounts for exactly the prefix it claims, including when it was
  // built from, or simply is, an earlier summary.
  lemma {:induction false} EverySummaryAccounts(read: Text -> Option<Text>, chain: seq<Entry>, i: nat)
    requires ReadsEnvelopes(read) && IsChain(read, chain) && i < |chain|
    ensures exists k: nat :: AccountsForPrefix(chain[i], k)
    ensures BuildsOn(read, chain[..i], chain[i])
    decreases |chain|
  {
    hide AccountsForPrefix, BuildsOn, Extend, PlanFor;
    var before := chain[..|chain| - 1];
    if i < |before| {
      EverySummaryAccounts(read, before, i);
      assert before[..i] == chain[..i];
    } else {
      var entry := chain[i];
      assert chain[..i] == before;
      var earlier: nat := 0;
      if entry.request.previous.Some? && entry.request.previous.value < |before| {
        EverySummaryAccounts(read, before, entry.request.previous.value);
        earlier :| AccountsForPrefix(before[entry.request.previous.value], earlier);
      }
      var k := PlannedPrefix(read, before, entry);
      NewEntryAccounts(read, before, entry, k, earlier);
    }
  }

  lemma PlannedPrefix(read: Text -> Option<Text>, chain: seq<Entry>, entry: Entry) returns (k: nat)
    requires Extend(read, chain, entry.request) == Ok(entry)
    ensures PlanFor(read, chain, entry.request).Ok?
    ensures k == |entry.request.source| - |PlanFor(read, chain, entry.request).value.tailRecords|
  {
    var request := entry.request;
    var plan := PlanFor(read, chain, request).value;
    RequiredPlanSplitsSource(read, request.source, PreviousOf(chain, request), request.maxCharacters, request.keepRecent);
    k := |request.source| - |plan.tailRecords|;
  }
}
