/**
 The outbound event log of one endpoint (packages/remote-control/src/event-journal.ts).

 `Log` is the state the source keeps; `Remembered`, `Acknowledged` and `ReplayAnswer` are its
 operations as functions. `History` is a log together with everything that was ever
 emitted, acknowledged and evicted, so that statements about every run can be made.
 `RemoteEventJournal` is the mutable class, proved against the functions.
 */
module EventJournal {
  import opened Results

  datatype RemoteEvent = RemoteEvent(sequence: nat, name: string, payload: string)

  const RESYNC := "session.resync"

  datatype Entry = Entry(event: RemoteEvent, recordedAt: int)

  datatype Bounds = Bounds(capacity: nat, maxAgeMs: nat)

  // `Math.max(1, capacity)` and `Math.max(0, maxAgeMs)`: any requested bounds are usable.
  function MakeBounds(capacity: int, maxAgeMs: int): (b: Bounds)
    ensures b.capacity >= 1 && b.capacity >= capacity && (b.capacity == 1 || b.capacity == capacity)
    ensures b.maxAgeMs >= maxAgeMs && (b.maxAgeMs == 0 || b.maxAgeMs == maxAgeMs)
  {
    Bounds(if capacity < 1 then 1 else capacity, if maxAgeMs < 0 then 0 else maxAgeMs)
  }

  datatype Log = Log(entries: seq<Entry>, sequence: nat, oldestKept: nat)

  const EMPTY_LOG := Log([], 0, 0)

  function Max(a: nat, b: nat): nat {
    if a < b then b else a
  }

  function Events(entries: seq<Entry>): seq<RemoteEvent> {
    seq(|entries|, i requires 0 <= i < |entries| => entries[i].event)
  }

  function DropAcknowledged(entries: seq<Entry>, sequence: nat): seq<Entry> {
    if |entries| > 0 && entries[0].event.sequence <= sequence
    then DropAcknowledged(entries[1..], sequence)
    else entries
  }

  function Acknowledged(l: Log, sequence: nat): Log {
    l.(entries := DropAcknowledged(l.entries, sequence), oldestKept := Max(l.oldestKept, sequence))
  }

  predicate MustEvict(entries: seq<Entry>, b: Bounds, now: int) {
    |entries| > 0 && (|entries| > b.capacity || entries[0].recordedAt < now - b.maxAgeMs)
  }

  function Evicted(l: Log, b: Bounds, now: int): Log
    decreases |l.entries|
  {
    if MustEvict(l.entries, b, now)
    then Evicted(l.(entries := l.entries[1..], oldestKept := Max(l.oldestKept, l.entries[0].event.sequence)), b, now)
    else l
  }

  // The clock is read twice: once for the new entry and once by the eviction.
  function Remembered(l: Log, event: RemoteEvent, b: Bounds, recordedAt: int, now: int): Log {
    Evicted(l.(entries := l.entries + [Entry(event, recordedAt)]), b, now)
  }

  function Newer(entries: seq<Entry>, after: nat): seq<RemoteEvent> {
    if |entries| == 0 then []
    else if entries[0].event.sequence > after then [entries[0].event] + Newer(entries[1..], after)
    else Newer(entries[1..], after)
  }

  function ReplayAnswer(l: Log, after: nat): Option<seq<RemoteEvent>> {
    if after > l.sequence then None
    else if after == l.sequence then Some([])
    else if after < l.oldestKept then None
    else Some(Newer(l.entries, after))
  }

  // Runs of the journal

  datatype Op =
    | Emit(name: string, payload: string, recordedAt: int, now: int)
    | Ack(sequence: nat)
    | Query(now: int)

  datatype History = History(log: Log, emitted: seq<RemoteEvent>, acked: set<nat>, evicted: set<nat>)

  const EMPTY_HISTORY := History(EMPTY_LOG, [], {}, {})

  function Sequences(entries: seq<Entry>): set<nat> {
    set e | e in entries :: e.event.sequence
  }

  function Step(h: History, op: Op, b: Bounds): History {
    match op
    case Emit(name, payload, recordedAt, now) =>
      var event := RemoteEvent(h.log.sequence + 1, name, payload);
      var entries := h.log.entries + [Entry(event, recordedAt)];
      var log := Remembered(h.log.(sequence := h.log.sequence + 1), event, b, recordedAt, now);
      h.(log := log, emitted := h.emitted + [event], evicted := h.evicted + (Sequences(entries) - Sequences(log.entries)))
    case Ack(sequence) =>
      h.(log := Acknowledged(h.log, sequence), acked := h.acked + {sequence})
    case Query(now) =>
      var log := Evicted(h.log, b, now);
      h.(log := log, evicted := h.evicted + (Sequences(h.log.entries) - Sequences(log.entries)))
  }

  function Run(ops: seq<Op>, b: Bounds): History {
    if |ops| == 0 then EMPTY_HISTORY else Step(Run(ops[..|ops| - 1], b), ops[|ops| - 1], b)
  }

  ghost predicate Numbered(emitted: seq<RemoteEvent>) {
    forall i | 0 <= i < |emitted| :: emitted[i].sequence == i + 1
  }

  // The entries still held are the last ones emitted.
  ghost predicate Suffix(entries: seq<Entry>, emitted: seq<RemoteEvent>) {
    |entries| <= |emitted| && Events(entries) == emitted[|emitted| - |entries|..]
  }

  // Every number a resuming peer may no longer ask behind.
  function Passed(h: History): set<nat> {
    h.acked + h.evicted
  }

  ghost predicate HighestOf(highest: nat, numbers: set<nat>) {
    && (highest == 0 || highest in numbers)
    && (forall n | n in numbers :: n <= highest)
  }

  lemma HighestOfUnion(highest: nat, numbers: set<nat>, extra: nat, more: set<nat>)
    requires HighestOf(highest, numbers) && HighestOf(extra, more)
    ensures HighestOf(Max(highest, extra), numbers + more)
  {
  }

  // What every history keeps.
  ghost predicate Sound(h: History, b: Bounds) {
    && Numbered(h.emitted)
    && h.log.sequence == |h.emitted|
    && Suffix(h.log.entries, h.emitted)
    && |h.log.entries| <= b.capacity
    && |h.emitted| - |h.log.entries| <= h.log.oldestKept
    && HighestOf(h.log.oldestKept, Passed(h))
    && (forall n | n in h.evicted :: n <= |h.emitted|)
  }

  lemma {:induction false} DropAcknowledgedKeepsSuffix(entries: seq<Entry>, emitted: seq<RemoteEvent>, sequence: nat)
    requires Numbered(emitted) && Suffix(entries, emitted)
    ensures var kept := DropAcknowledged(entries, sequence);
            && Suffix(kept, emitted)
            && |kept| <= |entries|
            && |emitted| - |kept| <= Max(|emitted| - |entries|, sequence)
    decreases |entries|
  {
    if |entries| > 0 && entries[0].event.sequence <= sequence {
      assert Events(entries)[0] == entries[0].event;
      assert Events(entries[1..]) == Events(entries)[1..];
      DropAcknowledgedKeepsSuffix(entries[1..], emitted, sequence);
    }
  }

  // Eviction removes a prefix, remembers the highest number removed and ends within the capacity.
  lemma {:induction false} EvictKeepsSuffix(l: Log, emitted: seq<RemoteEvent>, b: Bounds, now: int)
    requires Numbered(emitted) && Suffix(l.entries, emitted)
    ensures var kept := Evicted(l, b, now);
            && Suffix(kept.entries, emitted)
            && |kept.entries| <= |l.entries|
            && |kept.entries| <= b.capacity
            && kept.sequence == l.sequence
            && kept.oldestKept == (if |kept.entries| == |l.entries| then l.oldestKept
                                   else Max(l.oldestKept, |emitted| - |kept.entries|))
    decreases |l.entries|
  {
    if MustEvict(l.entries, b, now) {
      assert Events(l.entries)[0] == l.entries[0].event;
      assert Events(l.entries[1..]) == Events(l.entries)[1..];
      EvictKeepsSuffix(l.(entries := l.entries[1..],
                          oldestKept := Max(l.oldestKept, l.entries[0].event.sequence)), emitted, b, now);
    }
  }

  // The numbers held by a suffix are exactly the last numbers given out.
  lemma SuffixSequences(entries: seq<Entry>, emitted: seq<RemoteEvent>)
    requires Numbered(emitted) && Suffix(entries, emitted)
    ensures forall n :: n in Sequences(entries) <==> |emitted| - |entries| < n <= |emitted|
  {
    var base := |emitted| - |entries|;
    forall i | 0 <= i < |entries|
      ensures entries[i].event.sequence == base + i + 1
    {
      assert Events(entries)[i] == emitted[base..][i];
    }
    forall n: nat | base < n <= |emitted|
      ensures n in Sequences(entries)
    {
      assert entries[n - base - 1] in entries;
    }
  }

  lemma EvictedSequences(before: seq<Entry>, after: seq<Entry>, emitted: seq<RemoteEvent>)
    requires Numbered(emitted) && Suffix(before, emitted) && Suffix(after, emitted) && |after| <= |before|
    ensures forall n :: n in Sequences(before) - Sequences(after) <==> |emitted| - |before| < n <= |emitted| - |after|
  {
    SuffixSequences(before, emitted);
    SuffixSequences(after, emitted);
  }

  // The numbers evicted in one step have their highest one remembered.
  lemma EvictionRemembersHighest(l: Log, emitted: seq<RemoteEvent>, b: Bounds, now: int, passed: set<nat>)
    requires Numbered(emitted) && Suffix(l.entries, emitted) && HighestOf(l.oldestKept, passed)
    ensures var kept := Evicted(l, b, now);
            && Suffix(kept.entries, emitted)
            && HighestOf(kept.oldestKept, passed + (Sequences(l.entries) - Sequences(kept.entries)))
            && (forall n | n in Sequences(l.entries) - Sequences(kept.entries) :: n <= |emitted|)
  {
    EvictKeepsSuffix(l, emitted, b, now);
    var kept := Evicted(l, b, now);
    EvictedSequences(l.entries, kept.entries, emitted);
    var gone := Sequences(l.entries) - Sequences(kept.entries);
    if |kept.entries| == |l.entries| {
      assert HighestOf(0, gone);
      HighestOfUnion(l.oldestKept, passed, 0, gone);
    } else {
      assert HighestOf(|emitted| - |kept.entries|, gone);
      HighestOfUnion(l.oldestKept, passed, |emitted| - |kept.entries|, gone);
    }
  }

  lemma GrownSuffix(entries: seq<Entry>, emitted: seq<RemoteEvent>, entry: Entry)
    requires Suffix(entries, emitted)
    ensures Suffix(entries + [entry], emitted + [entry.event])
  {
    assert Events(entries + [entry]) == Events(entries) + [entry.event];
  }

  lemma EmitKeepsSound(h: History, op: Op, b: Bounds)
    requires Sound(h, b) && op.Emit?
    ensures Sound(Step(h, op, b), b)
  {
    var event := RemoteEvent(h.log.sequence + 1, op.name, op.payload);
    var grown := h.log.(sequence := h.log.sequence + 1, entries := h.log.entries + [Entry(event, op.recordedAt)]);
    GrownSuffix(h.log.entries, h.emitted, Entry(event, op.recordedAt));
    GrownKeepsSound(h, grown, event, b, op.now);
  }

  // A log that has grown by an event, once it is evicted from.
  lemma GrownKeepsSound(h: History, grown: Log, event: RemoteEvent, b: Bounds, now: int)
    requires Sound(h, b) && event.sequence == |h.emitted| + 1
    requires Suffix(grown.entries, h.emitted + [event]) && |grown.entries| == |h.log.entries| + 1
    requires grown.sequence == |h.emitted| + 1 && grown.oldestKept == h.log.oldestKept
    ensures var kept := Evicted(grown, b, now);
            Sound(h.(log := kept, emitted := h.emitted + [event],
                     evicted := h.evicted + (Sequences(grown.entries) - Sequences(kept.entries))), b)
  {
    hide Suffix, Evicted, Sequences;
    var emitted, kept := h.emitted + [event], Evicted(grown, b, now);
    var gone := Sequences(grown.entries) - Sequences(kept.entries);
    EvictKeepsSuffix(grown, emitted, b, now);
    EvictionRemembersHighest(grown, emitted, b, now, Passed(h));
    assert h.acked + (h.evicted + gone) == Passed(h) + gone;
  }

  lemma AckKeepsSound(h: History, op: Op, b: Bounds)
    requires Sound(h, b) && op.Ack?
    ensures Sound(Step(h, op, b), b)
  {
    DropAcknowledgedKeepsSuffix(h.log.entries, h.emitted, op.sequence);
    HighestOfUnion(h.log.oldestKept, Passed(h), op.sequence, {op.sequence});
    assert Passed(Step(h, op, b)) == Passed(h) + {op.sequence};
  }

  lemma QueryKeepsSound(h: History, op: Op, b: Bounds)
    requires Sound(h, b) && op.Query?
    ensures Sound(Step(h, op, b), b)
  {
    EvictKeepsSuffix(h.log, h.emitted, b, op.now);
    EvictionRemembersHighest(h.log, h.emitted, b, op.now, Passed(h));
    assert Passed(Step(h, op, b)) ==
           Passed(h) + (Sequences(h.log.entries) - Sequences(Evicted(h.log, b, op.now).entries));
  }

  lemma StepKeepsSound(h: History, op: Op, b: Bounds)
    requires Sound(h, b)
    ensures Sound(Step(h, op, b), b)
  {
    hide *;
    match op
    case Emit(_, _, _, _) => EmitKeepsSound(h, op, b);
    case Ack(_) => AckKeepsSound(h, op, b);
    case Query(_) => QueryKeepsSound(h, op, b);
  }

  lemma {:induction false} RunIsSound(ops: seq<Op>, b: Bounds)
    ensures Sound(Run(ops, b), b)
    decreases |ops|
  {
    hide Step;
    if |ops| > 0 {
      RunIsSound(ops[..|ops| - 1], b);
      StepKeepsSound(Run(ops[..|ops| - 1], b), ops[|ops| - 1], b);
    }
  }

  lemma {:induction false} NewerOfSuffix(entries: seq<Entry>, emitted: seq<RemoteEvent>, after: nat)
    requires Numbered(emitted) && Suffix(entries, emitted)
    requires |emitted| - |entries| <= after <= |emitted|
    ensures Newer(entries, after) == emitted[after..]
    decreases |entries|
  {
    if |entries| > 0 {
      assert Events(entries)[0] == entries[0].event;
      assert Events(entries[1..]) == Events(entries)[1..];
      if entries[0].event.sequence > after {
        NewerWhenAllNewer(entries, emitted, after);
      } else {
        NewerOfSuffix(entries[1..], emitted, after);
      }
    }
  }

  lemma {:induction false} NewerWhenAllNewer(entries: seq<Entry>, emitted: seq<RemoteEvent>, after: nat)
    requires Numbered(emitted) && Suffix(entries, emitted)
    requires after <= |emitted| - |entries|
    ensures Newer(entries, after) == Events(entries)
    decreases |entries|
  {
    if |entries| > 0 {
      assert Events(entries)[0] == entries[0].event;
      assert Events(entries[1..]) == Events(entries)[1..];
      NewerWhenAllNewer(entries[1..], emitted, after);
    }
  }

  // A replay is refused exactly for a position ahead of the journal, or one that is behind
  // both the newest event and some acknowledged or evicted number; otherwise it is exactly
  // the missing events, in order.
  lemma ReplayExact(h: History, after: nat, b: Bounds)
    requires Sound(h, b)
    ensures ReplayAnswer(h.log, after).None? <==>
            || after > |h.emitted|
            || (after < |h.emitted| && exists n :: n in Passed(h) && after < n)
    ensures ReplayAnswer(h.log, after).Some? ==> ReplayAnswer(h.log, after).value == h.emitted[after..]
  {
    if after < |h.emitted| {
      if after < h.log.oldestKept {
        assert h.log.oldestKept in Passed(h);
      } else {
        NewerOfSuffix(h.log.entries, h.emitted, after);
      }
    }
  }

  // The same over every run: `replay` first evicts, then answers.
  lemma ReplayExactInEveryRun(ops: seq<Op>, after: nat, now: int, b: Bounds)
    ensures var h := Run(ops + [Query(now)], b);
            && h.emitted == Run(ops, b).emitted
            && |h.log.entries| <= b.capacity
            && (ReplayAnswer(h.log, after).None? <==>
                || after > |h.emitted|
                || (after < |h.emitted| && exists n :: n in Passed(h) && after < n))
            && (ReplayAnswer(h.log, after).Some? ==> ReplayAnswer(h.log, after).value == h.emitted[after..])
  {
    var all := ops + [Query(now)];
    assert all[..|all| - 1] == ops;
    RunIsSound(all, b);
    ReplayExact(Run(all, b), after, b);
  }

  // Eviction takes entries from the front as long as there are too many or the first is too old, and no more.
  lemma {:induction false} EvictsWhatItMust(l: Log, b: Bounds, now: int) returns (k: nat)
    ensures k <= |l.entries| && Evicted(l, b, now).entries == l.entries[k..]
    ensures |l.entries[k..]| <= b.capacity
    ensures k < |l.entries| ==> l.entries[k].recordedAt >= now - b.maxAgeMs
    ensures forall j | 0 <= j < k :: |l.entries| - j > b.capacity || l.entries[j].recordedAt < now - b.maxAgeMs
    ensures Evicted(l, b, now).sequence == l.sequence
    decreases |l.entries|
  {
    if MustEvict(l.entries, b, now) {
      k := EvictsWhatItMust(l.(entries := l.entries[1..], oldestKept := Max(l.oldestKept, l.entries[0].event.sequence)), b, now);
      k := k + 1;
    } else {
      k := 0;
    }
  }

  lemma {:induction false} DropsAcknowledged(entries: seq<Entry>, sequence: nat) returns (k: nat)
    ensures k <= |entries| && DropAcknowledged(entries, sequence) == entries[k..]
    ensures forall j | 0 <= j < k :: entries[j].event.sequence <= sequence
    ensures k < |entries| ==> entries[k].event.sequence > sequence
  {
    if |entries| > 0 && entries[0].event.sequence <= sequence {
      k := DropsAcknowledged(entries[1..], sequence);
      k := k + 1;
    } else {
      k := 0;
    }
  }

  // In every run an acknowledgement drops exactly the entries up to its number.
  lemma AcknowledgesExactly(ops: seq<Op>, sequence: nat, b: Bounds, entry: Entry)
    ensures var before, after := Run(ops, b), Run(ops + [Ack(sequence)], b);
            && (entry in after.log.entries <==> entry in before.log.entries && entry.event.sequence > sequence)
            && after.emitted == before.emitted && after.log.sequence == before.log.sequence
  {
    hide Sound;
    var all, h := ops + [Ack(sequence)], Run(ops, b);
    assert all[..|all| - 1] == ops;
    RunIsSound(ops, b);
    EntriesAreNumbered(h, b);
    var k := DropsAcknowledged(h.log.entries, sequence);
    assert h.log.entries == h.log.entries[..k] + h.log.entries[k..];
  }

  lemma EntriesAreNumbered(h: History, b: Bounds)
    requires Sound(h, b)
    ensures forall i, j | 0 <= i < j < |h.log.entries| :: h.log.entries[i].event.sequence < h.log.entries[j].event.sequence
  {
    var gone := |h.emitted| - |h.log.entries|;
    forall i | 0 <= i < |h.log.entries|
      ensures h.log.entries[i].event.sequence == gone + i + 1
    {
      assert Events(h.log.entries)[i] == h.emitted[gone + i];
    }
  }

  class RemoteEventJournal {
    var entries: seq<Entry>
    var sequence: nat
    var oldestKeptSequence: nat
    const bounds: Bounds

    // Everything that ever happened to this journal, and whether a number was handed out last.
    ghost var history: History
    ghost var unrecorded: bool

    ghost predicate Valid()
      reads this
    {
      && View() == history.log.(sequence := history.log.sequence + if unrecorded then 1 else 0)
      && Sound(history, bounds)
    }

    // Every number handed out has been recorded.
    ghost predicate Settled()
      reads this
    {
      Valid() && !unrecorded
    }

    ghost function View(): Log
      reads this
    {
      Log(entries, sequence, oldestKeptSequence)
    }

    constructor (capacity: int, maxAgeMs: int)
      ensures View() == EMPTY_LOG && bounds == MakeBounds(capacity, maxAgeMs)
      ensures Settled() && history == EMPTY_HISTORY
    {
      history, unrecorded := EMPTY_HISTORY, false;
      entries, sequence, oldestKeptSequence := [], 0, 0;
      bounds := MakeBounds(capacity, maxAgeMs);
    }

    method NextSequence() returns (next: nat)
      modifies this`sequence, this`unrecorded
      ensures next == old(sequence) + 1 && View() == old(View()).(sequence := next)
      ensures old(Settled()) ==> Valid() && unrecorded
    {
      sequence := sequence + 1;
      unrecorded := true;
      next := sequence;
    }

    method Remember(event: RemoteEvent, recordedAt: int, now: int)
      modifies this`entries, this`oldestKeptSequence, this`history, this`unrecorded
      ensures View() == Remembered(old(View()), event, bounds, recordedAt, now)
      ensures old(Valid() && unrecorded) && event.sequence == sequence ==>
        Settled() && history == Step(old(history), Emit(event.name, event.payload, recordedAt, now), bounds)
    {
      ghost var fits := Valid() && unrecorded && event.sequence == sequence;
      entries := entries + [Entry(event, recordedAt)];
      Evict(now);
      if fits {
        ghost var op := Emit(event.name, event.payload, recordedAt, now);
        StepKeepsSound(history, op, bounds);
        history, unrecorded := Step(history, op, bounds), false;
      }
    }

    method Acknowledge(sequence: nat)
      modifies this`entries, this`oldestKeptSequence, this`history
      ensures View() == Acknowledged(old(View()), sequence)
      ensures unrecorded == old(unrecorded)
      ensures old(Settled()) ==> Settled() && history == Step(old(history), Ack(sequence), bounds)
    {
      ghost var settled := Settled();
      while |entries| > 0 && entries[0].event.sequence <= sequence
        invariant DropAcknowledged(entries, sequence) == DropAcknowledged(old(entries), sequence)
        invariant oldestKeptSequence == old(oldestKeptSequence) && history == old(history)
        decreases |entries|
      {
        entries := entries[1..];
      }
      oldestKeptSequence := Max(oldestKeptSequence, sequence);
      if settled {
        StepKeepsSound(history, Ack(sequence), bounds);
        history := Step(history, Ack(sequence), bounds);
      }
    }

    method Replay(afterSequence: nat, now: int) returns (events: Option<seq<RemoteEvent>>)
      modifies this`entries, this`oldestKeptSequence, this`history
      ensures View() == Evicted(old(View()), bounds, now)
      ensures events == ReplayAnswer(View(), afterSequence)
      ensures old(Settled()) ==>
        && Settled() && history == Step(old(history), Query(now), bounds)
        && (events.None? <==>
            || afterSequence > |history.emitted|
            || (afterSequence < |history.emitted| && exists n :: n in Passed(history) && afterSequence < n))
        && (events.Some? ==> events.value == history.emitted[afterSequence..])
    {
      ghost var settled := Settled();
      Evict(now);
      if settled {
        StepKeepsSound(history, Query(now), bounds);
        history := Step(history, Query(now), bounds);
        ReplayExact(history, afterSequence, bounds);
      }
      if afterSequence > sequence {
        return None;
      }
      if afterSequence == sequence {
        return Some([]);
      }
      if afterSequence < oldestKeptSequence {
        return None;
      }
      events := Some(Newer(entries, afterSequence));
    }

    method Evict(now: int)
      modifies this`entries, this`oldestKeptSequence
      ensures View() == Evicted(old(View()), bounds, now)
    {
      while MustEvict(entries, bounds, now)
        invariant Evicted(View(), bounds, now) == Evicted(old(View()), bounds, now)
        invariant sequence == old(sequence)
        decreases |entries|
      {
        oldestKeptSequence := Max(oldestKeptSequence, entries[0].event.sequence);
        entries := entries[1..];
      }
    }
  }
}
