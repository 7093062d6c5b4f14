/**
 A receiver and a whole inbound stream: a replay answer mixed with live events and
 duplicates brings it up to date, with each event handed over once.
 */
module CatchUp {
  import opened Results
  import opened EventJournal
  import opened RemoteConnection
  import opened EventDelivery
  import opened ResumeSafety

  function AfterStream(c: Conn, stream: seq<RemoteEvent>): Conn
    decreases |stream|
  {
    if stream == [] then c else AfterStream(AfterEvent(c, stream[0]), stream[1..])
  }

  // `part` appears in `whole` in this order, with anything in between.
  ghost predicate Subsequence(part: seq<RemoteEvent>, whole: seq<RemoteEvent>)
    decreases |whole|
  {
    || part == []
    || (whole != [] && part[0] == whole[0] && Subsequence(part[1..], whole[1..]))
    || (whole != [] && Subsequence(part, whole[1..]))
  }

  lemma EventDelivers(c: Conn, event: RemoteEvent)
    requires event.name != RESYNC
    ensures var c' := AfterEvent(c, event);
            if event.sequence == c.lastEventSequence + 1
            then c'.lastEventSequence == event.sequence && Deliveries(c'.notices) == Deliveries(c.notices) + [event]
            else c'.lastEventSequence == c.lastEventSequence && Deliveries(c'.notices) == Deliveries(c.notices)
  {
    DeliveriesOfTold(c.notices, StateChanged(Online));
    DeliveriesOfTold(c.notices, StateChanged(Recovering));
    DeliveriesOfTold(c.notices, Delivered(event));
    DeliveriesOfTold(c.notices + [StateChanged(Online)], Delivered(event));
  }

  lemma {:induction false} StreamDelivers(c: Conn, stream: seq<RemoteEvent>, emitted: seq<RemoteEvent>, low: nat, high: nat)
    requires Numbered(emitted) && AllGenuine(stream, emitted) && NoResync(stream)
    requires low <= high <= |emitted| && low <= c.lastEventSequence <= |emitted|
    requires Subsequence(emitted[low..high], stream)
    ensures var c' := AfterStream(c, stream);
            && high <= c'.lastEventSequence
            && c.lastEventSequence <= c'.lastEventSequence <= |emitted|
            && Deliveries(c'.notices) == Deliveries(c.notices) + emitted[c.lastEventSequence..c'.lastEventSequence]
    decreases |stream|
  {
    hide AfterEvent, Deliveries;
    if stream == [] {
    } else {
      var event, rest := stream[0], stream[1..];
      assert event in stream;
      var c1 := AfterEvent(c, event);
      EventDelivers(c, event);
      var part := emitted[low..high];
      if part != [] && part[0] == event && Subsequence(part[1..], rest) {
        assert part[1..] == emitted[low + 1..high];
        StreamDelivers(c1, rest, emitted, low + 1, high);
      } else {
        StreamDelivers(c1, rest, emitted, low, high);
      }
      var c' := AfterStream(c1, rest);
      if event.sequence == c.lastEventSequence + 1 {
        assert emitted[c.lastEventSequence..c'.lastEventSequence] ==
               [event] + emitted[c1.lastEventSequence..c'.lastEventSequence];
      }
    }
  }

  // A receiver at `position` that is sent the answer to `replay(position)`, in order but mixed
  // arbitrarily with live events and duplicates, ends at or beyond the last event numbered
  // when the replay was answered, and the application is given every event it lacked once.
  lemma CatchesUp(h: History, b: Bounds, position: nat, answer: seq<RemoteEvent>,
                  c: Conn, stream: seq<RemoteEvent>, emitted: seq<RemoteEvent>)
    requires Sound(h, b) && ReplayAnswer(h.log, position) == Some(answer)
    requires h.emitted <= emitted && Numbered(emitted)
    requires c.lastEventSequence == position
    requires AllGenuine(stream, emitted) && NoResync(stream) && Subsequence(answer, stream)
    ensures var c' := AfterStream(c, stream);
            && |h.emitted| <= c'.lastEventSequence <= |emitted|
            && Deliveries(c'.notices) == Deliveries(c.notices) + emitted[position..c'.lastEventSequence]
  {
    var high := |h.emitted|;
    assert position <= high && answer == emitted[position..high] by {
      ReplayExact(h, position, b);
      assert h.emitted == emitted[..high];
      assert emitted[..high][position..] == emitted[position..high];
    }
    StreamDelivers(c, stream, emitted, position, high);
  }

  // Across resyncs

  // What the application is given of a stream.
  function Handed(c: Conn, stream: seq<RemoteEvent>): seq<RemoteEvent>
    decreases |stream|
  {
    if stream == [] then []
    else
      (if stream[0].name == RESYNC || stream[0].sequence == c.lastEventSequence + 1 then [stream[0]] else [])
      + Handed(AfterEvent(c, stream[0]), stream[1..])
  }

  // Every event has a greater number than the position or event before it.
  predicate Rising(position: nat, events: seq<RemoteEvent>)
    decreases |events|
  {
    events == [] || (events[0].sequence > position && Rising(events[0].sequence, events[1..]))
  }

  // Event `k` is a resync at or below the position that the receiver holds when it arrives.
  predicate FallsBack(c: Conn, stream: seq<RemoteEvent>, k: nat)
    requires k < |stream|
  {
    stream[k].name == RESYNC && stream[k].sequence <= AfterStream(c, stream[..k]).lastEventSequence
  }

  lemma {:induction false} StreamHands(c: Conn, stream: seq<RemoteEvent>)
    ensures Deliveries(AfterStream(c, stream).notices) == Deliveries(c.notices) + Handed(c, stream)
    decreases |stream|
  {
    hide AfterEvent, Deliveries;
    if stream == [] {
      assert Deliveries(c.notices) + [] == Deliveries(c.notices);
    } else {
      var event, c1 := stream[0], AfterEvent(c, stream[0]);
      StreamHands(c1, stream[1..]);
      if event.name == RESYNC {
        ResyncDelivers(c, event);
      } else {
        EventDelivers(c, event);
      }
      var first := if event.name == RESYNC || event.sequence == c.lastEventSequence + 1 then [event] else [];
      assert Deliveries(c1.notices) == Deliveries(c.notices) + first;
      assert Deliveries(c.notices) + first + Handed(c1, stream[1..]) == Deliveries(c.notices) + (first + Handed(c1, stream[1..]));
    }
  }

  lemma FallsBackLater(c: Conn, stream: seq<RemoteEvent>, k: nat)
    requires 0 < k < |stream|
    ensures FallsBack(c, stream, k) <==> FallsBack(AfterEvent(c, stream[0]), stream[1..], k - 1)
  {
    assert stream[..k] == [stream[0]] + stream[1..][..k - 1];
    StreamStep(c, stream[0], stream[1..][..k - 1]);
  }

  // For every receiver and every stream, the application is given ever greater numbers exactly if no
  // resync arrives at or below the position held at that moment.
  lemma {:induction false} RisesExactlyUnlessResyncFallsBack(c: Conn, stream: seq<RemoteEvent>)
    ensures Rising(c.lastEventSequence, Handed(c, stream)) <==> forall k | 0 <= k < |stream| :: !FallsBack(c, stream, k)
    decreases |stream|
  {
    hide AfterEvent, AfterStream, Deliveries;
    if stream != [] {
      var event, rest, c1 := stream[0], stream[1..], AfterEvent(c, stream[0]);
      RisesExactlyUnlessResyncFallsBack(c1, rest);
      assert stream[..0] == [];
      EmptyStream(c);
      if event.name == RESYNC {
        ResyncDelivers(c, event);
      } else {
        EventDelivers(c, event);
      }
      forall k | 0 < k < |stream|
        ensures FallsBack(c, stream, k) <==> FallsBack(c1, rest, k - 1)
      {
        FallsBackLater(c, stream, k);
      }
      HandedStep(c, stream);
      if FallsBack(c, stream, 0) {
        assert !Rising(c.lastEventSequence, Handed(c, stream));
      } else if exists k | 0 <= k < |rest| :: FallsBack(c1, rest, k) {
        var k :| 0 <= k < |rest| && FallsBack(c1, rest, k);
        assert FallsBack(c, stream, k + 1);
      }
    }
  }

  lemma HandedStep(c: Conn, stream: seq<RemoteEvent>)
    requires stream != []
    ensures
      var event, rest := stream[0], Handed(AfterEvent(c, stream[0]), stream[1..]);
      if event.name == RESYNC || event.sequence == c.lastEventSequence + 1
      then Handed(c, stream) == [event] + rest && Handed(c, stream)[1..] == rest
      else Handed(c, stream) == rest
  {
    hide AfterEvent;
  }

  lemma EmptyStream(c: Conn)
    ensures AfterStream(c, []) == c
  {
  }

  lemma StreamStep(c: Conn, event: RemoteEvent, rest: seq<RemoteEvent>)
    ensures AfterStream(c, [event] + rest) == AfterStream(AfterEvent(c, event), rest)
  {
    assert ([event] + rest)[1..] == rest;
  }

  lemma ResyncDelivers(c: Conn, event: RemoteEvent)
    requires event.name == RESYNC
    ensures var c' := AfterEvent(c, event);
            c'.lastEventSequence == event.sequence && Deliveries(c'.notices) == Deliveries(c.notices) + [event]
  {
    DeliveriesOfTold(c.notices, StateChanged(Online));
    DeliveriesOfTold(c.notices, Delivered(event));
    DeliveriesOfTold(c.notices + [StateChanged(Online)], Delivered(event));
  }
}
