/**
 A run of the link in which the application is given the same events twice: the frame of a resync is
 lost, two later events each make the receiver ask again, and both answers replay the resync.
 */
module RepeatedResync {
  import opened Results
  import opened RemoteCrypto
  import opened EventJournal
  import opened RemoteConnection
  import opened EventDelivery
  import opened EventLink

  // Both ends

  function Zeros(n: nat): (zeros: Bytes)
    ensures |zeros| == n
  {
    if n == 0 then [] else Zeros(n - 1) + [0]
  }

  function Key(): Bytes {
    Zeros(KEY_LENGTH)
  }

  function Pair(): KeyPair {
    KeyPair([], Key())
  }

  const KEYS := SessionKeys([], [])

  function Trivial(): Primitives {
    Primitives(a => Key(), (a, b) => [], (ikm, salt) => ([], []))
  }

  function ConfigFor(role: Role, id: string): Config {
    Config(Trivial(), Initiate, role, id, Pair(), None, Bounds(512, 300_000))
  }

  function Ends(): Configs {
    Configs(ConfigFor(Mobile, "near"), ConfigFor(Desktop, "far"))
  }

  const CLOCK := Clock(0, 0, 0, [])

  function AckTo(id: string): AckInfo {
    AckInfo(id, Key(), Key())
  }

  function Clocks(): nat -> Clock {
    (n: nat) => CLOCK
  }

  // One end after the handshake.
  function Talking(state: State, last: nat, lastAck: nat, journal: History, replays: seq<seq<RemoteEvent>>, notices: seq<Notice>): Conn {
    Conn(state, Some(Pair()), Some(KEYS), Some(Key()), last, lastAck, [], journal, replays, None, [], [], notices, false)
  }

  function Carrying(inner: SessionFrame): Frame {
    SealedFrame(Sealed([], inner))
  }

  function Carry(inners: seq<SessionFrame>): seq<Frame> {
    seq(|inners|, i requires 0 <= i < |inners| => Carrying(inners[i]))
  }

  const CONNECTED := [StateChanged(Connecting), StateChanged(Online)]

  // The sender at the near end, the receiver at the far end, and what is on its way.
  datatype Scene = Scene(journal: History, lastAck: nat, replays: seq<seq<RemoteEvent>>,
                         state: State, last: nat, notices: seq<Notice>, toNear: seq<SessionFrame>, toFar: seq<SessionFrame>)

  function Shown(s: Scene): Link {
    Link(Talking(Online, 0, s.lastAck, s.journal, s.replays, CONNECTED),
         Talking(s.state, s.last, 0, EMPTY_HISTORY, [], s.notices), Carry(s.toNear), Carry(s.toFar))
  }

  lemma RunMore(p: Configs, actions: seq<Action>, action: Action)
    ensures RunLink(p, actions + [action]) == Next(RunLink(p, actions), p, action)
  {
    assert (actions + [action])[..|actions|] == actions;
  }

  lemma CarryMore(inners: seq<SessionFrame>, inner: SessionFrame)
    ensures Carry(inners + [inner]) == Carry(inners) + [Carrying(inner)]
    ensures Carry([inner] + inners) == [Carrying(inner)] + Carry(inners)
    ensures Carried([Carrying(inner)]) == [Carrying(inner)]
    ensures Carry([inner] + inners)[1..] == Carry(inners)
  {
    assert [Carrying(inner)][1..] == [] && Carried([]) == [];
  }

  // Steps

  lemma Emits(s: Scene, name: string)
    ensures
      var journal := Step(s.journal, Op.Emit(name, "", 0, 0), Bounds(512, 300_000));
      Next(Shown(s), Ends(), EmitEvent(Near, name, "", CLOCK))
      == Shown(s.(journal := journal, toFar := s.toFar + [Event(RemoteEvent(s.journal.log.sequence + 1, name, ""))]))
  {
    hide Step, AfterEmit, Talking, Carry;
    CarryMore(s.toFar, Event(RemoteEvent(s.journal.log.sequence + 1, name, "")));
    EmitsOne(s, name);
  }

  lemma EmitsOne(s: Scene, name: string)
    ensures
      var near := ConnOf(Shown(s), Near);
      var journal := Step(s.journal, Op.Emit(name, "", 0, 0), Bounds(512, 300_000));
      var event := RemoteEvent(s.journal.log.sequence + 1, name, "");
      var c := AfterEmit(near, Ends().near, name, "", CLOCK);
      && c.sent == [Carrying(Event(event))]
      && c.(sent := []) == ConnOf(Shown(s.(journal := journal)), Near)
  {
    hide Step;
    var event := RemoteEvent(s.journal.log.sequence + 1, name, "");
    assert [] + [Carrying(Event(event))] == [Carrying(Event(event))];
  }

  lemma Loses(s: Scene, first: SessionFrame, rest: seq<SessionFrame>)
    requires s.toFar == [first] + rest
    ensures Next(Shown(s), Ends(), Lose(Far, 0)) == Shown(s.(toFar := rest))
  {
    CarryMore(rest, first);
    var queue := Carry(s.toFar);
    assert queue[..0] + queue[1..] == Carry(rest);
    assert Carried([]) == [] && Carry(s.toNear) + [] == Carry(s.toNear);
  }

  // The receiver reads an event; it says one thing in return.
  lemma Reads(s: Scene, event: RemoteEvent, rest: seq<SessionFrame>)
    requires s.toFar == [Event(event)] + rest && (s.state == Online || s.state == Recovering)
    requires event.name == RESYNC || event.sequence > s.last
    ensures
      var next := event.name == RESYNC || event.sequence == s.last + 1;
      var back := if s.state == Recovering then [StateChanged(Online)] else [];
      var away := if s.state == Online then [StateChanged(Recovering)] else [];
      Next(Shown(s), Ends(), Receive(Far, Clocks()))
      == if next
         then Shown(s.(state := Online, last := event.sequence, notices := s.notices + back + [Delivered(event)],
                       toNear := s.toNear + [Acknowledgement(event.sequence)], toFar := rest))
         else Shown(s.(state := Recovering, notices := s.notices + away, toNear := s.toNear + [Resume(s.last)], toFar := rest))
  {
    CarryMore(rest, Event(event));
    assert [] + [Carrying(Acknowledgement(event.sequence))] == [Carrying(Acknowledgement(event.sequence))];
    assert [] + [Carrying(Resume(s.last))] == [Carrying(Resume(s.last))];
    CarryMore(s.toNear, Acknowledgement(event.sequence));
    CarryMore(s.toNear, Resume(s.last));
    assert s.notices + [] == s.notices;
  }

  lemma Acknowledges(s: Scene, n: nat, rest: seq<SessionFrame>)
    requires s.toNear == [Acknowledgement(n)] + rest
    ensures Next(Shown(s), Ends(), Receive(Near, Clocks()))
         == Shown(s.(lastAck := Max(s.lastAck, n), journal := Step(s.journal, Ack(n), Bounds(512, 300_000)), toNear := rest))
  {
    hide Step;
    CarryMore(rest, Acknowledgement(n));
    assert Carried([]) == [] && Carry(s.toFar) + [] == Carry(s.toFar);
  }

  lemma Answers(s: Scene, n: nat, rest: seq<SessionFrame>, first: RemoteEvent, others: seq<RemoteEvent>)
    requires s.toNear == [Resume(n)] + rest && s.replays == []
    requires ReplayAnswer(Step(s.journal, Query(0), Bounds(512, 300_000)).log, n) == Some([first] + others)
    ensures Next(Shown(s), Ends(), Receive(Near, Clocks()))
         == Shown(s.(journal := Step(s.journal, Query(0), Bounds(512, 300_000)), replays := [others],
                     toNear := rest, toFar := s.toFar + [Event(first)]))
  {
    hide Step, ReplayAnswer;
    CarryMore(rest, Resume(n));
    CarryMore(s.toFar, Event(first));
    assert [] + [[first] + others] == [[first] + others] && ([first] + others)[1..] == others;
    assert [[first] + others][0 := others] == [others];
    assert [] + [Carrying(Event(first))] == [Carrying(Event(first))];
  }

  lemma Continues(s: Scene, first: RemoteEvent, others: seq<RemoteEvent>)
    requires s.replays == [[first] + others]
    ensures Next(Shown(s), Ends(), ContinueReplay(Near, 0))
         == Shown(s.(replays := [others], toFar := s.toFar + [Event(first)]))
  {
    CarryMore(s.toFar, Event(first));
    assert ([first] + others)[1..] == others && s.replays[0 := others] == [others];
    assert [] + [Carrying(Event(first))] == [Carrying(Event(first))];
  }

  lemma Finishes(s: Scene)
    requires s.replays == [[]]
    ensures Next(Shown(s), Ends(), ContinueReplay(Near, 0)) == Shown(s.(replays := []))
  {
    assert s.replays[..0] + s.replays[1..] == [];
    assert Carried([]) == [] && Carry(s.toFar) + [] == Carry(s.toFar);
  }

  // The run

  const BEGINNING := Scene(EMPTY_HISTORY, 0, [], Online, 0, CONNECTED, [], [])

  function Greeting(): Conn {
    Conn(Connecting, Some(Pair()), None, None, 0, 0, [], EMPTY_HISTORY, [], None, [], [], [StateChanged(Connecting)], false)
  }

  lemma ConnectsBoth()
    ensures Next(Next(START, Ends(), Connect(Near, Pair())), Ends(), Connect(Far, Pair())) == Link(Greeting(), Greeting(), [], [])
  {
    assert Carried([]) == [];
    assert Next(START, Ends(), Connect(Near, Pair())) == Link(Greeting(), NewConn(0, EMPTY_HISTORY, []), [], []);
  }

  // An end reads its acknowledgement, comes online and says what it has; here that is lost.
  lemma ComesOnline(id: string, role: Role, clocks: nat -> Clock)
    ensures AfterFrame(Greeting(), ConfigFor(role, id), HelloAck(AckTo(id)), clocks)
         == Talking(Online, 0, 0, EMPTY_HISTORY, [], CONNECTED).(sent := [Carrying(Resume(0))])
  {
    assert [StateChanged(Connecting)] + [StateChanged(Online)] == CONNECTED;
    assert [] + [Carrying(Resume(0))] == [Carrying(Resume(0))];
  }

  lemma NearComesOnline()
    ensures
      var told := Next(Link(Greeting(), Greeting(), [], []), Ends(), RelayFrame(Near, HelloAck(AckTo("near"))));
      Next(told, Ends(), Receive(Near, Clocks()))
      == Link(Talking(Online, 0, 0, EMPTY_HISTORY, [], CONNECTED), Greeting(), [], [Carrying(Resume(0))])
  {
    hide AfterFrame;
    ComesOnline("near", Mobile, Clocks());
    CarryMore([], Resume(0));
    assert Carried([]) == [] && [] + [HelloAck(AckTo("near"))] == [HelloAck(AckTo("near"))] && [HelloAck(AckTo("near"))][1..] == [];
  }

  lemma FarComesOnline()
    ensures
      var near := Talking(Online, 0, 0, EMPTY_HISTORY, [], CONNECTED);
      Next(Next(Link(near, Greeting(), [], []), Ends(), RelayFrame(Far, HelloAck(AckTo("far")))), Ends(), Receive(Far, Clocks()))
      == Link(near, near, [Carrying(Resume(0))], [])
  {
    hide AfterFrame;
    ComesOnline("far", Desktop, Clocks());
    CarryMore([], Resume(0));
    assert Carried([]) == [] && [] + [HelloAck(AckTo("far"))] == [HelloAck(AckTo("far"))] && [HelloAck(AckTo("far"))][1..] == [];
  }

  lemma LosesOnly(l: Link, end: End, frame: Frame)
    requires QueueTo(l, end) == [frame] && l.near.sent == [] && l.far.sent == []
    ensures Next(l, Ends(), Lose(end, 0)) == WithQueue(l, end, [])
  {
    assert Carried([]) == [] && QueueTo(l, Other(end)) + [] == QueueTo(l, Other(end));
    assert [frame][..0] + [frame][1..] == [];
  }

  lemma Introduced() returns (actions: seq<Action>)
    ensures RunLink(Ends(), actions) == Shown(BEGINNING)
  {
    hide Next;
    var p := Ends();
    actions := [];
    RunMore(p, actions, Connect(Near, Pair())); actions := actions + [Connect(Near, Pair())];
    RunMore(p, actions, Connect(Far, Pair())); actions := actions + [Connect(Far, Pair())];
    ConnectsBoth();
    RunMore(p, actions, RelayFrame(Near, HelloAck(AckTo("near")))); actions := actions + [RelayFrame(Near, HelloAck(AckTo("near")))];
    RunMore(p, actions, Receive(Near, Clocks())); actions := actions + [Receive(Near, Clocks())];
    NearComesOnline();
    RunMore(p, actions, Lose(Far, 0));
    LosesOnly(RunLink(p, actions), Far, Carrying(Resume(0)));
    actions := actions + [Lose(Far, 0)];
    RunMore(p, actions, RelayFrame(Far, HelloAck(AckTo("far")))); actions := actions + [RelayFrame(Far, HelloAck(AckTo("far")))];
    RunMore(p, actions, Receive(Far, Clocks())); actions := actions + [Receive(Far, Clocks())];
    FarComesOnline();
    RunMore(p, actions, Lose(Near, 0));
    LosesOnly(RunLink(p, actions), Near, Carrying(Resume(0)));
    actions := actions + [Lose(Near, 0)];
    assert Carry([]) == [];
  }

  function Nth(n: nat): RemoteEvent {
    RemoteEvent(n, if n == 2 then RESYNC else "conversation", "")
  }

  function Emitting(h: History, n: nat): History {
    Step(h, Op.Emit(Nth(n).name, "", 0, 0), Bounds(512, 300_000))
  }

  function Journal(n: nat): History {
    if n == 0 then EMPTY_HISTORY else Emitting(Journal(n - 1), n)
  }

  function EntriesUpTo(n: nat): seq<Entry> {
    if n == 0 then [] else EntriesUpTo(n - 1) + [Entry(Nth(n), 0)]
  }

  lemma {:induction false} EntriesShape(n: nat)
    ensures |EntriesUpTo(n)| == n && forall i | 0 <= i < n :: EntriesUpTo(n)[i] == Entry(Nth(i + 1), 0)
  {
    if n > 0 {
      EntriesShape(n - 1);
    }
  }

  lemma {:induction false} JournalShape(n: nat)
    requires n <= 512
    ensures Journal(n).log == Log(EntriesUpTo(n), n, 0)
  {
    if n > 0 {
      JournalShape(n - 1);
      EntriesShape(n - 1);
      EntriesShape(n);
      var entries := EntriesUpTo(n);
      assert !MustEvict(entries, Bounds(512, 300_000), 0);
    }
  }

  function Asked(times: nat): History {
    if times == 0 then Step(Journal(4), Ack(1), Bounds(512, 300_000)) else Step(Asked(times - 1), Query(0), Bounds(512, 300_000))
  }

  const LAST_THREE := [Entry(Nth(2), 0), Entry(Nth(3), 0), Entry(Nth(4), 0)]

  lemma AcknowledgedOne()
    ensures Asked(0).log == Log(LAST_THREE, 4, 1)
  {
    JournalShape(4);
    EntriesShape(4);
    var entries := EntriesUpTo(4);
    assert entries[1..] == LAST_THREE;
    assert DropAcknowledged(entries, 1) == DropAcknowledged(entries[1..], 1) == LAST_THREE;
  }

  lemma {:induction false} AskedShape(times: nat)
    ensures Asked(times).log == Log(LAST_THREE, 4, 1)
  {
    if times == 0 {
      AcknowledgedOne();
    } else {
      AskedShape(times - 1);
      assert !MustEvict(LAST_THREE, Bounds(512, 300_000), 0);
    }
  }

  lemma AskedAnswer(times: nat)
    ensures ReplayAnswer(Asked(times).log, 1) == Some([Nth(2)] + [Nth(3), Nth(4)])
  {
    AskedShape(times);
    NewerMore(Nth(4), []);
    NewerMore(Nth(3), [Entry(Nth(4), 0)]);
    NewerMore(Nth(2), [Entry(Nth(3), 0), Entry(Nth(4), 0)]);
    assert [Entry(Nth(2), 0)] + ([Entry(Nth(3), 0), Entry(Nth(4), 0)]) == LAST_THREE;
    assert [Entry(Nth(3), 0)] + [Entry(Nth(4), 0)] == [Entry(Nth(3), 0), Entry(Nth(4), 0)];
    assert [Entry(Nth(4), 0)] + [] == [Entry(Nth(4), 0)];
    assert Newer(LAST_THREE, 1) == [Nth(2)] + ([Nth(3)] + ([Nth(4)] + []));
    assert [Nth(3)] + ([Nth(4)] + []) == [Nth(3), Nth(4)];
  }

  lemma NewerMore(event: RemoteEvent, rest: seq<Entry>)
    requires event.sequence > 1
    ensures Newer([Entry(event, 0)] + rest, 1) == [event] + Newer(rest, 1)
    ensures Newer([], 1) == []
  {
    assert ([Entry(event, 0)] + rest)[1..] == rest;
  }

  // What the receiver reads before the answers: the first event, and two events behind a gap.
  lemma AsksTwice(begun: seq<Action>) returns (actions: seq<Action>, notices: seq<Notice>)
    requires RunLink(Ends(), begun) == Shown(BEGINNING)
    ensures notices == CONNECTED + [Delivered(Nth(1))] + [StateChanged(Recovering)]
    ensures RunLink(Ends(), actions)
         == Shown(Scene(Journal(4), 0, [], Recovering, 1, notices, [Acknowledgement(1), Resume(1), Resume(1)], []))
  {
    hide Next, Shown, Step;
    JournalShape(0);
    JournalShape(1);
    JournalShape(2);
    JournalShape(3);
    var p, s := Ends(), BEGINNING;
    actions := begun;
    actions, s := EmitsMore(actions, s, 1);
    actions, s := ReadsMore(actions, s, Nth(1), []);
    actions, s := EmitsMore(actions, s, 2);
    RunMore(p, actions, Lose(Far, 0));
    Loses(s, Event(Nth(2)), []);
    actions, s := actions + [Lose(Far, 0)], s.(toFar := []);
    actions, s := EmitsMore(actions, s, 3);
    actions, s := ReadsMore(actions, s, Nth(3), []);
    actions, s := EmitsMore(actions, s, 4);
    actions, s := ReadsMore(actions, s, Nth(4), []);
    notices := s.notices;
    assert s.toNear == [Acknowledgement(1), Resume(1), Resume(1)];
    assert s == Scene(Journal(4), 0, [], Recovering, 1, notices, [Acknowledgement(1), Resume(1), Resume(1)], []);
  }

  lemma EmitsMore(before: seq<Action>, s: Scene, n: nat) returns (actions: seq<Action>, next: Scene)
    requires RunLink(Ends(), before) == Shown(s) && n > 0 && s.journal == Journal(n - 1) && s.journal.log.sequence == n - 1
    ensures next == s.(journal := Journal(n), toFar := s.toFar + [Event(Nth(n))])
    ensures RunLink(Ends(), actions) == Shown(next)
  {
    hide Next, Shown, Step;
    var action := EmitEvent(Near, Nth(n).name, "", CLOCK);
    RunMore(Ends(), before, action);
    Emits(s, Nth(n).name);
    actions, next := before + [action], s.(journal := Journal(n), toFar := s.toFar + [Event(Nth(n))]);
  }

  lemma ReadsMore(before: seq<Action>, s: Scene, event: RemoteEvent, rest: seq<SessionFrame>) returns (actions: seq<Action>, next: Scene)
    requires RunLink(Ends(), before) == Shown(s) && s.toFar == [Event(event)] + rest
    requires (s.state == Online || s.state == Recovering) && (event.name == RESYNC || event.sequence > s.last)
    ensures next ==
      if event.name == RESYNC || event.sequence == s.last + 1
      then s.(state := Online, last := event.sequence,
              notices := s.notices + (if s.state == Recovering then [StateChanged(Online)] else []) + [Delivered(event)],
              toNear := s.toNear + [Acknowledgement(event.sequence)], toFar := rest)
      else s.(state := Recovering, notices := s.notices + (if s.state == Online then [StateChanged(Recovering)] else []),
              toNear := s.toNear + [Resume(s.last)], toFar := rest)
    ensures RunLink(Ends(), actions) == Shown(next)
  {
    hide Next, Shown;
    RunMore(Ends(), before, Receive(Far, Clocks()));
    Reads(s, event, rest);
    actions := before + [Receive(Far, Clocks())];
    next := if event.name == RESYNC || event.sequence == s.last + 1
      then s.(state := Online, last := event.sequence,
              notices := s.notices + (if s.state == Recovering then [StateChanged(Online)] else []) + [Delivered(event)],
              toNear := s.toNear + [Acknowledgement(event.sequence)], toFar := rest)
      else s.(state := Recovering, notices := s.notices + (if s.state == Online then [StateChanged(Recovering)] else []),
              toNear := s.toNear + [Resume(s.last)], toFar := rest);
  }

  // One resume answered in full.
  lemma AnswersMore(before: seq<Action>, s: Scene, times: nat, rest: seq<SessionFrame>) returns (actions: seq<Action>, next: Scene)
    requires RunLink(Ends(), before) == Shown(s) && s.toNear == [Resume(1)] + rest && s.replays == [] && s.journal == Asked(times)
    ensures next == s.(journal := Asked(times + 1), toNear := rest,
                       toFar := s.toFar + [Event(Nth(2))] + [Event(Nth(3))] + [Event(Nth(4))])
    ensures RunLink(Ends(), actions) == Shown(next)
  {
    hide Next, Shown, Step, Nth;
    AskedAnswer(times + 1);
    Answers(s, 1, rest, Nth(2), [Nth(3), Nth(4)]);
    RunMore(Ends(), before, Receive(Near, Clocks()));
    var s1 := s.(journal := Asked(times + 1), replays := [[Nth(3), Nth(4)]], toNear := rest, toFar := s.toFar + [Event(Nth(2))]);
    var more := ContinueReplay(Near, 0);
    RunMore(Ends(), before + [Receive(Near, Clocks())], more);
    assert [Nth(3)] + [Nth(4)] == [Nth(3), Nth(4)] && [Nth(4)] + [] == [Nth(4)];
    Continues(s1, Nth(3), [Nth(4)]);
    var s2 := s1.(replays := [[Nth(4)]], toFar := s1.toFar + [Event(Nth(3))]);
    RunMore(Ends(), before + [Receive(Near, Clocks())] + [more], more);
    Continues(s2, Nth(4), []);
    var s3 := s2.(replays := [[]], toFar := s2.toFar + [Event(Nth(4))]);
    RunMore(Ends(), before + [Receive(Near, Clocks())] + [more] + [more], more);
    Finishes(s3);
    actions := before + [Receive(Near, Clocks())] + [more] + [more] + [more];
    next := s3.(replays := []);
  }

  lemma ReplayedTwice() returns (actions: seq<Action>, s: Scene)
    ensures RunLink(Ends(), actions) == Shown(s)
    ensures s.toFar == [Event(Nth(2)), Event(Nth(3)), Event(Nth(4)), Event(Nth(2)), Event(Nth(3)), Event(Nth(4))]
    ensures s.state == Recovering && s.last == 1
    ensures s.notices == CONNECTED + [Delivered(Nth(1))] + [StateChanged(Recovering)]
  {
    hide Next, Shown, Step, Nth;
    var begun := Introduced();
    var notices;
    actions, notices := AsksTwice(begun);
    s := Scene(Journal(4), 0, [], Recovering, 1, notices, [Acknowledgement(1), Resume(1), Resume(1)], []);
    RunMore(Ends(), actions, Receive(Near, Clocks()));
    assert s.toNear == [Acknowledgement(1)] + [Resume(1), Resume(1)];
    Acknowledges(s, 1, [Resume(1), Resume(1)]);
    actions, s := actions + [Receive(Near, Clocks())], s.(lastAck := 1, journal := Asked(0), toNear := [Resume(1), Resume(1)]);
    assert s.toNear == [Resume(1)] + [Resume(1)];
    actions, s := AnswersMore(actions, s, 0, [Resume(1)]);
    assert s.toNear == [Resume(1)] + [];
    actions, s := AnswersMore(actions, s, 1, []);
  }

  // Reading three events that follow one another.
  lemma ReadsThree(before: seq<Action>, s: Scene, rest: seq<SessionFrame>) returns (actions: seq<Action>, next: Scene)
    requires RunLink(Ends(), before) == Shown(s)
    requires s.toFar == [Event(Nth(2))] + ([Event(Nth(3))] + ([Event(Nth(4))] + rest))
    requires (s.state == Recovering && s.last == 1) || (s.state == Online && Nth(2).name == RESYNC)
    ensures RunLink(Ends(), actions) == Shown(next)
    ensures next.state == Online && next.last == 4 && next.toFar == rest
    ensures next.notices == s.notices + (if s.state == Recovering then [StateChanged(Online)] else [])
                            + [Delivered(Nth(2))] + [Delivered(Nth(3))] + [Delivered(Nth(4))]
  {
    hide Next, Shown;
    actions, next := ReadsMore(before, s, Nth(2), [Event(Nth(3))] + ([Event(Nth(4))] + rest));
    actions, next := ReadsMore(actions, next, Nth(3), [Event(Nth(4))] + rest);
    actions, next := ReadsMore(actions, next, Nth(4), rest);
  }

  // Every event after the first one reaches the application twice.
  lemma EventsRepeatInARun() returns (actions: seq<Action>)
    ensures Deliveries(ConnOf(RunLink(Ends(), actions), Far).notices)
         == [Nth(1), Nth(2), Nth(3), Nth(4), Nth(2), Nth(3), Nth(4)]
  {
    hide Next, Step, Deliveries, Talking;
    var s;
    actions, s := ReplayedTwice();
    var start := s.notices;
    var three := [Event(Nth(2)), Event(Nth(3)), Event(Nth(4))];
    assert s.toFar == [Event(Nth(2))] + ([Event(Nth(3))] + ([Event(Nth(4))] + three));
    actions, s := ReadsThree(actions, s, three);
    assert s.toFar == [Event(Nth(2))] + ([Event(Nth(3))] + ([Event(Nth(4))] + []));
    actions, s := ReadsThree(actions, s, []);
    var once := start + [StateChanged(Online)];
    var twice := once + [Delivered(Nth(2))] + [Delivered(Nth(3))] + [Delivered(Nth(4))];
    assert twice + [] == twice;
    assert s.notices == twice + [Delivered(Nth(2))] + [Delivered(Nth(3))] + [Delivered(Nth(4))];
    GivenByStart();
    DeliveriesOfTold(start, StateChanged(Online));
    DeliveriesOfThree(once);
    DeliveriesOfThree(twice);
    FarNotices(s);
  }

  lemma FarNotices(s: Scene)
    ensures ConnOf(Shown(s), Far).notices == s.notices
  {
  }

  lemma DeliveriesOfThree(notices: seq<Notice>)
    ensures Deliveries(notices + [Delivered(Nth(2))] + [Delivered(Nth(3))] + [Delivered(Nth(4))])
         == Deliveries(notices) + [Nth(2)] + [Nth(3)] + [Nth(4)]
  {
    hide Deliveries, Nth;
    DeliveriesOfTold(notices, Delivered(Nth(2)));
    DeliveriesOfTold(notices + [Delivered(Nth(2))], Delivered(Nth(3)));
    DeliveriesOfTold(notices + [Delivered(Nth(2))] + [Delivered(Nth(3))], Delivered(Nth(4)));
  }

  lemma GivenByStart()
    ensures Deliveries(CONNECTED + [Delivered(Nth(1))] + [StateChanged(Recovering)]) == [Nth(1)]
  {
    DeliveriesOfTold([], StateChanged(Connecting));
    DeliveriesOfTold([StateChanged(Connecting)], StateChanged(Online));
    DeliveriesOfTold(CONNECTED, Delivered(Nth(1)));
    DeliveriesOfTold(CONNECTED + [Delivered(Nth(1))], StateChanged(Recovering));
    assert [] + [StateChanged(Connecting)] == [StateChanged(Connecting)];
    assert [StateChanged(Connecting)] + [StateChanged(Online)] == CONNECTED;
  }
}
