/**
 Registering policy extensions and undoing registrations (packages/agent-team/src/extensions.ts).
 Two policies are equal when they are the same object.
 */
module ExtensionHost {
  import opened Results
  import opened Utf16

  datatype Policy = Policy(id: Text, object: nat)

  type Policies = map<Text, Policy>

  datatype Contribution = Contribution(orchestration: Policies, context: Policies)

  datatype Host = Host(orchestration: Policies, context: Policies)

  datatype RegistrationError = KeyMismatch | OrchestrationExists | ContextExists

  // What a disposer remembers: what it registered, and what was there before.
  datatype Undo = Undo(added: Contribution, previous: Contribution)

  predicate KeysMatch(policies: Policies) {
    forall id | id in policies :: policies[id].id == id
  }

  function Rejection(host: Host, added: Contribution, replace: bool): Option<RegistrationError> {
    if !KeysMatch(added.orchestration) || !KeysMatch(added.context) then Some(KeyMismatch)
    else if !replace && exists id | id in added.orchestration :: id in host.orchestration then Some(OrchestrationExists)
    else if !replace && exists id | id in added.context :: id in host.context then Some(ContextExists)
    else None
  }

  function Previous(policies: Policies, added: Policies): Policies {
    map id | id in added && id in policies :: policies[id]
  }

  function AfterRegister(host: Host, added: Contribution): Host {
    Host(host.orchestration + added.orchestration, host.context + added.context)
  }

  function UndoOf(host: Host, added: Contribution): Undo {
    Undo(added, Contribution(Previous(host.orchestration, added.orchestration), Previous(host.context, added.context)))
  }

  // Only what is still the registered policy is taken back.
  function Restored(policies: Policies, added: Policies, previous: Policies): Policies {
    map id | id in policies && (id !in added || policies[id] != added[id] || id in previous) ::
      if id in added && policies[id] == added[id] then previous[id] else policies[id]
  }

  function AfterUndo(host: Host, undo: Undo): Host {
    Host(Restored(host.orchestration, undo.added.orchestration, undo.previous.orchestration),
         Restored(host.context, undo.added.context, undo.previous.context))
  }

  class RegistryHost {
    var orchestration: Policies
    var context: Policies

    ghost function View(): Host
      reads this
    {
      Host(orchestration, context)
    }

    constructor (base: Host)
      ensures View() == base
    {
      orchestration, context := base.orchestration, base.context;
    }

    method Register(added: Contribution, replace: bool) returns (result: Result<Disposer, RegistrationError>)
      modifies this
      ensures match Rejection(old(View()), added, replace)
              case Some(error) => View() == old(View()) && result == Err(error)
              case None =>
                && View() == AfterRegister(old(View()), added)
                && result.Ok? && fresh(result.value) && result.value.host == this
                && result.value.active && result.value.undo == UndoOf(old(View()), added)
    {
      if !KeysMatch(added.orchestration) || !KeysMatch(added.context) {
        return Err(KeyMismatch);
      }
      if !replace {
        if exists id | id in added.orchestration :: id in orchestration {
          return Err(OrchestrationExists);
        }
        if exists id | id in added.context :: id in context {
          return Err(ContextExists);
        }
      }
      var previous := Contribution(Previous(orchestration, added.orchestration), Previous(context, added.context));
      orchestration := WithAdded(orchestration, added.orchestration);
      context := WithAdded(context, added.context);
      var disposer := new Disposer(this, Undo(added, previous));
      result := Ok(disposer);
    }

    static method WithAdded(policies: Policies, added: Policies) returns (after: Policies)
      ensures after == policies + added
    {
      after := policies;
      var left := added.Keys;
      while left != {}
        invariant left <= added.Keys
        invariant after.Keys == policies.Keys + (added.Keys - left)
        invariant forall id | id in after :: after[id] == if id in added && id !in left then added[id] else policies[id]
        decreases |left|
      {
        var id :| id in left;
        after := after[id := added[id]];
        left := left - {id};
      }
    }
  }

  class Disposer {
    const host: RegistryHost
    const undo: Undo
    var active: bool

    constructor (host: RegistryHost, undo: Undo)
      ensures this.host == host && this.undo == undo && active
    {
      this.host, this.undo, active := host, undo, true;
    }

    // A second call does nothing.
    method Dispose()
      modifies this, host
      ensures !active
      ensures host.View() == if old(active) then AfterUndo(old(host.View()), undo) else old(host.View())
    {
      if !active {
        return;
      }
      active := false;
      var orchestration := TakenBack(host.orchestration, undo.added.orchestration, undo.previous.orchestration);
      host.orchestration := orchestration;
      var context := TakenBack(host.context, undo.added.context, undo.previous.context);
      host.context := context;
    }

    static method TakenBack(policies: Policies, added: Policies, previous: Policies) returns (after: Policies)
      ensures after == Restored(policies, added, previous)
    {
      after := policies;
      var left := added.Keys;
      while left != {}
        invariant left <= added.Keys
        invariant forall id :: id in after <==>
          id in policies && (id in left || id !in added || policies[id] != added[id] || id in previous)
        invariant forall id | id in after ::
          after[id] == if id !in left && id in added && policies[id] == added[id] then previous[id] else policies[id]
        decreases |left|
      {
        var id :| id in left;
        if id in after && after[id] == added[id] {
          if id in previous {
            after := after[id := previous[id]];
          } else {
            after := after - {id};
          }
        }
        left := left - {id};
      }
    }
  }

  // One registration, one disposal

  // The policy under an identifier, if there is one.
  function At(policies: Policies, id: Text): Option<Policy> {
    if id in policies then Some(policies[id]) else None
  }

  predicate Mismatched(policies: Policies) {
    exists id | id in policies :: policies[id].id != id
  }

  // A registration is rejected exactly if a policy is given under another identifier than its own or, unless
  // it replaces, under one that is taken; policies for orchestration are looked at first.
  lemma RejectedExactly(host: Host, added: Contribution, replace: bool)
    ensures
      var rejection := Rejection(host, added, replace);
      var mismatched := Mismatched(added.orchestration) || Mismatched(added.context);
      var orchestrationTaken := exists id :: At(added.orchestration, id).Some? && At(host.orchestration, id).Some?;
      var contextTaken := exists id :: At(added.context, id).Some? && At(host.context, id).Some?;
      && (rejection == Some(KeyMismatch) <==> mismatched)
      && (rejection == Some(OrchestrationExists) <==> !mismatched && !replace && orchestrationTaken)
      && (rejection == Some(ContextExists) <==> !mismatched && !replace && !orchestrationTaken && contextTaken)
  {
    if id :| id in added.orchestration && id in host.orchestration {
      assert At(added.orchestration, id).Some? && At(host.orchestration, id).Some?;
    }
    if id :| id in added.context && id in host.context {
      assert At(added.context, id).Some? && At(host.context, id).Some?;
    }
  }

  // An accepted registration puts every added policy into its map, and leaves all others as they were.
  lemma RegistersExactly(host: Host, added: Contribution, id: Text)
    ensures
      var after := AfterRegister(host, added);
      && At(after.orchestration, id) ==
         (if At(added.orchestration, id).Some? then At(added.orchestration, id) else At(host.orchestration, id))
      && At(after.context, id) == (if At(added.context, id).Some? then At(added.context, id) else At(host.context, id))
  {
  }

  // A disposal puts back what its registration had found, wherever its own policy is still registered.
  lemma TakesBackItsOwn(found: Host, added: Contribution, host: Host, id: Text)
    ensures
      var after := AfterUndo(host, UndoOf(found, added));
      && At(after.orchestration, id) ==
         (if At(added.orchestration, id).Some? && At(host.orchestration, id) == At(added.orchestration, id)
          then At(found.orchestration, id) else At(host.orchestration, id))
      && At(after.context, id) ==
         (if At(added.context, id).Some? && At(host.context, id) == At(added.context, id)
          then At(found.context, id) else At(host.context, id))
  {
  }

  // Nested sessions

  // Something registered, then other sessions, then, if it was not rejected, the disposal.
  datatype Session = Session(added: Contribution, replace: bool, within: Sessions)

  datatype Sessions = Done | Next(first: Session, rest: Sessions)

  function AfterSession(host: Host, session: Session): Host
    decreases session, 0
  {
    if Rejection(host, session.added, session.replace).Some? then AfterSessions(host, session.within)
    else AfterUndo(AfterSessions(AfterRegister(host, session.added), session.within), UndoOf(host, session.added))
  }

  function AfterSessions(host: Host, sessions: Sessions): Host
    decreases sessions, 0
  {
    match sessions
    case Done => host
    case Next(first, rest) => AfterSessions(AfterSession(host, first), rest)
  }

  lemma UndoneAtOnce(policies: Policies, added: Policies)
    ensures Restored(policies + added, added, Previous(policies, added)) == policies
  {
  }

  // However registrations and disposals are nested, with or without `replace`, both maps end as they began.
  lemma {:induction false} NestedSessionsRestore(host: Host, sessions: Sessions)
    ensures AfterSessions(host, sessions) == host
    decreases sessions, 0
  {
    match sessions
    case Done =>
    case Next(first, rest) =>
      SessionRestores(host, first);
      NestedSessionsRestore(host, rest);
  }

  lemma {:induction false} SessionRestores(host: Host, session: Session)
    ensures AfterSession(host, session) == host
    decreases session, 0
  {
    if Rejection(host, session.added, session.replace).Some? {
      NestedSessionsRestore(host, session.within);
    } else {
      NestedSessionsRestore(AfterRegister(host, session.added), session.within);
      UndoneAtOnce(host.orchestration, session.added.orchestration);
      UndoneAtOnce(host.context, session.added.context);
    }
  }

  // Two registrations disposed in the order in which they were made restore a map exactly when, for
  // every identifier that both registered with different policies, the first one's policy had been
  // there before. Otherwise the second disposal brings a policy back whose own registration is already
  // disposed.
  lemma OutOfOrderRestoresExactly(policies: Policies, first: Policies, second: Policies)
    ensures
      var both := policies + first + second;
      var afterFirst := Restored(both, first, Previous(policies, first));
      var after := Restored(afterFirst, second, Previous(policies + first, second));
      after == policies <==>
      forall id | id in first && id in second && first[id] != second[id] :: id in policies && policies[id] == first[id]
  {
    var both := policies + first + second;
    var afterFirst := Restored(both, first, Previous(policies, first));
    var after := Restored(afterFirst, second, Previous(policies + first, second));
    forall id | id in first && id in second && first[id] != second[id]
      ensures id in after && after[id] == first[id]
    {
      assert both[id] == second[id] && afterFirst[id] == second[id];
    }
    forall id | !(id in first && id in second && first[id] != second[id])
      ensures id in after <==> id in policies
      ensures id in after ==> after[id] == policies[id]
    {
    }
    if forall id | id in first && id in second && first[id] != second[id] :: id in policies && policies[id] == first[id] {
      assert after.Keys == policies.Keys;
    }
  }

  // Both maps of a host are restored exactly under that condition on each.
  lemma HostOutOfOrderRestoresExactly(host: Host, first: Contribution, second: Contribution)
    ensures
      var once := AfterRegister(host, first);
      var twice := AfterRegister(once, second);
      AfterUndo(AfterUndo(twice, UndoOf(host, first)), UndoOf(once, second)) == host <==>
      forall id ::
        && (id in first.orchestration && id in second.orchestration && first.orchestration[id] != second.orchestration[id] ==>
              At(host.orchestration, id) == Some(first.orchestration[id]))
        && (id in first.context && id in second.context && first.context[id] != second.context[id] ==>
              At(host.context, id) == Some(first.context[id]))
  {
    hide Restored, Previous;
    OutOfOrderRestoresExactly(host.orchestration, first.orchestration, second.orchestration);
    OutOfOrderRestoresExactly(host.context, first.context, second.context);
  }

  // Two replacing registrations of one identifier, disposed in the order in which they were made: the
  // first one's policies are back although its registration is disposed.
  lemma EarlierPolicyComesBack(id: Text)
    ensures
      var first, second := map[id := Policy(id, 1)], map[id := Policy(id, 2)];
      var one, two := Contribution(first, first), Contribution(second, second);
      var empty := Host(map[], map[]);
      var registered := AfterRegister(AfterRegister(empty, one), two);
      && Rejection(empty, one, true).None? && Rejection(AfterRegister(empty, one), two, true).None?
      && AfterUndo(AfterUndo(registered, UndoOf(empty, one)), UndoOf(AfterRegister(empty, one), two)) == Host(first, first)
  {
    var first, second := map[id := Policy(id, 1)], map[id := Policy(id, 2)];
    var one, two := Contribution(first, first), Contribution(second, second);
    var empty := Host(map[], map[]);
    var registered := AfterRegister(AfterRegister(empty, one), two);
    var after := AfterUndo(AfterUndo(registered, UndoOf(empty, one)), UndoOf(AfterRegister(empty, one), two));
    PolicyComesBack(id, first, second);
    assert AfterRegister(empty, one) == Host(first, first);
  }

  lemma PolicyComesBack(id: Text, first: Policies, second: Policies)
    requires first == map[id := Policy(id, 1)] && second == map[id := Policy(id, 2)]
    ensures map[] + first == first && first + second == second
    ensures Restored(Restored(second, first, Previous(map[], first)), second, Previous(first, second)) == first
  {
    assert Previous(map[], first) == map[] && Previous(first, second) == first;
    assert Restored(second, first, map[]) == second;
  }
}
