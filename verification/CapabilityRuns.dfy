/**
 Every interleaving of registrations, disposals, revocations and invocations over both layers
 (packages/capability-runtime/src/hub.ts, registry.ts, access.ts).
 */
module CapabilityRuns {
  import opened Results
  import opened Utf16
  import opened Capabilities
  import opened CapabilityAccess
  import opened CapabilityOwnership

  // One registry and the handles it has given out.
  datatype Side = Side(registry: Registry, issued: set<Handle>)

  // An invocation between its start and its finish; `generation` is the registration that serves it.
  datatype Call = Call(session: nat, layer: Layer, ownerId: Text, generation: nat, requestAborted: bool)

  datatype World = World(foundation: Side, domain: Side, sessions: map<nat, Session>, calls: map<nat, Call>)

  const INITIAL := World(Side(EMPTY_REGISTRY, {}), Side(EMPTY_REGISTRY, {}), map[], map[])

  datatype Event =
    | Register(layer: Layer, ownerId: Text, bindings: seq<Token>)
    | RegisterModule(layer: Layer, m: Module, bindings: seq<Token>, trust: Trust)
    | DisposeHandle(layer: Layer, handle: Handle)
    | OpenSession(session: nat, options: SessionOptions)
    | Revoke(session: nat)
    | AbortRequest(call: nat)
    | Begin(call: nat, session: nat, request: Request)
    | End(call: nat)

  function SideOf(w: World, layer: Layer): Side {
    if layer == Foundation then w.foundation else w.domain
  }

  function WithSide(w: World, layer: Layer, side: Side): World {
    if layer == Foundation then w.(foundation := side) else w.(domain := side)
  }

  function Registering(side: Side, registered: Registered): Side {
    Side(registered.registry, if registered.result.Ok? then side.issued + {registered.result.value} else side.issued)
  }

  function Registration(w: World, e: Event): Registered
    requires e.Register? || e.RegisterModule?
  {
    var r := SideOf(w, e.layer).registry;
    if e.Register? then AfterRegister(r, e.layer, e.ownerId, e.bindings)
    else AfterModule(r, e.layer, e.m, e.bindings, e.trust)
  }

  function OwnerOf(e: Event): Text
    requires e.Register? || e.RegisterModule?
  {
    if e.Register? then e.ownerId else ModuleOwner(e.m)
  }

  // The provider that serves a new invocation, once the session has let it through.
  function Serving(w: World, call: nat, session: nat, request: Request): Option<Provider> {
    if call in w.calls || session !in w.sessions || Authorize(w.sessions[session], request).error.Some? then None
    else match StartInvoke(SideOf(w, request.capability.layer).registry, request.capability, false)
      case Ok(provider) => Some(provider)
      case Err(_) => None
  }

  function Step(w: World, e: Event): World {
    match e
    case Register(layer, _, _) => WithSide(w, layer, Registering(SideOf(w, layer), Registration(w, e)))
    case RegisterModule(layer, _, _, _) => WithSide(w, layer, Registering(SideOf(w, layer), Registration(w, e)))
    case DisposeHandle(layer, handle) =>
      var side := SideOf(w, layer);
      if handle in side.issued then WithSide(w, layer, side.(registry := AfterDispose(side.registry, handle))) else w
    case OpenSession(session, options) =>
      var created := NewSession(w.foundation.registry.providers.Keys + w.domain.registry.providers.Keys, options);
      if session !in w.sessions && created.Ok? then w.(sessions := w.sessions[session := created.value]) else w
    case Revoke(session) =>
      if session in w.sessions then w.(sessions := w.sessions[session := AfterRevoke(w.sessions[session])]) else w
    case AbortRequest(call) =>
      if call in w.calls then w.(calls := w.calls[call := w.calls[call].(requestAborted := true)]) else w
    case Begin(call, session, request) =>
      (match Serving(w, call, session, request)
       case Some(p) =>
         w.(calls := w.calls[call := Call(session, request.capability.layer, p.ownerId, p.generation, false)])
       case None => w)
    case End(call) => w.(calls := w.calls - {call})
  }

  function RunFrom(w: World, events: seq<Event>): World {
    if events == [] then w else Step(RunFrom(w, events[..|events| - 1]), events[|events| - 1])
  }

  // The combined signal that an invocation watches.
  predicate SignalAborted(w: World, call: Call) {
    || call.requestAborted
    || (call.session in w.sessions && w.sessions[call.session].aborted)
    || call.generation in SideOf(w, call.layer).registry.aborted
  }

  function Outcome(w: World, call: nat, result: ProviderResult): Option<CapabilityError>
    requires call in w.calls
  {
    FinishInvoke(SignalAborted(w, w.calls[call]), result)
  }

  // The events that end the right of an invocation to succeed: its registration is replaced by an
  // accepted registration of the same owner or is disposed, its session is revoked, its request aborted.
  predicate Interrupts(w: World, e: Event, number: nat, call: Call) {
    match e
    case Register(layer, ownerId, _) => layer == call.layer && ownerId == call.ownerId && Registration(w, e).result.Ok?
    case RegisterModule(layer, m, _, _) => layer == call.layer && ModuleOwner(m) == call.ownerId && Registration(w, e).result.Ok?
    case DisposeHandle(layer, handle) => layer == call.layer && handle == Handle(call.ownerId, call.generation)
    case Revoke(session) => session == call.session
    case AbortRequest(other) => other == number
    case _ => false
  }

  ghost predicate Live(r: Registry, generation: nat) {
    exists id :: id in r.providers && r.providers[id].generation == generation
  }

  // An invocation is served by a registration whose providers are still there, unless it was aborted.
  ghost predicate CallSound(w: World, call: Call) {
    var side := SideOf(w, call.layer);
    && call.session in w.sessions
    && Handle(call.ownerId, call.generation) in side.issued
    && (call.generation !in side.registry.aborted ==> Live(side.registry, call.generation))
  }

  ghost predicate Inv(w: World) {
    && Sound(w.foundation.registry, Foundation, w.foundation.issued)
    && Sound(w.domain.registry, Domain, w.domain.issued)
    && (forall s | s in w.sessions :: w.sessions[s].revoked == w.sessions[s].aborted)
    && (forall c | c in w.calls :: CallSound(w, w.calls[c]))
  }

  lemma ModuleRegistersOwner(r: Registry, layer: Layer, m: Module, bindings: seq<Token>, trust: Trust)
    ensures AfterModule(r, layer, m, bindings, trust).result.Ok? ==>
      AfterModule(r, layer, m, bindings, trust) == AfterRegister(r, layer, ModuleOwner(m), bindings)
    ensures AfterModule(r, layer, m, bindings, trust).result.Err? ==> AfterModule(r, layer, m, bindings, trust).registry == r
  {
    hide AfterRegister;
    ModuleBindsExactly(r, layer, m, bindings, trust);
  }

  // After an accepted registration exactly the owner's live registration has been aborted.
  lemma RegisterAborts(side: Side, layer: Layer, ownerId: Text, bindings: seq<Token>, h: Handle)
    requires Sound(side.registry, layer, side.issued) && h in side.issued
    requires AfterRegister(side.registry, layer, ownerId, bindings).result.Ok?
    ensures
      var r, next := side.registry, AfterRegister(side.registry, layer, ownerId, bindings).registry;
      && (h.generation in next.aborted <==> h.generation in r.aborted || (Live(r, h.generation) && h.ownerId == ownerId))
      && (h.generation !in next.aborted && Live(r, h.generation) ==> Live(next, h.generation))
  {
    hide AfterRegister;
    var r, next := side.registry, AfterRegister(side.registry, layer, ownerId, bindings).registry;
    RegistrationAllOrNothing(r, layer, ownerId, bindings);
    if Live(r, h.generation) {
      var id :| id in r.providers && r.providers[id].generation == h.generation;
      var p := r.providers[id];
      assert Handle(p.ownerId, p.generation) in side.issued;
      assert p.ownerId == h.ownerId;
      if h.ownerId == ownerId {
        assert p.controller in ControllersOf(r.providers, ownerId);
      } else {
        assert id in next.providers && next.providers[id] == p;
      }
    }
    if h.generation in ControllersOf(r.providers, ownerId) {
      var id :| id in r.providers && r.providers[id].ownerId == ownerId && r.providers[id].controller == h.generation;
      assert Handle(r.providers[id].ownerId, r.providers[id].generation) in side.issued;
    }
  }

  lemma DisposeAborts(side: Side, layer: Layer, handle: Handle, h: Handle)
    requires Sound(side.registry, layer, side.issued) && h in side.issued && handle in side.issued
    ensures
      var r, next := side.registry, AfterDispose(side.registry, handle);
      && (h.generation in next.aborted <==> h.generation in r.aborted || h == handle)
      && (h.generation !in next.aborted && Live(r, h.generation) ==> Live(next, h.generation))
  {
    var r, next := side.registry, AfterDispose(side.registry, handle);
    if h != handle && Live(r, h.generation) {
      var id :| id in r.providers && r.providers[id].generation == h.generation;
      assert id in next.providers && next.providers[id].generation == h.generation;
    }
  }

  // Whether the controller of a registration is aborted, and whether its providers are still there,
  // after an event at its registry.
  lemma EventAborts(w: World, e: Event, number: nat, call: Call)
    requires Inv(w) && CallSound(w, call) && (e.Register? || e.RegisterModule? || e.DisposeHandle?)
    ensures
      var side, next := SideOf(w, call.layer), SideOf(Step(w, e), call.layer);
      && side.issued <= next.issued
      && (call.generation in next.registry.aborted <==> call.generation in side.registry.aborted || Interrupts(w, e, number, call))
      && (call.generation !in next.registry.aborted ==> Live(next.registry, call.generation))
  {
    hide AfterRegister, AfterDispose, AfterModule, Sound, Live;
    var side := SideOf(w, call.layer);
    var h := Handle(call.ownerId, call.generation);
    if e.layer == call.layer {
      if e.DisposeHandle? {
        if e.handle in side.issued {
          DisposeAborts(side, call.layer, e.handle, h);
        }
      } else {
        if e.RegisterModule? {
          ModuleRegistersOwner(side.registry, e.layer, e.m, e.bindings, e.trust);
        } else {
          RegistrationAllOrNothing(side.registry, e.layer, e.ownerId, e.bindings);
        }
        if Registration(w, e).result.Ok? {
          RegisterAborts(side, call.layer, OwnerOf(e), e.bindings, h);
        }
      }
    }
  }

  lemma SideKept(w: World, e: Event, layer: Layer)
    requires Sound(SideOf(w, layer).registry, layer, SideOf(w, layer).issued)
    ensures Sound(SideOf(Step(w, e), layer).registry, layer, SideOf(Step(w, e), layer).issued)
  {
    hide AfterRegister, AfterDispose, AfterModule, Sound, NewSession, StartInvoke, Authorize;
    var side := SideOf(w, layer);
    if (e.Register? || e.RegisterModule? || e.DisposeHandle?) && e.layer == layer {
      if e.DisposeHandle? {
        if e.handle in side.issued {
          DisposeKeepsSound(side.registry, layer, side.issued, e.handle);
        }
      } else {
        if e.RegisterModule? {
          ModuleRegistersOwner(side.registry, layer, e.m, e.bindings, e.trust);
        } else {
          RegistrationAllOrNothing(side.registry, layer, e.ownerId, e.bindings);
        }
        RegistrationHandle(side.registry, layer, OwnerOf(e), e.bindings);
        if Registration(w, e).result.Ok? {
          RegisterKeepsSound(side.registry, layer, side.issued, OwnerOf(e), e.bindings);
        }
      }
    }
  }

  lemma RegistrationHandle(r: Registry, layer: Layer, ownerId: Text, bindings: seq<Token>)
    ensures AfterRegister(r, layer, ownerId, bindings).result.Ok? ==>
      AfterRegister(r, layer, ownerId, bindings).result.value == Handle(ownerId, r.created)
  {
  }

  // One event aborts the signal of a running invocation exactly when it interrupts it.
  lemma StepSignals(w: World, e: Event, number: nat)
    requires Inv(w) && number in w.calls && e != End(number)
    ensures
      var after := Step(w, e);
      && number in after.calls
      && after.calls[number].(requestAborted := w.calls[number].requestAborted) == w.calls[number]
      && CallSound(after, after.calls[number])
      && (SignalAborted(after, after.calls[number]) <==>
            SignalAborted(w, w.calls[number]) || Interrupts(w, e, number, w.calls[number]))
  {
    hide AfterRegister, AfterDispose, AfterModule, Sound, NewSession, StartInvoke, Authorize, Live;
    var call := w.calls[number];
    if e.Register? || e.RegisterModule? || e.DisposeHandle? {
      EventAborts(w, e, number, call);
    }
  }

  lemma BeginSound(w: World, e: Event)
    requires Inv(w) && e.Begin? && Serving(w, e.call, e.session, e.request).Some?
    ensures
      var after := Step(w, e);
      && e.call in after.calls
      && after.calls[e.call].session == e.session
      && CallSound(after, after.calls[e.call])
      && !SignalAborted(after, after.calls[e.call])
  {
    var side := SideOf(w, e.request.capability.layer);
    var p := Serving(w, e.call, e.session, e.request).value;
    assert Sound(side.registry, e.request.capability.layer, side.issued);
    assert side.registry.providers[e.request.capability.id] == p;
  }

  lemma StepKeepsInv(w: World, e: Event)
    requires Inv(w)
    ensures Inv(Step(w, e))
  {
    hide AfterRegister, AfterDispose, AfterModule, Sound, NewSession, StartInvoke, Authorize, Live, CallSound;
    SideKept(w, e, Foundation);
    SideKept(w, e, Domain);
    var after := Step(w, e);
    forall c | c in after.calls
      ensures CallSound(after, after.calls[c])
    {
      if e.Begin? && e.call == c && c !in w.calls {
        BeginSound(w, e);
      } else {
        StepSignals(w, e, c);
      }
    }
    SessionsKept(w, e);
  }

  lemma SessionsKept(w: World, e: Event)
    requires forall s | s in w.sessions :: w.sessions[s].revoked == w.sessions[s].aborted
    ensures forall s | s in Step(w, e).sessions :: Step(w, e).sessions[s].revoked == Step(w, e).sessions[s].aborted
  {
    hide AfterRegister, AfterDispose, AfterModule, StartInvoke, Authorize;
  }

  lemma {:induction false} RunKeepsInv(events: seq<Event>)
    ensures Inv(RunFrom(INITIAL, events))
  {
    hide Inv, Step;
    if events == [] {
      InitialSound();
    } else {
      RunKeepsInv(events[..|events| - 1]);
      StepKeepsInv(RunFrom(INITIAL, events[..|events| - 1]), events[|events| - 1]);
    }
  }

  lemma InitialSound()
    ensures Inv(INITIAL)
  {
  }

  predicate Interrupted(w: World, between: seq<Event>, number: nat, call: Call) {
    exists k | 0 <= k < |between| :: Interrupts(RunFrom(w, between[..k]), between[k], number, call)
  }

  lemma InterruptedLast(w: World, between: seq<Event>, number: nat, call: Call)
    requires between != []
    ensures
      var earlier := between[..|between| - 1];
      Interrupted(w, between, number, call)
      <==> Interrupted(w, earlier, number, call) || Interrupts(RunFrom(w, earlier), between[|between| - 1], number, call)
  {
    hide Interrupts, RunFrom;
    var earlier := between[..|between| - 1];
    forall k | 0 <= k < |earlier|
      ensures between[..k] == earlier[..k] && between[k] == earlier[k]
    {
    }
  }

  // From the start of an invocation its signal is aborted exactly when some event interrupted it.
  lemma {:induction false} SignalsAlong(w: World, between: seq<Event>, number: nat)
    requires Inv(w) && number in w.calls && !SignalAborted(w, w.calls[number]) && End(number) !in between
    ensures
      var after := RunFrom(w, between);
      && Inv(after) && number in after.calls
      && after.calls[number].(requestAborted := w.calls[number].requestAborted) == w.calls[number]
      && (SignalAborted(after, after.calls[number]) <==> Interrupted(w, between, number, w.calls[number]))
  {
    hide Inv, Step, SignalAborted, CallSound, Interrupts;
    if between != [] {
      var earlier, e := between[..|between| - 1], between[|between| - 1];
      assert e in between && forall x | x in earlier :: x in between;
      SignalsAlong(w, earlier, number);
      var middle := RunFrom(w, earlier);
      StepKeepsInv(middle, e);
      StepSignals(middle, e, number);
      InterruptedLast(w, between, number, w.calls[number]);
      SameInterrupts(middle, e, number, middle.calls[number], w.calls[number]);
    }
  }

  lemma SameInterrupts(w: World, e: Event, number: nat, a: Call, b: Call)
    requires a.(requestAborted := b.requestAborted) == b
    ensures Interrupts(w, e, number, a) <==> Interrupts(w, e, number, b)
  {
  }

  // After any run, an invocation that was let through succeeds exactly when its provider gives a
  // readable output and nothing interrupted it before it finished.
  lemma InvocationSucceedsExactly(
      run: seq<Event>, number: nat, session: nat, request: Request, between: seq<Event>, result: ProviderResult)
    requires Serving(RunFrom(INITIAL, run), number, session, request).Some? && End(number) !in between
    ensures
      var start := Step(RunFrom(INITIAL, run), Begin(number, session, request));
      var finish := RunFrom(start, between);
      && number in start.calls && number in finish.calls
      && (Outcome(finish, number, result).None? <==> result.Output? && !Interrupted(start, between, number, start.calls[number]))
      && (Interrupted(start, between, number, start.calls[number]) && !result.ThrewCapabilityError? ==>
            Outcome(finish, number, result) == Some(Aborted))
  {
    hide Inv, Step, SignalAborted, Serving, Interrupted;
    var w, e := RunFrom(INITIAL, run), Begin(number, session, request);
    RunKeepsInv(run);
    BeginSound(w, e);
    StepKeepsInv(w, e);
    SignalsAlong(Step(w, e), between, number);
  }

  // In every reachable state the registries are sound: each owner's providers share one generation
  // and one controller, which is not aborted.
  lemma OneRegistrationPerOwner(run: seq<Event>, layer: Layer, i: Text, j: Text)
    requires i in SideOf(RunFrom(INITIAL, run), layer).registry.providers
    requires j in SideOf(RunFrom(INITIAL, run), layer).registry.providers
    requires SideOf(RunFrom(INITIAL, run), layer).registry.providers[i].ownerId
          == SideOf(RunFrom(INITIAL, run), layer).registry.providers[j].ownerId
    ensures
      var r := SideOf(RunFrom(INITIAL, run), layer).registry;
      && r.providers[i].generation == r.providers[j].generation
      && r.providers[i].controller == r.providers[j].controller
      && r.providers[i].controller !in r.aborted
      && r.providers[i].token.id == i && r.providers[i].token.layer == layer
  {
    RunKeepsInv(run);
  }

  // In every reachable state a disposer whose registration was replaced or disposed removes nothing.
  lemma StaleDisposerInEveryRun(run: seq<Event>, layer: Layer, handle: Handle)
    requires handle in SideOf(RunFrom(INITIAL, run), layer).issued
    ensures
      var side := SideOf(RunFrom(INITIAL, run), layer);
      || handle.generation in side.registry.aborted
      || (exists newer | newer in side.issued :: newer.ownerId == handle.ownerId && newer.generation > handle.generation)
      ==> AfterDispose(side.registry, handle).providers == side.registry.providers
  {
    hide AfterDispose, Sound, CallSound;
    RunKeepsInv(run);
    var side := SideOf(RunFrom(INITIAL, run), layer);
    StaleDisposerRemovesNothing(side.registry, layer, side.issued, handle);
  }

  predicate IsRevoked(w: World, session: nat) {
    session in w.sessions && w.sessions[session].revoked
  }

  lemma {:induction false} RevokedStays(w: World, events: seq<Event>, session: nat)
    requires IsRevoked(w, session)
    ensures IsRevoked(RunFrom(w, events), session)
  {
    if events != [] {
      RevokedStays(w, events[..|events| - 1], session);
      StepKeepsRevoked(RunFrom(w, events[..|events| - 1]), events[|events| - 1], session);
    }
  }

  lemma StepKeepsRevoked(w: World, e: Event, session: nat)
    requires IsRevoked(w, session)
    ensures IsRevoked(Step(w, e), session)
  {
    hide AfterRegister, AfterModule, AfterDispose, NewSession, Serving;
  }

  // Once a session is revoked nothing is served to it again, whatever happens later.
  lemma RevokedSessionIsNeverServed(run: seq<Event>, session: nat, later: seq<Event>, number: nat, request: Request)
    requires session in RunFrom(INITIAL, run).sessions
    ensures Serving(RunFrom(Step(RunFrom(INITIAL, run), Revoke(session)), later), number, session, request).None?
  {
    hide RunFrom;
    var revoked := Step(RunFrom(INITIAL, run), Revoke(session));
    assert IsRevoked(revoked, session);
    RevokedStays(revoked, later, session);
  }

  // Who is served

  function RegisteredIds(w: World): set<Text> {
    w.foundation.registry.providers.Keys + w.domain.registry.providers.Keys
  }

  // Event `k` of the run opens the session, which nothing revokes afterwards.
  predicate OpenedAt(run: seq<Event>, k: nat, session: nat) {
    && k < |run| && run[k].OpenSession? && run[k].session == session
    && session !in RunFrom(INITIAL, run[..k]).sessions
    && NewSession(RegisteredIds(RunFrom(INITIAL, run[..k])), run[k].options).Ok?
  }

  predicate RevokedAfter(run: seq<Event>, k: nat, session: nat) {
    exists j | k < j < |run| :: run[j] == Revoke(session)
  }

  // One event opens a session, revokes it, or leaves it as it is.
  lemma SessionMoves(w: World, e: Event, session: nat)
    ensures
      var after := Step(w, e);
      if session !in w.sessions then
        && (session in after.sessions <==> e.OpenSession? && e.session == session && NewSession(RegisteredIds(w), e.options).Ok?)
        && (session in after.sessions ==> after.sessions[session] == NewSession(RegisteredIds(w), e.options).value)
      else
        && session in after.sessions
        && after.sessions[session].grants == w.sessions[session].grants
        && after.sessions[session].expiresAt == w.sessions[session].expiresAt
        && (after.sessions[session].revoked <==> w.sessions[session].revoked || e == Revoke(session))
  {
    hide AfterRegister, AfterModule, AfterDispose, NewSession, Serving;
  }

  lemma OpenedEarlier(run: seq<Event>, k: nat, session: nat)
    requires run != []
    ensures
      var earlier := run[..|run| - 1];
      k < |earlier| ==>
        && (OpenedAt(run, k, session) <==> OpenedAt(earlier, k, session))
        && (RevokedAfter(run, k, session) <==> RevokedAfter(earlier, k, session) || run[|run| - 1] == Revoke(session))
  {
    hide RunFrom, NewSession;
    var earlier := run[..|run| - 1];
    if k < |earlier| {
      assert run[..k] == earlier[..k] && run[k] == earlier[k];
    }
  }

  // Every session that exists was opened by one event of the run, holds what that event asked for, and
  // is revoked exactly if a later event revoked it.
  lemma {:induction false} SessionWasOpened(run: seq<Event>, session: nat) returns (k: nat)
    requires session in RunFrom(INITIAL, run).sessions
    ensures OpenedAt(run, k, session)
    ensures
      var s := RunFrom(INITIAL, run).sessions[session];
      var opening := NewSession(RegisteredIds(RunFrom(INITIAL, run[..k])), run[k].options).value;
      && s.grants == opening.grants && s.expiresAt == opening.expiresAt
      && (s.revoked <==> opening.revoked || RevokedAfter(run, k, session))
  {
    hide Step, NewSession;
    var earlier, e := run[..|run| - 1], run[|run| - 1];
    SessionMoves(RunFrom(INITIAL, earlier), e, session);
    if session in RunFrom(INITIAL, earlier).sessions {
      k := SessionWasOpened(earlier, session);
      OpenedEarlier(run, k, session);
      assert run[..k] == earlier[..k] && run[k] == earlier[k];
    } else {
      k := |run| - 1;
    }
  }

  // A session that was opened exists from then on; it is opened only once.
  lemma {:induction false} OpenedOnce(run: seq<Event>, session: nat, k: nat, j: nat)
    requires OpenedAt(run, k, session)
    ensures session in RunFrom(INITIAL, run).sessions
    ensures OpenedAt(run, j, session) ==> j == k
    decreases |run|
  {
    hide Step, NewSession;
    var earlier, e := run[..|run| - 1], run[|run| - 1];
    SessionMoves(RunFrom(INITIAL, earlier), e, session);
    OpenedEarlier(run, k, session);
    OpenedEarlier(run, j, session);
    if k < |earlier| {
      OpenedOnce(earlier, session, k, j);
    } else if j < |earlier| && OpenedAt(run, j, session) {
      OpenedOnce(earlier, session, j, k);
    }
  }

  // The options under which a session was opened allow the request.
  predicate Allows(options: SessionOptions, request: Request) {
    && (options.expiresAt.Some? && options.expiresAt.value.Finite? ==> request.now < options.expiresAt.value.ms)
    && request.inputParses && !request.aborted
    && exists g | g in options.grants ::
         && g.capabilityId == request.capability.id && !Expired(g.expiresAt, request.now)
         && forall c | c in g.constraints :: c in request.passed
  }

  predicate Provides(r: Registry, capability: Token) {
    capability.id in r.providers && r.providers[capability.id].token.version == capability.version
  }

  lemma OpeningAllows(registered: set<Text>, options: SessionOptions, s: Session, request: Request)
    requires NewSession(registered, options).Ok? && s.revoked == s.aborted
    requires s.grants == NewSession(registered, options).value.grants && s.expiresAt == NewSession(registered, options).value.expiresAt
    ensures Authorize(s, request).error.None? <==> !s.revoked && Allows(options, request)
  {
    hide Authorize, NewSession;
    OpenedExactly(registered, options);
    LetThroughExactly(s, request);
    var id := request.capability.id;
    if id in s.grants {
      assert s.grants[id] in options.grants && s.grants[id].capabilityId == id;
      forall g | g in options.grants && g.capabilityId == id
        ensures g == s.grants[id]
      {
      }
    } else {
      forall g | g in options.grants
        ensures g.capabilityId != id
      {
      }
    }
    forall g: Grant | g in options.grants
      ensures !ExpiryInvalid(g.expiresAt)
    {
      assert GrantUsable(registered, g);
    }
  }

  // In every run an invocation is served exactly if its session was opened under options that allow the
  // request and has not been revoked since, and the registry of the layer provides the capability in the
  // version asked for; it is served by that provider.
  lemma ServedExactly(run: seq<Event>, number: nat, session: nat, request: Request)
    requires number !in RunFrom(INITIAL, run).calls
    ensures
      var w := RunFrom(INITIAL, run);
      var r := SideOf(w, request.capability.layer).registry;
      var served := Serving(w, number, session, request);
      && (served.Some? <==>
            && (exists k: nat :: OpenedAt(run, k, session) && !RevokedAfter(run, k, session) && Allows(run[k].options, request))
            && Provides(r, request.capability))
      && (served.Some? ==>
            && served.value == r.providers[request.capability.id]
            && served.value.token == request.capability)
  {
    hide RunFrom, Authorize, NewSession, Allows, OpenedAt, RevokedAfter;
    var w := RunFrom(INITIAL, run);
    RunKeepsInv(run);
    if session in w.sessions {
      var k := SessionWasOpened(run, session);
      OpeningOf(run, k, session);
      OpeningAllows(RegisteredIds(RunFrom(INITIAL, run[..k])), run[k].options, w.sessions[session], request);
      OpenedExactly(RegisteredIds(RunFrom(INITIAL, run[..k])), run[k].options);
      forall j: nat | OpenedAt(run, j, session)
        ensures j == k
      {
        OpenedOnce(run, session, k, j);
      }
    } else {
      forall j: nat
        ensures !OpenedAt(run, j, session)
      {
        if OpenedAt(run, j, session) {
          OpenedOnce(run, session, j, j);
        }
      }
    }
  }

  lemma OpeningOf(run: seq<Event>, k: nat, session: nat)
    requires OpenedAt(run, k, session)
    ensures k < |run| && run[k].OpenSession?
    ensures NewSession(RegisteredIds(RunFrom(INITIAL, run[..k])), run[k].options).Ok?
  {
  }
}
