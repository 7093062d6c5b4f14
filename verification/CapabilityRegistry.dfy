/**
 Capability providers of one layer (packages/capability-runtime/src/registry.ts). Abort controllers
 and generations are numbered in the order in which they are created; running a provider is left to
 the caller, which starts an invocation and later finishes it with what the provider did.
 */
module Capabilities {
  import opened Results
  import opened Utf16

  datatype Layer = Foundation | Domain

  datatype Token = Token(id: Text, layer: Layer, version: int)

  datatype Provider = Provider(token: Token, controller: nat, generation: nat, ownerId: Text)

  datatype Registry = Registry(providers: map<Text, Provider>, aborted: set<nat>, created: nat)

  const EMPTY_REGISTRY := Registry(map[], {}, 0)

  datatype CapabilityError =
    | OwnerRequired
    | LayerMismatch
    | DuplicateProvider
    | ReservedPublisher
    | InvalidModule
    | PublisherMismatch
    | InvalidId
    | NotFound
    | VersionMismatch
    | Aborted
    | ProviderFailed
    | ProviderError
    | SessionRevoked
    | SessionExpired
    | AccessDenied
    | InvalidConstraint
    | InvalidInput

  datatype Handle = Handle(ownerId: Text, generation: nat)

  datatype Registered = Registered(registry: Registry, result: Result<Handle, CapabilityError>)

  // Registration of an owner

  function BindingError(layer: Layer, providers: map<Text, Provider>, ownerId: Text, binding: Token, seen: set<Text>)
    : Option<CapabilityError>
  {
    if binding.layer != layer then Some(LayerMismatch)
    else if binding.id in seen then Some(DuplicateProvider)
    else if binding.id in providers && providers[binding.id].ownerId != ownerId then Some(DuplicateProvider)
    else None
  }

  // The error of the first binding that cannot be registered.
  function FirstBindingError(layer: Layer, providers: map<Text, Provider>, ownerId: Text, bindings: seq<Token>, seen: set<Text>)
    : Option<CapabilityError>
  {
    if bindings == [] then None
    else
      var error := BindingError(layer, providers, ownerId, bindings[0], seen);
      if error.Some? then error
      else FirstBindingError(layer, providers, ownerId, bindings[1..], seen + {bindings[0].id})
  }

  function BoundIds(bindings: seq<Token>): set<Text> {
    set binding | binding in bindings :: binding.id
  }

  function ControllersOf(providers: map<Text, Provider>, ownerId: Text): set<nat> {
    set id | id in providers && providers[id].ownerId == ownerId :: providers[id].controller
  }

  function Without(providers: map<Text, Provider>, ownerId: Text, nextIds: set<Text>): map<Text, Provider> {
    map id | id in providers && (providers[id].ownerId != ownerId || id in nextIds) :: providers[id]
  }

  function Bound(providers: map<Text, Provider>, ownerId: Text, bindings: seq<Token>, number: nat): map<Text, Provider> {
    if bindings == [] then providers
    else
      var last := bindings[|bindings| - 1];
      Bound(providers, ownerId, bindings[..|bindings| - 1], number)[last.id := Provider(last, number, number, ownerId)]
  }

  function AfterRegister(r: Registry, layer: Layer, ownerId: Text, bindings: seq<Token>): Registered {
    if Trim(ownerId) == [] then Registered(r, Err(OwnerRequired))
    else
      var error := FirstBindingError(layer, r.providers, ownerId, bindings, {});
      if error.Some? then Registered(r, Err(error.value))
      else
        Registered(
          Registry(
            Bound(Without(r.providers, ownerId, BoundIds(bindings)), ownerId, bindings, r.created),
            r.aborted + ControllersOf(r.providers, ownerId),
            r.created + 1),
          Ok(Handle(ownerId, r.created)))
  }

  function AfterDispose(r: Registry, handle: Handle): Registry {
    Registry(
      map id | id in r.providers && !(r.providers[id].ownerId == handle.ownerId && r.providers[id].generation == handle.generation)
        :: r.providers[id],
      r.aborted + {handle.generation},
      r.created)
  }

  // Registration of a module

  datatype Module = Module(id: Text, publisher: Text, capabilities: seq<Token>)

  datatype Trust = BuiltIn | External

  const DOT: CodeUnit := 0x2E

  function AfterDot(text: Text): Option<Text> {
    if text == [] then None
    else if text[0] == DOT then Some(text[1..])
    else AfterDot(text[1..])
  }

  function BeforeDot(text: Text): Text {
    if text == [] || text[0] == DOT then [] else [text[0]] + BeforeDot(text[1..])
  }

  // The third part of a dotted identifier.
  function PublisherFromId(id: Text): Option<Text> {
    var second := AfterDot(id);
    var third := if second.Some? then AfterDot(second.value) else None;
    if third.Some? then Some(BeforeDot(third.value)) else None
  }

  // As a map that is filled in order: the last declaration of an identifier counts.
  function Declared(capabilities: seq<Token>): map<Text, Token> {
    if capabilities == [] then map[]
    else
      var last := capabilities[|capabilities| - 1];
      Declared(capabilities[..|capabilities| - 1])[last.id := last]
  }

  function CapabilityProblem(layer: Layer, publisher: Text, capability: Token): Option<CapabilityError> {
    if capability.layer != layer then Some(LayerMismatch)
    else match PublisherFromId(capability.id)
      case None => Some(InvalidId)
      case Some(owner) => if owner != publisher then Some(PublisherMismatch) else None
  }

  function FirstProblem(layer: Layer, publisher: Text, capabilities: seq<Token>): Option<CapabilityError> {
    if capabilities == [] then None
    else
      var problem := CapabilityProblem(layer, publisher, capabilities[0]);
      if problem.Some? then problem else FirstProblem(layer, publisher, capabilities[1..])
  }

  predicate Fits(declared: map<Text, Token>, binding: Token, seen: set<Text>) {
    && binding.id in declared
    && declared[binding.id].layer == binding.layer
    && declared[binding.id].version == binding.version
    && binding.id !in seen
  }

  predicate AllFit(declared: map<Text, Token>, bindings: seq<Token>, seen: set<Text>) {
    bindings == [] || (Fits(declared, bindings[0], seen) && AllFit(declared, bindings[1..], seen + {bindings[0].id}))
  }

  const VETTA := Units("vetta")

  function ModuleOwner(m: Module): Text {
    Units("module:") + m.publisher + [COLON] + m.id
  }

  function AfterModule(r: Registry, layer: Layer, m: Module, bindings: seq<Token>, trust: Trust): Registered {
    var declared := Declared(m.capabilities);
    var problem := FirstProblem(layer, m.publisher, m.capabilities);
    if m.publisher == VETTA && trust != BuiltIn then Registered(r, Err(ReservedPublisher))
    else if |bindings| != |declared| then Registered(r, Err(InvalidModule))
    else if problem.Some? then Registered(r, Err(problem.value))
    else if !AllFit(declared, bindings, {}) then Registered(r, Err(InvalidModule))
    else AfterRegister(r, layer, ModuleOwner(m), bindings)
  }

  // Invocations

  datatype ProviderResult = Output | ThrewCapabilityError | ThrewOther | UnreadableOutput(capabilityError: bool)

  // `otherAborted` is the signal of the caller: its session, its request or its deadline.
  function StartInvoke(r: Registry, capability: Token, otherAborted: bool): Result<Provider, CapabilityError> {
    if capability.id !in r.providers then Err(NotFound)
    else if r.providers[capability.id].token.version != capability.version then Err(VersionMismatch)
    else if otherAborted || r.providers[capability.id].controller in r.aborted then Err(Aborted)
    else Ok(r.providers[capability.id])
  }

  // What the caller gets once the provider is done. `aborted` is the combined signal at that moment.
  function FinishInvoke(aborted: bool, result: ProviderResult): Option<CapabilityError> {
    match result
    case Output => if aborted then Some(Aborted) else None
    case ThrewCapabilityError => Some(ProviderError)
    case ThrewOther => Some(if aborted then Aborted else ProviderFailed)
    case UnreadableOutput(capabilityError) =>
      Some(if aborted then Aborted else if capabilityError then ProviderError else ProviderFailed)
  }

  class CapabilityRegistry {
    const layer: Layer
    var providers: map<Text, Provider>
    var aborted: set<nat>
    var created: nat

    ghost function View(): Registry
      reads this
    {
      Registry(providers, aborted, created)
    }

    constructor (layer: Layer)
      ensures View() == EMPTY_REGISTRY && this.layer == layer
    {
      this.layer := layer;
      providers, aborted, created := map[], {}, 0;
    }

    method Has(capabilityId: Text) returns (has: bool)
      ensures has <==> capabilityId in View().providers
    {
      has := capabilityId in providers;
    }

    method CheckBindings(ownerId: Text, bindings: seq<Token>) returns (error: Option<CapabilityError>, nextIds: set<Text>)
      ensures error == FirstBindingError(layer, providers, ownerId, bindings, {})
      ensures error.None? ==> nextIds == BoundIds(bindings)
    {
      nextIds := {};
      for i := 0 to |bindings|
        invariant nextIds == BoundIds(bindings[..i])
        invariant FirstBindingError(layer, providers, ownerId, bindings, {})
               == FirstBindingError(layer, providers, ownerId, bindings[i..], nextIds)
      {
        var binding := bindings[i];
        assert bindings[..i + 1] == bindings[..i] + [binding];
        if binding.layer != layer {
          return Some(LayerMismatch), nextIds;
        }
        if binding.id in nextIds {
          return Some(DuplicateProvider), nextIds;
        }
        nextIds := nextIds + {binding.id};
        if binding.id in providers && providers[binding.id].ownerId != ownerId {
          return Some(DuplicateProvider), nextIds;
        }
      }
      assert bindings[..|bindings|] == bindings;
      error := None;
    }

    method Controllers(ownerId: Text) returns (controllers: set<nat>)
      ensures controllers == ControllersOf(providers, ownerId)
    {
      controllers := {};
      var left := providers.Keys;
      while left != {}
        invariant left <= providers.Keys
        invariant controllers == set id | id in providers && id !in left && providers[id].ownerId == ownerId :: providers[id].controller
        decreases |left|
      {
        var id :| id in left;
        if providers[id].ownerId == ownerId {
          controllers := controllers + {providers[id].controller};
        }
        left := left - {id};
      }
    }

    method RemoveOthers(ownerId: Text, nextIds: set<Text>)
      modifies this`providers
      ensures providers == Without(old(providers), ownerId, nextIds)
    {
      var left := providers.Keys;
      while left != {}
        invariant left <= old(providers).Keys
        invariant providers == map id | id in old(providers) && (id in left || old(providers)[id].ownerId != ownerId || id in nextIds)
                                 :: old(providers)[id]
        decreases |left|
      {
        var id :| id in left;
        if providers[id].ownerId == ownerId && id !in nextIds {
          providers := providers - {id};
        }
        left := left - {id};
      }
    }

    method RegisterOwner(ownerId: Text, bindings: seq<Token>) returns (result: Result<Handle, CapabilityError>)
      modifies this
      ensures Registered(View(), result) == AfterRegister(old(View()), layer, ownerId, bindings)
    {
      if |Trim(ownerId)| == 0 {
        return Err(OwnerRequired);
      }
      var error, nextIds := CheckBindings(ownerId, bindings);
      if error.Some? {
        return Err(error.value);
      }
      var previousControllers := Controllers(ownerId);
      var controller, generation := created, created;
      created := created + 1;
      RemoveOthers(ownerId, nextIds);
      ghost var kept := providers;
      for i := 0 to |bindings|
        invariant providers == Bound(kept, ownerId, bindings[..i], generation)
        invariant aborted == old(aborted) && created == old(created) + 1
      {
        assert bindings[..i + 1][..i] == bindings[..i];
        providers := providers[bindings[i].id := Provider(bindings[i], controller, generation, ownerId)];
      }
      assert bindings[..|bindings|] == bindings;
      aborted := aborted + previousControllers;
      result := Ok(Handle(ownerId, generation));
    }

    method Dispose(handle: Handle)
      modifies this
      ensures View() == AfterDispose(old(View()), handle)
    {
      var left := providers.Keys;
      while left != {}
        invariant left <= old(providers).Keys
        invariant providers == map id | id in old(providers) && (id in left ||
          !(old(providers)[id].ownerId == handle.ownerId && old(providers)[id].generation == handle.generation)) :: old(providers)[id]
        invariant aborted == old(aborted) && created == old(created)
        decreases |left|
      {
        var id :| id in left;
        if providers[id].ownerId == handle.ownerId && providers[id].generation == handle.generation {
          providers := providers - {id};
        }
        left := left - {id};
      }
      aborted := aborted + {handle.generation};
    }

    method RegisterModule(m: Module, bindings: seq<Token>, trust: Trust) returns (result: Result<Handle, CapabilityError>)
      modifies this
      ensures Registered(View(), result) == AfterModule(old(View()), layer, m, bindings, trust)
    {
      if m.publisher == VETTA && trust != BuiltIn {
        return Err(ReservedPublisher);
      }
      var declared := Declared(m.capabilities);
      if |bindings| != |declared| {
        return Err(InvalidModule);
      }
      for i := 0 to |m.capabilities|
        invariant FirstProblem(layer, m.publisher, m.capabilities) == FirstProblem(layer, m.publisher, m.capabilities[i..])
        invariant View() == old(View())
      {
        var problem := CapabilityProblem(layer, m.publisher, m.capabilities[i]);
        if problem.Some? {
          return Err(problem.value);
        }
      }
      var boundIds: set<Text> := {};
      for i := 0 to |bindings|
        invariant AllFit(declared, bindings, {}) <==> AllFit(declared, bindings[i..], boundIds)
        invariant View() == old(View())
      {
        if !Fits(declared, bindings[i], boundIds) {
          return Err(InvalidModule);
        }
        boundIds := boundIds + {bindings[i].id};
      }
      result := RegisterOwner(ModuleOwner(m), bindings);
    }

    method Start(capability: Token, otherAborted: bool) returns (result: Result<Provider, CapabilityError>)
      ensures result == StartInvoke(View(), capability, otherAborted)
    {
      if capability.id !in providers {
        return Err(NotFound);
      }
      var provider := providers[capability.id];
      if provider.token.version != capability.version {
        return Err(VersionMismatch);
      }
      if otherAborted || provider.controller in aborted {
        return Err(Aborted);
      }
      result := Ok(provider);
    }
  }
}
