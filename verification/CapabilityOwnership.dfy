/**
 What one registration or disposal does to a registry, and what a registry keeps through all of them
 (packages/capability-runtime/src/registry.ts).
 */
module CapabilityOwnership {
  import opened Results
  import opened Utf16
  import opened Capabilities

  predicate DistinctIds(bindings: seq<Token>) {
    forall i, j | 0 <= i < j < |bindings| :: bindings[i].id != bindings[j].id
  }

  // Registration

  predicate Bindable(layer: Layer, providers: map<Text, Provider>, ownerId: Text, binding: Token) {
    binding.layer == layer && (binding.id in providers ==> providers[binding.id].ownerId == ownerId)
  }

  lemma {:induction false} NoErrorExactly(
      layer: Layer, providers: map<Text, Provider>, ownerId: Text, bindings: seq<Token>, seen: set<Text>)
    ensures FirstBindingError(layer, providers, ownerId, bindings, seen).None?
       <==> && DistinctIds(bindings)
            && forall b | b in bindings :: b.id !in seen && Bindable(layer, providers, ownerId, b)
  {
    if bindings != [] {
      var first, rest := bindings[0], bindings[1..];
      NoErrorExactly(layer, providers, ownerId, rest, seen + {first.id});
      DistinctFirst(bindings);
      assert bindings == [first] + rest;
    }
  }

  lemma InFirstOrRest(bindings: seq<Token>)
    requires bindings != []
    ensures forall b :: b in bindings <==> b == bindings[0] || b in bindings[1..]
  {
    assert bindings == [bindings[0]] + bindings[1..];
  }

  lemma DistinctFirst(bindings: seq<Token>)
    requires bindings != []
    ensures DistinctIds(bindings) <==> DistinctIds(bindings[1..]) && forall b | b in bindings[1..] :: b.id != bindings[0].id
  {
    var rest := bindings[1..];
    if DistinctIds(bindings) {
      forall i, j | 0 <= i < j < |rest|
        ensures rest[i].id != rest[j].id
      {
        assert bindings[i + 1].id != bindings[j + 1].id;
      }
      forall b | b in rest
        ensures b.id != bindings[0].id
      {
        var i :| 0 <= i < |rest| && rest[i] == b;
        assert bindings[0].id != bindings[i + 1].id;
      }
    } else {
      var i, j :| 0 <= i < j < |bindings| && bindings[i].id == bindings[j].id;
      if i == 0 {
        assert rest[j - 1] in rest;
      } else {
        assert rest[i - 1].id == rest[j - 1].id;
      }
    }
  }

  // What a registration leaves under one identifier.
  ghost predicate BoundAt(
      providers: map<Text, Provider>, after: map<Text, Provider>, ownerId: Text, bindings: seq<Token>, number: nat, id: Text)
  {
    && (id in after <==> id in providers || id in BoundIds(bindings))
    && (id in after && id !in BoundIds(bindings) ==> after[id] == providers[id])
    && (id in BoundIds(bindings) ==> exists b :: b in bindings && b.id == id && after[id] == Provider(b, number, number, ownerId))
  }

  lemma {:induction false} BoundExactlyAt(providers: map<Text, Provider>, ownerId: Text, bindings: seq<Token>, number: nat, id: Text)
    ensures BoundAt(providers, Bound(providers, ownerId, bindings, number), ownerId, bindings, number, id)
  {
    if bindings != [] {
      var before, last := bindings[..|bindings| - 1], bindings[|bindings| - 1];
      BoundExactlyAt(providers, ownerId, before, number, id);
      BoundIdsLast(before, last);
      assert bindings == before + [last];
      if id == last.id {
        assert last in bindings;
      } else if id in BoundIds(before) {
        var b :| b in before && b.id == id && Bound(providers, ownerId, before, number)[id] == Provider(b, number, number, ownerId);
        assert b in bindings;
      }
    }
  }

  lemma SameBinding(bindings: seq<Token>, a: Token, b: Token)
    requires DistinctIds(bindings) && a in bindings && b in bindings && a.id == b.id
    ensures a == b
  {
    var i :| 0 <= i < |bindings| && bindings[i] == a;
    var j :| 0 <= j < |bindings| && bindings[j] == b;
  }

  lemma BoundExactly(providers: map<Text, Provider>, ownerId: Text, bindings: seq<Token>, number: nat)
    requires DistinctIds(bindings)
    ensures Bound(providers, ownerId, bindings, number).Keys == providers.Keys + BoundIds(bindings)
    ensures forall b | b in bindings :: Bound(providers, ownerId, bindings, number)[b.id] == Provider(b, number, number, ownerId)
    ensures forall id | id in providers && id !in BoundIds(bindings) :: Bound(providers, ownerId, bindings, number)[id] == providers[id]
  {
    hide Bound;
    var after := Bound(providers, ownerId, bindings, number);
    forall id
      ensures id in after <==> id in providers || id in BoundIds(bindings)
      ensures id in after && id !in BoundIds(bindings) ==> after[id] == providers[id]
    {
      BoundExactlyAt(providers, ownerId, bindings, number, id);
    }
    forall b | b in bindings
      ensures b.id in after && after[b.id] == Provider(b, number, number, ownerId)
    {
      BoundExactlyAt(providers, ownerId, bindings, number, b.id);
      var other :| other in bindings && other.id == b.id && after[b.id] == Provider(other, number, number, ownerId);
      SameBinding(bindings, b, other);
    }
  }

  lemma BoundIdsLast(before: seq<Token>, last: Token)
    ensures BoundIds(before + [last]) == BoundIds(before) + {last.id}
  {
    assert (before + [last])[|before|] == last;
  }

  // The providers after an accepted registration: the owner has exactly the new bindings, all of one
  // new generation, and no one else's provider is touched.
  ghost predicate Replaced(before: Registry, after: Registry, ownerId: Text, bindings: seq<Token>) {
    && (forall id :: id in after.providers && after.providers[id].ownerId == ownerId <==> id in BoundIds(bindings))
    && (forall b | b in bindings ::
          b.id in after.providers && after.providers[b.id] == Provider(b, before.created, before.created, ownerId))
    && (forall id, p: Provider | p.ownerId != ownerId ::
          id in after.providers && after.providers[id] == p <==> id in before.providers && before.providers[id] == p)
    && after.aborted == before.aborted + ControllersOf(before.providers, ownerId)
    && after.created == before.created + 1
  }

  predicate Registrable(r: Registry, layer: Layer, ownerId: Text, bindings: seq<Token>) {
    Trim(ownerId) != [] && DistinctIds(bindings) && forall b | b in bindings :: Bindable(layer, r.providers, ownerId, b)
  }

  // All or nothing: a registration replaces everything the owner had, or leaves the registry as it was.
  lemma RegistrationAllOrNothing(r: Registry, layer: Layer, ownerId: Text, bindings: seq<Token>)
    ensures
      var registered := AfterRegister(r, layer, ownerId, bindings);
      && (registered.result.Ok? <==> Registrable(r, layer, ownerId, bindings))
      && (registered.result.Err? ==> registered.registry == r)
      && (registered.result.Ok? ==>
            registered.result.value == Handle(ownerId, r.created) && Replaced(r, registered.registry, ownerId, bindings))
  {
    NoErrorExactly(layer, r.providers, ownerId, bindings, {});
    if Registrable(r, layer, ownerId, bindings) {
      var after := AfterRegister(r, layer, ownerId, bindings).registry;
      var kept := Without(r.providers, ownerId, BoundIds(bindings));
      BoundExactly(kept, ownerId, bindings, r.created);
      forall id | id in BoundIds(bindings)
        ensures id in after.providers && after.providers[id].ownerId == ownerId
      {
        var b :| b in bindings && b.id == id;
      }
      forall id, p: Provider | p.ownerId != ownerId
        ensures id in after.providers && after.providers[id] == p <==> id in r.providers && r.providers[id] == p
      {
        if id in BoundIds(bindings) {
          var b :| b in bindings && b.id == id;
          assert Bindable(layer, r.providers, ownerId, b);
        }
      }
    }
  }

  // Modules

  lemma {:induction false} DeclaredExactly(capabilities: seq<Token>)
    ensures Declared(capabilities).Keys == BoundIds(capabilities)
    ensures forall id | id in Declared(capabilities) :: Declared(capabilities)[id] in capabilities && Declared(capabilities)[id].id == id
  {
    if capabilities != [] {
      var before, last := capabilities[..|capabilities| - 1], capabilities[|capabilities| - 1];
      DeclaredExactly(before);
      assert capabilities == before + [last];
      BoundIdsLast(before, last);
      forall id | id in Declared(before)
        ensures Declared(before)[id] in capabilities
      {
      }
      assert capabilities[|before|] == last;
    }
  }

  lemma {:induction false} AllFitExactly(declared: map<Text, Token>, bindings: seq<Token>, seen: set<Text>)
    ensures AllFit(declared, bindings, seen) <==> DistinctIds(bindings) && forall b | b in bindings :: Fits(declared, b, seen)
  {
    if bindings != [] {
      var first, rest := bindings[0], bindings[1..];
      AllFitExactly(declared, rest, seen + {first.id});
      DistinctFirst(bindings);
      InFirstOrRest(bindings);
      forall b | b in rest
        ensures Fits(declared, b, seen + {first.id}) <==> Fits(declared, b, seen) && b.id != first.id
      {
      }
    }
  }

  lemma {:induction false} NoProblemExactly(layer: Layer, publisher: Text, capabilities: seq<Token>)
    ensures FirstProblem(layer, publisher, capabilities).None?
       <==> forall c | c in capabilities :: c.layer == layer && PublisherFromId(c.id) == Some(publisher)
  {
    if capabilities != [] {
      NoProblemExactly(layer, publisher, capabilities[1..]);
      assert capabilities == [capabilities[0]] + capabilities[1..];
    }
  }

  lemma {:induction false} DistinctCount(bindings: seq<Token>)
    requires DistinctIds(bindings)
    ensures |BoundIds(bindings)| == |bindings|
  {
    if bindings != [] {
      var before, last := bindings[..|bindings| - 1], bindings[|bindings| - 1];
      DistinctCount(before);
      assert bindings == before + [last];
      BoundIdsLast(before, last);
      forall b | b in before
        ensures b.id != last.id
      {
        var i :| 0 <= i < |before| && before[i] == b;
        assert bindings[i].id != bindings[|before|].id;
      }
    }
  }

  lemma SameSizeSubset(a: set<Text>, b: set<Text>)
    requires a <= b && |a| == |b|
    ensures a == b
  {
    if a != b {
      var x :| x in b && x !in a;
      assert |b - {x}| == |b| - 1;
      SubsetSize(a, b - {x});
    }
  }

  lemma {:induction false} SubsetSize(a: set<Text>, b: set<Text>)
    requires a <= b
    ensures |a| <= |b|
    decreases a
  {
    if a != {} {
      var x :| x in a;
      SubsetSize(a - {x}, b - {x});
      assert |a - {x}| == |a| - 1 && |b - {x}| == |b| - 1;
    }
  }

  predicate Declares(capabilities: seq<Token>, binding: Token) {
    var declared := Declared(capabilities);
    binding.id in declared && declared[binding.id].layer == binding.layer && declared[binding.id].version == binding.version
  }

  predicate ModuleAdmissible(layer: Layer, m: Module, bindings: seq<Token>, trust: Trust) {
    && (m.publisher == VETTA ==> trust == BuiltIn)
    && (forall c | c in m.capabilities :: c.layer == layer && PublisherFromId(c.id) == Some(m.publisher))
    && DistinctIds(bindings)
    && BoundIds(bindings) == BoundIds(m.capabilities)
    && forall b | b in bindings :: Declares(m.capabilities, b)
  }

  lemma ModuleHasOwner(m: Module)
    ensures Trim(ModuleOwner(m)) != []
  {
    var owner := ModuleOwner(m);
    assert owner[0] == Units("module:")[0] && !IsSpace(owner[0]);
    TrimEndTwice(owner);
  }

  lemma BindsEveryDeclared(declared: map<Text, Token>, bindings: seq<Token>)
    requires DistinctIds(bindings) && forall b | b in bindings :: b.id in declared
    ensures |bindings| == |declared| <==> BoundIds(bindings) == declared.Keys
  {
    DistinctCount(bindings);
    assert BoundIds(bindings) <= declared.Keys;
    assert |declared| == |declared.Keys|;
    if |bindings| == |declared| {
      SameSizeSubset(BoundIds(bindings), declared.Keys);
    }
  }

  // A module is registered exactly when it is admissible, that is, when it binds every capability it
  // declares, and nothing else, once and in the declared version, and when no other owner provides
  // one of them. Then it owns exactly those.
  lemma ModuleBindsExactly(r: Registry, layer: Layer, m: Module, bindings: seq<Token>, trust: Trust)
    ensures
      var registered := AfterModule(r, layer, m, bindings, trust);
      && (registered.result.Ok? <==>
            ModuleAdmissible(layer, m, bindings, trust) && forall b | b in bindings :: Bindable(layer, r.providers, ModuleOwner(m), b))
      && (registered.result.Err? ==> registered.registry == r)
      && (registered.result.Ok? ==> Replaced(r, registered.registry, ModuleOwner(m), bindings))
  {
    hide AfterRegister, FirstProblem, AllFit, ModuleOwner, Replaced, PublisherFromId, BoundIds, DistinctIds;
    var declared := Declared(m.capabilities);
    ModuleHasOwner(m);
    NoProblemExactly(layer, m.publisher, m.capabilities);
    AllFitExactly(declared, bindings, {});
    DeclaredExactly(m.capabilities);
    if DistinctIds(bindings) && forall b | b in bindings :: Declares(m.capabilities, b) {
      BindsEveryDeclared(declared, bindings);
    }
    RegistrationAllOrNothing(r, layer, ModuleOwner(m), bindings);
  }

  // The owner of a module tells modules of one publisher apart, and, as long as no publisher contains a
  // colon, any two modules.
  lemma ModuleOwnersExactly(a: Module, b: Module)
    ensures a.publisher == b.publisher ==> (ModuleOwner(a) == ModuleOwner(b) <==> a.id == b.id)
    ensures COLON !in a.publisher && COLON !in b.publisher ==>
              (ModuleOwner(a) == ModuleOwner(b) <==> a.publisher == b.publisher && a.id == b.id)
  {
    var prefix := Units("module:");
    var x, y := ModuleOwner(a)[|prefix|..], ModuleOwner(b)[|prefix|..];
    assert x == a.publisher + [COLON] + a.id && y == b.publisher + [COLON] + b.id;
    assert x[|a.publisher|] == COLON && x[..|a.publisher|] == a.publisher && x[|a.publisher| + 1..] == a.id;
    assert y[|b.publisher|] == COLON && y[..|b.publisher|] == b.publisher && y[|b.publisher| + 1..] == b.id;
  }

  // With a colon in a publisher they need not be: module `c` of `a:b` and module `b:c` of `a`.
  lemma ModuleOwnersCanCoincide(a: Text, b: Text, c: Text, capabilities: seq<Token>)
    ensures ModuleOwner(Module(c, a + [COLON] + b, capabilities)) == ModuleOwner(Module(b + [COLON] + c, a, capabilities))
  {
    assert a + [COLON] + b + [COLON] + c == a + [COLON] + (b + [COLON] + c);
    assert Units("module:") + (a + [COLON] + b) + [COLON] + c == Units("module:") + (a + [COLON] + b + [COLON] + c);
    assert Units("module:") + a + [COLON] + (b + [COLON] + c) == Units("module:") + (a + [COLON] + (b + [COLON] + c));
  }

  // Why a registration is refused

  lemma {:induction false} FirstOffence(
      layer: Layer, providers: map<Text, Provider>, ownerId: Text, bindings: seq<Token>, seen: set<Text>) returns (i: nat)
    ensures i <= |bindings|
    ensures forall j | 0 <= j < i :: BindingError(layer, providers, ownerId, bindings[j], seen + BoundIds(bindings[..j])).None?
    ensures FirstBindingError(layer, providers, ownerId, bindings, seen) ==
            if i < |bindings| then BindingError(layer, providers, ownerId, bindings[i], seen + BoundIds(bindings[..i])) else None
    ensures i < |bindings| ==> FirstBindingError(layer, providers, ownerId, bindings, seen).Some?
  {
    hide BoundIds, BindingError;
    i := 0;
    NothingBound(seen, bindings);
    if bindings != [] && BindingError(layer, providers, ownerId, bindings[0], seen).None? {
      var rest := bindings[1..];
      var k := FirstOffence(layer, providers, ownerId, rest, seen + {bindings[0].id});
      i := k + 1;
      forall j | 0 <= j < i
        ensures BindingError(layer, providers, ownerId, bindings[j], seen + BoundIds(bindings[..j])).None?
      {
        if j > 0 {
          OneBoundMore(seen, bindings, j);
        }
      }
      OneBoundMore(seen, bindings, i);
    }
  }

  lemma NothingBound(seen: set<Text>, bindings: seq<Token>)
    ensures seen + BoundIds(bindings[..0]) == seen
  {
  }

  lemma OneBoundMore(seen: set<Text>, bindings: seq<Token>, j: nat)
    requires 0 < j <= |bindings|
    ensures seen + BoundIds(bindings[..j]) == seen + {bindings[0].id} + BoundIds(bindings[1..][..j - 1])
  {
    assert bindings[..j] == [bindings[0]] + bindings[1..][..j - 1];
  }

  // An owner without a name is refused; otherwise the first binding of another layer, bound twice, or
  // provided by another owner decides, and its own fault gives the reason.
  lemma RegistrationRefusedForItsReason(r: Registry, layer: Layer, ownerId: Text, bindings: seq<Token>) returns (i: nat)
    ensures i <= |bindings|
    ensures
      var result := AfterRegister(r, layer, ownerId, bindings).result;
      && (result == Err(OwnerRequired) <==> AllSpace(ownerId))
      && (!AllSpace(ownerId) ==>
            && (result.Ok? <==> i == |bindings|)
            && (i < |bindings| ==>
                  && (result == Err(LayerMismatch) <==> bindings[i].layer != layer)
                  && (result == Err(DuplicateProvider) <==> bindings[i].layer == layer)))
    ensures forall j | 0 <= j < i ::
      bindings[j].layer == layer && (bindings[j].id in r.providers ==> r.providers[bindings[j].id].ownerId == ownerId)
    ensures i < |bindings| ==>
      || bindings[i].layer != layer
      || (exists j | 0 <= j < i :: bindings[j].id == bindings[i].id)
      || (bindings[i].id in r.providers && r.providers[bindings[i].id].ownerId != ownerId)
  {
    hide Bound, Without, ControllersOf, Trim, AllSpace;
    TrimEmptyExactly(ownerId);
    i := FirstOffence(layer, r.providers, ownerId, bindings, {});
    assert forall j | 0 <= j <= |bindings| :: {} + BoundIds(bindings[..j]) == BoundIds(bindings[..j]);
  }

  // Dotted identifiers

  // The publisher is what stands between the second and the third dot, or the end.
  lemma PublisherExactly(id: Text, first: Text, second: Text, third: Text, rest: Text)
    requires DOT !in first && DOT !in second && DOT !in third && (rest == [] || rest[0] == DOT)
    ensures PublisherFromId(first + [DOT] + second + [DOT] + third + rest) == Some(third)
    ensures PublisherFromId(first) == None && PublisherFromId(first + [DOT] + second) == None
  {
    var inner := second + [DOT] + (third + rest);
    assert first + [DOT] + second + [DOT] + third + rest == first + [DOT] + inner;
    AtDot(first, inner);
    AtDot(second, third + rest);
    AtDot(first, second);
    NoDot(first);
    NoDot(second);
    UpToDot(third, rest);
  }

  lemma {:induction false} AtDot(before: Text, after: Text)
    requires DOT !in before
    ensures AfterDot(before + [DOT] + after) == Some(after)
  {
    if before == [] {
      assert before + [DOT] + after == [DOT] + after && ([DOT] + after)[1..] == after;
    } else {
      assert (before + [DOT] + after)[1..] == before[1..] + [DOT] + after && before[0] in before;
      AtDot(before[1..], after);
    }
  }

  lemma {:induction false} NoDot(text: Text)
    requires DOT !in text
    ensures AfterDot(text) == None
  {
    if text != [] {
      assert text[0] in text;
      NoDot(text[1..]);
    }
  }

  lemma {:induction false} UpToDot(text: Text, rest: Text)
    requires DOT !in text && (rest == [] || rest[0] == DOT)
    ensures BeforeDot(text + rest) == text
  {
    if text == [] {
      assert text + rest == rest;
    } else {
      assert (text + rest)[1..] == text[1..] + rest && text[0] in text;
      UpToDot(text[1..], rest);
    }
  }

  // Why a module is refused

  lemma {:induction false} FirstFault(layer: Layer, publisher: Text, capabilities: seq<Token>) returns (i: nat)
    ensures i <= |capabilities|
    ensures forall j | 0 <= j < i :: capabilities[j].layer == layer && PublisherFromId(capabilities[j].id) == Some(publisher)
    ensures FirstProblem(layer, publisher, capabilities) ==
            if i < |capabilities| then CapabilityProblem(layer, publisher, capabilities[i]) else None
    ensures i < |capabilities| ==> FirstProblem(layer, publisher, capabilities).Some?
  {
    i := 0;
    if capabilities != [] && CapabilityProblem(layer, publisher, capabilities[0]).None? {
      var k := FirstFault(layer, publisher, capabilities[1..]);
      i := k + 1;
      forall j | 0 <= j < i
        ensures capabilities[j].layer == layer && PublisherFromId(capabilities[j].id) == Some(publisher)
      {
        assert j > 0 ==> capabilities[j] == capabilities[1..][j - 1];
      }
    }
  }

  // Each refusal of a module has its reason, the first of these that applies: the reserved publisher, the
  // number of bindings, the first declared capability of another layer or publisher, and a binding that
  // does not fit; then those of its owner.
  lemma ModuleRefusedForItsReason(r: Registry, layer: Layer, m: Module, bindings: seq<Token>, trust: Trust) returns (i: nat)
    ensures i <= |m.capabilities|
    ensures forall j | 0 <= j < i :: m.capabilities[j].layer == layer && PublisherFromId(m.capabilities[j].id) == Some(m.publisher)
    ensures
      var result := AfterModule(r, layer, m, bindings, trust).result;
      if m.publisher == Units("vetta") && trust != BuiltIn then result == Err(ReservedPublisher)
      else if |bindings| != |BoundIds(m.capabilities)| then result == Err(InvalidModule)
      else if i < |m.capabilities| then
        if m.capabilities[i].layer != layer then result == Err(LayerMismatch)
        else if PublisherFromId(m.capabilities[i].id).None? then result == Err(InvalidId)
        else PublisherFromId(m.capabilities[i].id) != Some(m.publisher) && result == Err(PublisherMismatch)
      else if !(DistinctIds(bindings) && forall b | b in bindings :: Declares(m.capabilities, b)) then result == Err(InvalidModule)
      else result == AfterRegister(r, layer, ModuleOwner(m), bindings).result
  {
    hide AfterRegister, ModuleOwner, PublisherFromId, DistinctIds, Units;
    i := FirstFault(layer, m.publisher, m.capabilities);
    DeclaredExactly(m.capabilities);
    AllFitExactly(Declared(m.capabilities), bindings, {});
    assert |Declared(m.capabilities)| == |Declared(m.capabilities).Keys|;
  }

  // The last declaration of an identifier is the one that counts.
  lemma {:induction false} LastDeclarationCounts(capabilities: seq<Token>, i: nat)
    requires i < |capabilities| && forall j | i < j < |capabilities| :: capabilities[j].id != capabilities[i].id
    ensures capabilities[i].id in Declared(capabilities) && Declared(capabilities)[capabilities[i].id] == capabilities[i]
  {
    if i < |capabilities| - 1 {
      LastDeclarationCounts(capabilities[..|capabilities| - 1], i);
    }
  }

  // Invocations

  // A provider is found exactly if one is registered under the identifier, in the version asked for, and
  // nobody aborted it or the caller; each refusal says which of these fails, in this order.
  lemma StartedExactly(r: Registry, capability: Token, otherAborted: bool)
    ensures
      var result := StartInvoke(r, capability, otherAborted);
      var found := capability.id in r.providers;
      var fits := found && r.providers[capability.id].token.version == capability.version;
      && (result == Err(NotFound) <==> !found)
      && (result == Err(VersionMismatch) <==> found && !fits)
      && (result == Err(Aborted) <==> fits && (otherAborted || r.providers[capability.id].controller in r.aborted))
      && (result.Ok? <==> fits && !otherAborted && r.providers[capability.id].controller !in r.aborted)
      && (result.Ok? ==> result.value == r.providers[capability.id])
  {
  }

  // An invocation succeeds exactly with an output that can be read, unless it was aborted; an error of the
  // provider is passed on if it is one of capabilities, even after an abort, and wrapped otherwise.
  lemma FinishedExactly(aborted: bool, result: ProviderResult)
    ensures
      var error := FinishInvoke(aborted, result);
      var threw := result.ThrewCapabilityError? || (result.UnreadableOutput? && result.capabilityError);
      && (error.None? <==> result.Output? && !aborted)
      && (error == Some(Aborted) <==> aborted && !result.ThrewCapabilityError?)
      && (error == Some(ProviderError) <==> threw && (aborted ==> result.ThrewCapabilityError?))
      && (error == Some(ProviderFailed) <==> !aborted && !threw && !result.Output?)
  {
  }

  // What a registry keeps

  // `issued` are the handles that registrations returned. An owner's providers are all of one
  // registration, the latest of that owner, and its controller is not aborted.
  ghost predicate Sound(r: Registry, layer: Layer, issued: set<Handle>) {
    && (forall id | id in r.providers ::
          var p := r.providers[id];
          p.token.id == id && p.token.layer == layer && p.controller == p.generation && p.controller !in r.aborted
          && Handle(p.ownerId, p.generation) in issued)
    && (forall i, j | i in r.providers && j in r.providers && r.providers[i].ownerId == r.providers[j].ownerId ::
          r.providers[i].generation == r.providers[j].generation)
    && (forall id, h | id in r.providers && h in issued && h.ownerId == r.providers[id].ownerId ::
          h.generation <= r.providers[id].generation)
    && (forall h | h in issued :: h.generation < r.created)
    && (forall g, h | g in issued && h in issued && g.generation == h.generation :: g == h)
    && (forall n | n in r.aborted :: n < r.created)
  }

  lemma RegisterKeepsSound(r: Registry, layer: Layer, issued: set<Handle>, ownerId: Text, bindings: seq<Token>)
    requires Sound(r, layer, issued) && AfterRegister(r, layer, ownerId, bindings).result.Ok?
    ensures Sound(AfterRegister(r, layer, ownerId, bindings).registry, layer, issued + {Handle(ownerId, r.created)})
  {
    hide AfterRegister;
    RegistrationAllOrNothing(r, layer, ownerId, bindings);
    var after := AfterRegister(r, layer, ownerId, bindings).registry;
    ReplacedKeepsSound(r, after, layer, issued, ownerId, bindings);
  }

  lemma NewOrKept(r: Registry, after: Registry, layer: Layer, ownerId: Text, bindings: seq<Token>, id: Text)
    requires Registrable(r, layer, ownerId, bindings) && Replaced(r, after, ownerId, bindings) && id in after.providers
    ensures after.providers[id].ownerId == ownerId ==>
      exists b :: b in bindings && b.id == id && b.layer == layer && after.providers[id] == Provider(b, r.created, r.created, ownerId)
    ensures after.providers[id].ownerId != ownerId ==> id in r.providers && r.providers[id] == after.providers[id]
  {
    if after.providers[id].ownerId == ownerId {
      var b :| b in bindings && b.id == id;
      assert Bindable(layer, r.providers, ownerId, b);
    }
  }

  lemma ReplacedProviders(r: Registry, after: Registry, layer: Layer, issued: set<Handle>, ownerId: Text, bindings: seq<Token>)
    requires Sound(r, layer, issued) && Registrable(r, layer, ownerId, bindings) && Replaced(r, after, ownerId, bindings)
    ensures forall id | id in after.providers ::
      var p := after.providers[id];
      && p.token.id == id && p.token.layer == layer && p.controller == p.generation && p.controller !in after.aborted
      && (p.ownerId == ownerId ==> p.generation == r.created)
      && (p.ownerId != ownerId ==> id in r.providers && r.providers[id] == p)
  {
    forall id | id in after.providers
      ensures
        var p := after.providers[id];
        && p.token.id == id && p.token.layer == layer && p.controller == p.generation && p.controller !in after.aborted
        && (p.ownerId == ownerId ==> p.generation == r.created)
        && (p.ownerId != ownerId ==> id in r.providers && r.providers[id] == p)
    {
      NewOrKept(r, after, layer, ownerId, bindings, id);
      KeptNotAborted(r, layer, issued, ownerId, id);
    }
  }

  lemma ReplacedNumbers(r: Registry, after: Registry, layer: Layer, issued: set<Handle>, ownerId: Text, bindings: seq<Token>)
    requires Sound(r, layer, issued) && Replaced(r, after, ownerId, bindings)
    ensures after.created == r.created + 1 && forall n | n in after.aborted :: n < after.created
  {
  }

  lemma ReplacedKeepsSound(r: Registry, after: Registry, layer: Layer, issued: set<Handle>, ownerId: Text, bindings: seq<Token>)
    requires Sound(r, layer, issued) && Registrable(r, layer, ownerId, bindings) && Replaced(r, after, ownerId, bindings)
    ensures Sound(after, layer, issued + {Handle(ownerId, r.created)})
  {
    ReplacedProviders(r, after, layer, issued, ownerId, bindings);
    ReplacedNumbers(r, after, layer, issued, ownerId, bindings);
    hide Replaced, Registrable;
  }

  lemma KeptNotAborted(r: Registry, layer: Layer, issued: set<Handle>, ownerId: Text, id: Text)
    requires Sound(r, layer, issued)
    ensures r.created !in r.aborted + ControllersOf(r.providers, ownerId)
    ensures id in r.providers && r.providers[id].ownerId != ownerId ==>
      r.providers[id].controller !in r.aborted + ControllersOf(r.providers, ownerId)
  {
  }

  lemma DisposeKeepsProviders(r: Registry, layer: Layer, issued: set<Handle>, handle: Handle)
    requires Sound(r, layer, issued) && handle in issued
    ensures
      var after := AfterDispose(r, handle);
      forall id | id in after.providers ::
        id in r.providers && after.providers[id] == r.providers[id] && after.providers[id].controller !in after.aborted
  {
    var after := AfterDispose(r, handle);
    forall id | id in after.providers
      ensures after.providers[id].controller !in after.aborted && after.providers[id] == r.providers[id]
    {
      var p := r.providers[id];
      assert Handle(p.ownerId, p.generation) in issued;
    }
  }

  lemma DisposeKeepsSound(r: Registry, layer: Layer, issued: set<Handle>, handle: Handle)
    requires Sound(r, layer, issued) && handle in issued
    ensures Sound(AfterDispose(r, handle), layer, issued)
  {
    DisposeKeepsProviders(r, layer, issued, handle);
    var after := AfterDispose(r, handle);
    assert after.aborted == r.aborted + {handle.generation} && after.created == r.created;
    hide AfterDispose;
  }

  // A disposer removes what its own registration put there, and nothing once that was replaced or disposed.
  lemma StaleDisposerRemovesNothing(r: Registry, layer: Layer, issued: set<Handle>, handle: Handle)
    requires Sound(r, layer, issued) && handle in issued
    ensures forall id, p: Provider ::
      id in AfterDispose(r, handle).providers && AfterDispose(r, handle).providers[id] == p
      <==> id in r.providers && r.providers[id] == p && p.generation != handle.generation
    ensures
      || handle.generation in r.aborted
      || (exists newer | newer in issued :: newer.ownerId == handle.ownerId && newer.generation > handle.generation)
      ==> AfterDispose(r, handle).providers == r.providers
  {
    var after := AfterDispose(r, handle);
    forall id | id in r.providers
      ensures r.providers[id].generation == handle.generation ==> r.providers[id].ownerId == handle.ownerId
    {
      var p := r.providers[id];
      assert Handle(p.ownerId, p.generation) in issued;
    }
  }
}
