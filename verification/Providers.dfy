/** Capability providers for system actions (src/framework/provider-registry.ts). */
module Providers {
  import opened Plans
  import opened Lists
  import opened Safety

  datatype Provider = Provider(
    id: string,
    capabilities: seq<string>,
    executionContexts: seq<string>,
    targetKinds: seq<string>,
    commandTypes: seq<string>,
    supportsDryRun: bool,
    supportsExecute: bool)

  /** The capability registry: which target kinds a registered capability applies to. */
  type CapabilityRegistry = map<string, seq<string>>

  datatype Reason =
    | UndeclaredContext | UnregisteredCapability | CapabilityNotOnContext | IncompatibleTargetKind
    | NoProvider | ModeUnsupported | ContextUnsupported | CommandUnsupported | TargetUnsupported

  datatype Resolution = Resolved(capability: string, providerId: string) | Blocked(capability: string, reason: Reason)

  predicate SupportsMode(provider: Provider, mode: Mode) {
    if mode == Execute then provider.supportsExecute else provider.supportsDryRun
  }

  function ResolveCapability(capability: string, step: Step, context: Option<ContextDeclaration>,
                             registry: CapabilityRegistry, providers: seq<Provider>, mode: Mode): Resolution
    requires step.SystemAction?
  {
    if context.None? then Blocked(capability, UndeclaredContext)
    else if capability !in registry then Blocked(capability, UnregisteredCapability)
    else if capability !in context.value.capabilities then Blocked(capability, CapabilityNotOnContext)
    else if context.value.target !in registry[capability] then Blocked(capability, IncompatibleTargetKind)
    else
      var supporting := Filter((p: Provider) => capability in p.capabilities, providers);
      if |supporting| == 0 then Blocked(capability, NoProvider) else
      var inMode := Filter((p: Provider) => SupportsMode(p, mode), supporting);
      if |inMode| == 0 then Blocked(capability, ModeUnsupported) else
      var inContext := Filter((p: Provider) => step.executionContext in p.executionContexts, inMode);
      if |inContext| == 0 then Blocked(capability, ContextUnsupported) else
      var forCommand := Filter((p: Provider) => step.command.kind in p.commandTypes, inContext);
      if |forCommand| == 0 then Blocked(capability, CommandUnsupported) else
      var forTarget := Filter((p: Provider) => context.value.target in p.targetKinds, forCommand);
      if |forTarget| == 0 then Blocked(capability, TargetUnsupported) else
      Resolved(capability, forTarget[0].id)
  }

  /** One provider able to serve the capability for this step. */
  predicate Suits(provider: Provider, capability: string, step: Step, target: string, mode: Mode)
    requires step.SystemAction?
  {
    && capability in provider.capabilities
    && SupportsMode(provider, mode)
    && step.executionContext in provider.executionContexts
    && step.command.kind in provider.commandTypes
    && target in provider.targetKinds
  }

  predicate ContextOffers(capability: string, context: Option<ContextDeclaration>, registry: CapabilityRegistry) {
    && context.Some?
    && capability in registry
    && capability in context.value.capabilities
    && context.value.target in registry[capability]
  }

  /** A provider that suits and that no earlier provider in the list pre-empts. */
  ghost predicate FirstSuited(providers: seq<Provider>, i: nat, capability: string, step: Step, target: string, mode: Mode)
    requires step.SystemAction?
  {
    && i < |providers|
    && Suits(providers[i], capability, step, target, mode)
    && forall j :: 0 <= j < i ==> !Suits(providers[j], capability, step, target, mode)
  }

  lemma {:induction false} FilterHead<T>(keep: T -> bool, s: seq<T>)
    requires |Filter(keep, s)| > 0
    ensures exists i :: 0 <= i < |s| && keep(s[i]) && Filter(keep, s)[0] == s[i] && forall j :: 0 <= j < i ==> !keep(s[j])
  {
    if keep(s[0]) {
      assert Filter(keep, s)[0] == s[0];
    } else {
      FilterHead(keep, s[1..]);
      var i :| 0 <= i < |s[1..]| && keep(s[1..][i]) && Filter(keep, s[1..])[0] == s[1..][i] &&
        forall j :: 0 <= j < i ==> !keep(s[1..][j]);
      forall j | 0 <= j < i + 1 ensures !keep(s[j]) {
        if j > 0 {
          assert s[j] == s[1..][j - 1];
        }
      }
      assert s[i + 1] == s[1..][i];
    }
  }

  /** The five successive filters keep exactly the providers that pass all five tests. */
  lemma ChainIsConjunction(capability: string, step: Step, target: string, providers: seq<Provider>, mode: Mode)
    requires step.SystemAction?
    ensures
      var a := Filter((p: Provider) => capability in p.capabilities, providers);
      var b := Filter((p: Provider) => SupportsMode(p, mode), a);
      var c := Filter((p: Provider) => step.executionContext in p.executionContexts, b);
      var d := Filter((p: Provider) => step.command.kind in p.commandTypes, c);
      var e := Filter((p: Provider) => target in p.targetKinds, d);
      && |b| <= |a| && |c| <= |b| && |d| <= |c|
      && e == Filter((p: Provider) => Suits(p, capability, step, target, mode), providers)
  {
    var inMode := (p: Provider) => capability in p.capabilities && SupportsMode(p, mode);
    var inContext := (p: Provider) => inMode(p) && step.executionContext in p.executionContexts;
    var forCommand := (p: Provider) => inContext(p) && step.command.kind in p.commandTypes;
    var suits := (p: Provider) => Suits(p, capability, step, target, mode);
    FilterTwice((p: Provider) => capability in p.capabilities, (p: Provider) => SupportsMode(p, mode), inMode, providers);
    FilterTwice(inMode, (p: Provider) => step.executionContext in p.executionContexts, inContext, providers);
    FilterTwice(inContext, (p: Provider) => step.command.kind in p.commandTypes, forCommand, providers);
    FilterTwice(forCommand, (p: Provider) => target in p.targetKinds, suits, providers);
  }

  /** A capability resolves exactly when its context offers it and some provider suits, and then
      to the first provider that does. */
  lemma ResolutionIsFirstSuited(capability: string, step: Step, context: Option<ContextDeclaration>,
                                registry: CapabilityRegistry, providers: seq<Provider>, mode: Mode)
    requires step.SystemAction?
    ensures
      var r := ResolveCapability(capability, step, context, registry, providers, mode);
      && (r.Resolved? <==> ContextOffers(capability, context, registry) &&
                           exists p :: p in providers && Suits(p, capability, step, context.value.target, mode))
      && (r.Resolved? ==> exists i: nat :: FirstSuited(providers, i, capability, step, context.value.target, mode) &&
                                      r.providerId == providers[i].id)
  {
    if ContextOffers(capability, context, registry) {
      var target := context.value.target;
      var suits := (p: Provider) => Suits(p, capability, step, target, mode);
      ChainIsConjunction(capability, step, target, providers, mode);
      forall p ensures p in Filter(suits, providers) <==> p in providers && suits(p) {
        FilterMembers(suits, providers, p);
      }
      if |Filter(suits, providers)| > 0 {
        assert Filter(suits, providers)[0] in providers;
        FilterHead(suits, providers);
        var i :| 0 <= i < |providers| && suits(providers[i]) && Filter(suits, providers)[0] == providers[i] &&
          forall j :: 0 <= j < i ==> !suits(providers[j]);
        forall j | 0 <= j < i ensures !Suits(providers[j], capability, step, target, mode) {
          assert !suits(providers[j]);
        }
        assert FirstSuited(providers, i, capability, step, target, mode);
      }
    }
  }

  /** Some provider passes the first tests, as many as asked. */
  ghost predicate SomePasses(tests: nat, capability: string, step: Step, target: string, providers: seq<Provider>, mode: Mode)
    requires step.SystemAction?
  {
    exists p :: p in providers
      && (tests >= 1 ==> capability in p.capabilities)
      && (tests >= 2 ==> SupportsMode(p, mode))
      && (tests >= 3 ==> step.executionContext in p.executionContexts)
      && (tests >= 4 ==> step.command.kind in p.commandTypes)
      && (tests >= 5 ==> target in p.targetKinds)
  }

  lemma SomeKept(keep: Provider -> bool, s: seq<Provider>)
    ensures |Filter(keep, s)| > 0 <==> exists p :: p in s && keep(p)
  {
    if |Filter(keep, s)| > 0 {
      FilterMembers(keep, s, Filter(keep, s)[0]);
    }
    if p :| p in s && keep(p) {
      FilterMembers(keep, s, p);
    }
  }

  /** Each filter of the chain leaves a provider exactly when one passes all tests so far. */
  lemma ChainLeavesSome(capability: string, step: Step, target: string, providers: seq<Provider>, mode: Mode)
    requires step.SystemAction?
    ensures
      var a := Filter((p: Provider) => capability in p.capabilities, providers);
      var b := Filter((p: Provider) => SupportsMode(p, mode), a);
      var c := Filter((p: Provider) => step.executionContext in p.executionContexts, b);
      var d := Filter((p: Provider) => step.command.kind in p.commandTypes, c);
      var e := Filter((p: Provider) => target in p.targetKinds, d);
      && (|a| > 0 <==> SomePasses(1, capability, step, target, providers, mode))
      && (|b| > 0 <==> SomePasses(2, capability, step, target, providers, mode))
      && (|c| > 0 <==> SomePasses(3, capability, step, target, providers, mode))
      && (|d| > 0 <==> SomePasses(4, capability, step, target, providers, mode))
      && (|e| > 0 <==> SomePasses(5, capability, step, target, providers, mode))
  {
    hide Filter, SupportsMode;
    var offers := (p: Provider) => capability in p.capabilities;
    var inMode := (p: Provider) => offers(p) && SupportsMode(p, mode);
    var inContext := (p: Provider) => inMode(p) && step.executionContext in p.executionContexts;
    var forCommand := (p: Provider) => inContext(p) && step.command.kind in p.commandTypes;
    var suits := (p: Provider) => forCommand(p) && target in p.targetKinds;
    FilterTwice(offers, (p: Provider) => SupportsMode(p, mode), inMode, providers);
    FilterTwice(inMode, (p: Provider) => step.executionContext in p.executionContexts, inContext, providers);
    FilterTwice(inContext, (p: Provider) => step.command.kind in p.commandTypes, forCommand, providers);
    FilterTwice(forCommand, (p: Provider) => target in p.targetKinds, suits, providers);
    SomeKept(offers, providers);
    SomeKept(inMode, providers);
    SomeKept(inContext, providers);
    SomeKept(forCommand, providers);
    SomeKept(suits, providers);
  }

  /** Why no provider serves: the first test that leaves none. */
  lemma BlockedFor(capability: string, step: Step, context: Option<ContextDeclaration>,
                   registry: CapabilityRegistry, providers: seq<Provider>, mode: Mode)
    requires step.SystemAction? && ContextOffers(capability, context, registry)
    ensures var r, target := ResolveCapability(capability, step, context, registry, providers, mode), context.value.target;
      && r.capability == capability
      && (r == Blocked(capability, NoProvider) <==> !SomePasses(1, capability, step, target, providers, mode))
      && (r == Blocked(capability, ModeUnsupported) <==>
            SomePasses(1, capability, step, target, providers, mode) && !SomePasses(2, capability, step, target, providers, mode))
      && (r == Blocked(capability, ContextUnsupported) <==>
            SomePasses(2, capability, step, target, providers, mode) && !SomePasses(3, capability, step, target, providers, mode))
      && (r == Blocked(capability, CommandUnsupported) <==>
            SomePasses(3, capability, step, target, providers, mode) && !SomePasses(4, capability, step, target, providers, mode))
      && (r == Blocked(capability, TargetUnsupported) <==>
            SomePasses(4, capability, step, target, providers, mode) && !SomePasses(5, capability, step, target, providers, mode))
  {
    hide SupportsMode, SomePasses, Filter;
    ChainLeavesSome(capability, step, context.value.target, providers, mode);
    FewerPass(capability, step, context.value.target, providers, mode);
  }

  lemma FewerPass(capability: string, step: Step, target: string, providers: seq<Provider>, mode: Mode)
    requires step.SystemAction?
    ensures forall n: nat :: SomePasses(n + 1, capability, step, target, providers, mode) ==> SomePasses(n, capability, step, target, providers, mode)
  {
  }

  /** Before the providers are looked at: the context must be declared, the capability registered and offered,
      and the target of a fitting kind, in this order. */
  lemma NotOffered(capability: string, step: Step, context: Option<ContextDeclaration>,
                   registry: CapabilityRegistry, providers: seq<Provider>, mode: Mode)
    requires step.SystemAction?
    ensures var r := ResolveCapability(capability, step, context, registry, providers, mode);
      && (r == Blocked(capability, UndeclaredContext) <==> context.None?)
      && (r == Blocked(capability, UnregisteredCapability) <==> context.Some? && capability !in registry)
      && (r == Blocked(capability, CapabilityNotOnContext) <==>
            context.Some? && capability in registry && capability !in context.value.capabilities)
      && (r == Blocked(capability, IncompatibleTargetKind) <==>
            context.Some? && capability in registry && capability in context.value.capabilities
            && context.value.target !in registry[capability])
  {
  }

  function ResolveStep(step: Step, manifest: Manifest, registry: CapabilityRegistry, providers: seq<Provider>, mode: Mode)
    : (capabilities: seq<Resolution>)
    requires step.SystemAction?
    ensures |capabilities| == |step.requiredCapabilities|
  {
    var context := FindContext(manifest.executionContexts, step.executionContext);
    seq(|step.requiredCapabilities|, i requires 0 <= i < |step.requiredCapabilities| =>
      ResolveCapability(step.requiredCapabilities[i], step, context, registry, providers, mode))
  }

  predicate StepResolved(step: Step, manifest: Manifest, registry: CapabilityRegistry, providers: seq<Provider>, mode: Mode)
    requires step.SystemAction?
  {
    var capabilities := ResolveStep(step, manifest, registry, providers, mode);
    forall i :: 0 <= i < |capabilities| ==> capabilities[i].Resolved?
  }

  /** The context's declaration and the registry offer the capability, and some provider serves it for this
      step, in this mode. */
  ghost predicate Served(capability: string, step: Step, manifest: Manifest, registry: CapabilityRegistry, providers: seq<Provider>, mode: Mode)
    requires step.SystemAction?
  {
    var declared := FindContext(manifest.executionContexts, step.executionContext);
    && declared.Some? && capability in declared.value.capabilities
    && capability in registry && declared.value.target in registry[capability]
    && exists p :: p in providers && capability in p.capabilities
         && (mode == Execute ==> p.supportsExecute) && (mode == DryRun ==> p.supportsDryRun)
         && step.executionContext in p.executionContexts && step.command.kind in p.commandTypes
         && declared.value.target in p.targetKinds
  }

  /** An action may go ahead exactly when each capability it requires is served. */
  lemma StepResolvedIff(step: Step, manifest: Manifest, registry: CapabilityRegistry, providers: seq<Provider>, mode: Mode)
    requires step.SystemAction?
    ensures StepResolved(step, manifest, registry, providers, mode) <==>
      forall capability :: capability in step.requiredCapabilities ==> Served(capability, step, manifest, registry, providers, mode)
  {
    hide ResolveCapability;
    var declared := FindContext(manifest.executionContexts, step.executionContext);
    var all := ResolveStep(step, manifest, registry, providers, mode);
    forall i | 0 <= i < |all|
      ensures all[i].Resolved? <==> Served(step.requiredCapabilities[i], step, manifest, registry, providers, mode)
    {
      var capability := step.requiredCapabilities[i];
      ResolutionIsFirstSuited(capability, step, declared, registry, providers, mode);
      ServedIff(capability, step, manifest, registry, providers, mode);
    }
    hide Served;
    if forall capability :: capability in step.requiredCapabilities ==> Served(capability, step, manifest, registry, providers, mode) {
      forall i | 0 <= i < |all|
        ensures all[i].Resolved?
      {
        assert step.requiredCapabilities[i] in step.requiredCapabilities;
      }
    }
  }

  lemma ServedIff(capability: string, step: Step, manifest: Manifest, registry: CapabilityRegistry, providers: seq<Provider>, mode: Mode)
    requires step.SystemAction?
    ensures var declared := FindContext(manifest.executionContexts, step.executionContext);
      Served(capability, step, manifest, registry, providers, mode) <==>
        ContextOffers(capability, declared, registry)
        && exists p :: p in providers && Suits(p, capability, step, declared.value.target, mode)
  {
    var declared := FindContext(manifest.executionContexts, step.executionContext);
    if ContextOffers(capability, declared, registry) {
      forall p
        ensures Suits(p, capability, step, declared.value.target, mode) <==>
          && capability in p.capabilities
          && (mode == Execute ==> p.supportsExecute) && (mode == DryRun ==> p.supportsDryRun)
          && step.executionContext in p.executionContexts && step.command.kind in p.commandTypes
          && declared.value.target in p.targetKinds
      {
      }
    }
  }
}
