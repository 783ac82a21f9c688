/** State captures and blast-radius validation (src/framework/safety.ts). */
module Safety {
  import opened Plans
  import opened Text

  datatype CaptureStatus = Captured | CaptureSkipped | CaptureFailed

  /** The synchronous capture both engines call: it simulates data and reaches no backend. */
  function ExecuteCapture(capture: Capture): CaptureStatus {
    if capture.policy == Deferred then CaptureSkipped
    else if capture.cost == Expensive && capture.policy == BestEffort then CaptureSkipped
    else Captured
  }

  lemma CaptureIsTakenIff(capture: Capture)
    ensures ExecuteCapture(capture) == Captured <==>
      capture.policy == Required || (capture.policy == BestEffort && capture.cost != Expensive)
    ensures ExecuteCapture(capture) != Captured ==> ExecuteCapture(capture) == CaptureSkipped
  {
  }

  /** The test both engines make after a list of captures. */
  predicate RequiredCaptureFailed(captures: seq<Capture>) {
    exists i :: 0 <= i < |captures| && captures[i].policy == Required && ExecuteCapture(captures[i]) == CaptureFailed
  }

  /** A required capture is always taken, so the engines' failure branch for it is never entered. */
  lemma RequiredCapturesAreTaken(captures: seq<Capture>)
    ensures !RequiredCaptureFailed(captures)
    ensures forall i :: 0 <= i < |captures| && captures[i].policy == Required ==> ExecuteCapture(captures[i]) == Captured
  {
  }

  datatype ContextDeclaration = ContextDeclaration(name: string, target: string, capabilities: seq<string>)

  datatype TargetSystem = TargetSystem(technology: string, components: seq<string>)

  datatype Manifest = Manifest(executionContexts: seq<ContextDeclaration>, targetSystems: seq<TargetSystem>)

  datatype Component = Component(identifier: string, technology: string, role: string)

  /** The parts of the agent context the engines read. A trigger payload without a string
      `instance` is `None`. */
  datatype AgentContext = AgentContext(
    triggerInstance: Option<string>,
    components: seq<Component>,
    trustLevel: TrustLevel,
    trustOverrides: map<string, TrustLevel>,
    requireApprovalForAllElevated: bool)

  /** The first declaration with the step's context name. */
  function FindContext(contexts: seq<ContextDeclaration>, name: string): (found: Option<ContextDeclaration>)
    ensures found.Some? ==> found.value in contexts && found.value.name == name
    ensures found.None? ==> forall c :: c in contexts ==> c.name != name
  {
    if contexts == [] then None
    else if contexts[0].name == name then Some(contexts[0])
    else FindContext(contexts[1..], name)
  }

  /** Where several declarations have the name, the first one counts. */
  lemma {:induction false} FindsTheFirst(contexts: seq<ContextDeclaration>, name: string) returns (i: nat)
    requires FindContext(contexts, name).Some?
    ensures i < |contexts| && FindContext(contexts, name) == Some(contexts[i]) && contexts[i].name == name
    ensures forall j :: 0 <= j < i ==> contexts[j].name != name
  {
    i := 0;
    if contexts[0].name != name {
      var k := FindsTheFirst(contexts[1..], name);
      i := k + 1;
    }
  }

  ghost function NamesOfSystem(system: TargetSystem): set<string> {
    {system.technology} + set c | c in system.components
  }

  ghost function NamesOfComponent(component: Component): set<string> {
    {component.identifier, component.role, component.technology}
  }

  /** References the manifest and the step declare; the source drops those that normalise to nothing. */
  ghost predicate DeclaredReference(step: Step, manifest: Manifest, target: string, name: string)
    requires step.SystemAction?
  {
    || name == target
    || (exists system :: system in manifest.targetSystems && name in NamesOfSystem(system))
    || name in step.blastRadius.direct
    || name in step.blastRadius.indirect
  }

  /** References the run context supplies; the source keeps these even when they normalise to nothing. */
  ghost predicate ContextReference(context: AgentContext, name: string) {
    || context.triggerInstance == Some(name)
    || (exists component :: component in context.components && name in NamesOfComponent(component))
  }

  ghost predicate KnownReference(step: Step, manifest: Manifest, context: AgentContext, target: string, reference: string)
    requires step.SystemAction?
  {
    exists name :: Normalize(name) == reference &&
      ((DeclaredReference(step, manifest, target, name) && reference != "") || ContextReference(context, name))
  }

  predicate Overlaps(reference: string, target: string) {
    reference == target || Contains(reference, target) || Contains(target, reference)
  }

  /** A reference and a target overlap when one of them stands somewhere in the other. */
  lemma OverlapIff(reference: string, target: string)
    ensures Overlaps(reference, target) <==>
      (exists a, b :: reference == a + target + b) || (exists a, b :: target == a + reference + b)
  {
    hide Contains;
    ContainsIff(reference, target);
    ContainsIff(target, reference);
    ContainsItself(target);
  }

  ghost predicate BlastRadiusValid(step: Step, manifest: Manifest, context: AgentContext)
    requires step.SystemAction?
  {
    var declared := FindContext(manifest.executionContexts, step.executionContext);
    && declared.Some?
    && Normalize(step.target) != ""
    && exists reference :: KnownReference(step, manifest, context, declared.value.target, reference)
                        && Overlaps(reference, Normalize(step.target))
  }

  ghost predicate NamedByComponents(components: seq<Component>, reference: string) {
    exists c, name :: c in components && name in NamesOfComponent(c) && Normalize(name) == reference
  }

  function NormalizeAll(names: seq<string>): (references: set<string>)
    ensures forall r :: r in references <==> exists name :: name in names && Normalize(name) == r
  {
    set name | name in names :: Normalize(name)
  }

  function Flatten(lists: seq<seq<string>>): (flat: seq<string>)
    ensures forall x :: x in flat <==> exists i :: 0 <= i < |lists| && x in lists[i]
  {
    if lists == [] then [] else lists[0] + Flatten(lists[1..])
  }

  function DeclaredNameList(step: Step, manifest: Manifest, target: string): seq<string>
    requires step.SystemAction?
  {
    var systems := seq(|manifest.targetSystems|, i requires 0 <= i < |manifest.targetSystems| =>
      [manifest.targetSystems[i].technology] + manifest.targetSystems[i].components);
    [target] + Flatten(systems) + step.blastRadius.direct + step.blastRadius.indirect
  }

  function ReferencesOf(component: Component): set<string> {
    {Normalize(component.identifier), Normalize(component.role), Normalize(component.technology)}
  }

  function ReferencesOfAll(components: seq<Component>): (references: set<string>)
    ensures forall r :: r in references ==> NamedByComponents(components, r)
  {
    if components == [] then {} else
      var last := components[|components| - 1];
      assert forall name :: name in NamesOfComponent(last) ==> NamedByComponents(components, Normalize(name));
      assert NamesOfComponent(last) == {last.identifier, last.role, last.technology};
      assert forall r :: NamedByComponents(components[..|components| - 1], r) ==> NamedByComponents(components, r);
      ReferencesOfAll(components[..|components| - 1]) + ReferencesOf(last)
  }

  lemma {:induction false} ReferencesAreComplete(components: seq<Component>, c: Component, name: string)
    requires c in components && name in NamesOfComponent(c)
    ensures Normalize(name) in ReferencesOfAll(components)
  {
    var init, last := components[..|components| - 1], components[|components| - 1];
    assert components == init + [last];
    if c == last {
      assert Normalize(name) in ReferencesOf(last);
    } else {
      ReferencesAreComplete(init, c, name);
    }
  }

  lemma ReferencesAreExact(components: seq<Component>, reference: string)
    ensures reference in ReferencesOfAll(components) <==> NamedByComponents(components, reference)
  {
    hide Normalize, ReferencesOfAll;
    if NamedByComponents(components, reference) {
      var c, name :| c in components && name in NamesOfComponent(c) && Normalize(name) == reference;
      ReferencesAreComplete(components, c, name);
    }
  }

  /** The set `knownReferences`, grown as the source grows it. */
  method CollectReferences(step: Step, manifest: Manifest, context: AgentContext, target: string) returns (known: set<string>)
    requires step.SystemAction?
    ensures forall r :: r in known <==> KnownReference(step, manifest, context, target, r)
  {
    hide Normalize, NormalizeAll, DeclaredNameList, KnownReference, NamedByComponents, ReferencesOf;
    known := NormalizeAll(DeclaredNameList(step, manifest, target)) - {""};
    if context.triggerInstance.Some? {
      known := known + {Normalize(context.triggerInstance.value)};
    }
    ghost var base := known;
    for i := 0 to |context.components|
      invariant known == base + ReferencesOfAll(context.components[..i])
    {
      assert context.components[..i + 1][..i] == context.components[..i];
      known := known + ReferencesOf(context.components[i]);
    }
    assert context.components[..|context.components|] == context.components;
    forall r ensures r in known <==> KnownReference(step, manifest, context, target, r) {
      SplitReference(step, manifest, context, target, r);
      ReferencesAreExact(context.components, r);
    }
  }

  lemma SplitReference(step: Step, manifest: Manifest, context: AgentContext, target: string, r: string)
    requires step.SystemAction?
    ensures KnownReference(step, manifest, context, target, r) <==>
            || r in NormalizeAll(DeclaredNameList(step, manifest, target)) - {""}
            || (context.triggerInstance.Some? && r == Normalize(context.triggerInstance.value))
            || NamedByComponents(context.components, r)
  {
    var systems := seq(|manifest.targetSystems|, i requires 0 <= i < |manifest.targetSystems| =>
      [manifest.targetSystems[i].technology] + manifest.targetSystems[i].components);
    DeclaredNames(step, manifest, target, systems, DeclaredNameList(step, manifest, target));
    if r in NormalizeAll(DeclaredNameList(step, manifest, target)) - {""} {
      var name :| name in DeclaredNameList(step, manifest, target) && Normalize(name) == r;
      assert DeclaredReference(step, manifest, target, name);
    }
    if NamedByComponents(context.components, r) {
      var c, name :| c in context.components && name in NamesOfComponent(c) && Normalize(name) == r;
      assert ContextReference(context, name);
    }
    if context.triggerInstance.Some? {
      assert ContextReference(context, context.triggerInstance.value);
    }
  }

  /** `validateBlastRadius`: the verdict, without the message. */
  method ValidateBlastRadius(step: Step, manifest: Manifest, context: AgentContext) returns (valid: bool)
    requires step.SystemAction?
    ensures valid == BlastRadiusValid(step, manifest, context)
  {
    var declared := FindContext(manifest.executionContexts, step.executionContext);
    if declared.None? {
      return false;
    }
    var target := Normalize(step.target);
    if target == "" {
      return false;
    }
    var known := CollectReferences(step, manifest, context, declared.value.target);
    valid := exists r :: r in known && Overlaps(r, target);
  }

  lemma DeclaredNames(step: Step, manifest: Manifest, target: string, systems: seq<seq<string>>, names: seq<string>)
    requires step.SystemAction?
    requires |systems| == |manifest.targetSystems|
    requires forall i :: 0 <= i < |systems| ==>
      systems[i] == [manifest.targetSystems[i].technology] + manifest.targetSystems[i].components
    requires names == [target] + Flatten(systems) + step.blastRadius.direct + step.blastRadius.indirect
    ensures forall name :: name in names <==> DeclaredReference(step, manifest, target, name)
  {
    forall name
      ensures name in Flatten(systems) <==> exists s :: s in manifest.targetSystems && name in NamesOfSystem(s)
    {
      if s :| s in manifest.targetSystems && name in NamesOfSystem(s) {
        var i :| 0 <= i < |systems| && manifest.targetSystems[i] == s;
        assert name in systems[i];
      }
      if name in Flatten(systems) {
        var i :| 0 <= i < |systems| && name in systems[i];
        assert name in NamesOfSystem(manifest.targetSystems[i]);
      }
    }
  }

  /** The empty reference is known exactly when the trigger or the topology supplies a blank name. */
  lemma EmptyReferenceComesFromContext(step: Step, manifest: Manifest, context: AgentContext, target: string)
    requires step.SystemAction?
    ensures KnownReference(step, manifest, context, target, "") <==>
            exists name :: Blank(name) && ContextReference(context, name)
  {
    forall name ensures Normalize(name) == "" <==> Blank(name) {
      NormalizesToEmpty(name);
    }
  }

  /** One blank name in the run context switches the target test off: every non-blank target of a
      declared context is then accepted, whatever the manifest and the step declare. */
  lemma BlankContextNameAdmitsEveryTarget(step: Step, manifest: Manifest, context: AgentContext, name: string)
    requires step.SystemAction?
    requires Blank(name) && ContextReference(context, name)
    ensures BlastRadiusValid(step, manifest, context) <==>
            FindContext(manifest.executionContexts, step.executionContext).Some? && !Blank(step.target)
  {
    NormalizesToEmpty(step.target);
    var declared := FindContext(manifest.executionContexts, step.executionContext);
    if declared.Some? && !Blank(step.target) {
      EmptyReferenceComesFromContext(step, manifest, context, declared.value.target);
      ContainsEmpty(Normalize(step.target));
      assert Overlaps("", Normalize(step.target));
    }
  }

  /** Without such a name, acceptance needs a genuine, non-empty reference that overlaps the target. */
  lemma AcceptedTargetIsRepresented(step: Step, manifest: Manifest, context: AgentContext)
    requires step.SystemAction?
    requires forall name :: ContextReference(context, name) ==> !Blank(name)
    requires BlastRadiusValid(step, manifest, context)
    ensures exists name :: !Blank(name) && Overlaps(Normalize(name), Normalize(step.target)) &&
              (ContextReference(context, name) ||
               DeclaredReference(step, manifest, FindContext(manifest.executionContexts, step.executionContext).value.target, name))
  {
    var target := FindContext(manifest.executionContexts, step.executionContext).value.target;
    var reference :| KnownReference(step, manifest, context, target, reference) && Overlaps(reference, Normalize(step.target));
    var name :| Normalize(name) == reference &&
      ((DeclaredReference(step, manifest, target, name) && reference != "") || ContextReference(context, name));
    NormalizesToEmpty(name);
  }
}
