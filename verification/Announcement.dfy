/** The rollback strategy a bundle plan announces (src/framework/bundle-to-plan.ts), and when the
    announcement is true. */
module Announcement {
  import opened Plans
  import opened Lists
  import opened Templates
  import opened Bundle

  /** The two stepwise strategies differ in their description: `PerStep` says that each mutating step
      carries its own directive, `ByHand` that the mutating steps are routine-risk. */
  datatype Strategy = NothingToUndo | PerStep | ByHand

  function DeriveRollbackStrategy(steps: seq<Step>): Strategy {
    if !exists i :: 0 <= i < |steps| && steps[i].SystemAction? then NothingToUndo
    else if exists i :: 0 <= i < |steps| && steps[i].SystemAction? && steps[i].rollback.Some? then PerStep
    else ByHand
  }

  ghost predicate AllRoutine(steps: seq<Step>) {
    forall i :: 0 <= i < |steps| && steps[i].SystemAction? ==> steps[i].riskLevel == Routine
  }

  ghost predicate AllCarryDirectives(steps: seq<Step>) {
    forall i :: 0 <= i < |steps| && steps[i].SystemAction? ==> steps[i].rollback.Some?
  }

  /** What the description of the strategy says of the steps is so. */
  ghost predicate Honest(steps: seq<Step>) {
    match DeriveRollbackStrategy(steps)
    case NothingToUndo => forall i :: 0 <= i < |steps| ==> !steps[i].SystemAction?
    case PerStep => AllCarryDirectives(steps)
    case ByHand => AllRoutine(steps)
  }

  // ---- the system actions of a plan are those of the accepted actions ----

  ghost predicate Mirrors(t: Template, step: Step) {
    t.stepKind == SystemKind && step.SystemAction? && t.riskLevel == Some(step.riskLevel) && step.rollback == t.rollback
  }

  lemma {:induction false} ExecutedExactly(steps: seq<Step>, origin: map<string, string>, id: string)
    requires forall k :: 0 <= k < |steps| ==> steps[k].id in origin
    ensures id in Executed(steps, origin) <==>
      exists k :: 0 <= k < |steps| && !steps[k].HumanApproval? && origin[steps[k].id] == id
  {
    if steps != [] {
      var init, last := steps[..|steps| - 1], steps[|steps| - 1];
      assert forall k :: 0 <= k < |init| ==> init[k] == steps[k];
      ExecutedExactly(init, origin, id);
      assert steps[|steps| - 1] == last;
      if k :| 0 <= k < |steps| && !steps[k].HumanApproval? && origin[steps[k].id] == id && k < |init| {
        assert init[k] == steps[k];
      }
    }
  }

  ghost predicate Proposes(templates: map<string, Template>, actions: seq<ProposedAction>, id: string) {
    exists a :: a in actions && Accepted(templates, a) && a.actionId == id
  }

  lemma ExecutedAreProposed(templates: map<string, Template>, actions: seq<ProposedAction>, id: string)
    ensures id in Ids(Filter((a: ProposedAction) => Accepted(templates, a), actions)) <==> Proposes(templates, actions, id)
  {
    var keep := (a: ProposedAction) => Accepted(templates, a);
    var kept := Filter(keep, actions);
    if id in Ids(kept) {
      var i :| 0 <= i < |kept| && Ids(kept)[i] == id;
      FilterMembers(keep, actions, kept[i]);
    }
    if Proposes(templates, actions, id) {
      var a :| a in actions && Accepted(templates, a) && a.actionId == id;
      FilterMembers(keep, actions, a);
      var i :| 0 <= i < |kept| && kept[i] == a;
      assert Ids(kept)[i] == id;
    }
  }

  /** Every system action of the draft mirrors the template of some accepted action. */
  lemma DraftActionIsProposed(templates: map<string, Template>, actions: seq<ProposedAction>, k: nat)
    requires ValidRegistry(templates)
    requires k < |TranslateAll(templates, actions).steps| && TranslateAll(templates, actions).steps[k].SystemAction?
    ensures var d := TranslateAll(templates, actions);
      d.steps[k].id in d.origin && d.origin[d.steps[k].id] in templates
      && Mirrors(templates[d.origin[d.steps[k].id]], d.steps[k]) && Proposes(templates, actions, d.origin[d.steps[k].id])
  {
    hide TranslateAll, WellBuilt, ValidRegistry, Accepted;
    var d := TranslateAll(templates, actions);
    TranslationIsWellBuilt(templates, actions);
    WellBuiltMeans(templates, d);
    assert Fits(templates, d.steps, d.origin, k);
    ActionsAreConserved(templates, actions);
    ExecutedExactly(d.steps, d.origin, d.origin[d.steps[k].id]);
    ExecutedAreProposed(templates, actions, d.origin[d.steps[k].id]);
  }

  /** Every accepted action with a system template has its step. */
  lemma ProposedActionIsInDraft(templates: map<string, Template>, actions: seq<ProposedAction>, id: string) returns (k: nat)
    requires ValidRegistry(templates)
    requires Proposes(templates, actions, id) && id in templates && templates[id].stepKind == SystemKind
    ensures var d := TranslateAll(templates, actions);
      k < |d.steps| && Mirrors(templates[id], d.steps[k])
  {
    hide TranslateAll, WellBuilt, ValidRegistry, Accepted;
    var d := TranslateAll(templates, actions);
    TranslationIsWellBuilt(templates, actions);
    WellBuiltMeans(templates, d);
    ActionsAreConserved(templates, actions);
    ExecutedExactly(d.steps, d.origin, id);
    ExecutedAreProposed(templates, actions, id);
    k :| 0 <= k < |d.steps| && !d.steps[k].HumanApproval? && d.origin[d.steps[k].id] == id;
    assert Fits(templates, d.steps, d.origin, k);
  }

  lemma PlanActionIsProposed(templates: map<string, Template>, actions: seq<ProposedAction>, i: nat) returns (id: string)
    requires ValidRegistry(templates)
    requires i < |TranslateBundle(templates, actions).steps| && TranslateBundle(templates, actions).steps[i].SystemAction?
    ensures id in templates && Proposes(templates, actions, id) && Mirrors(templates[id], TranslateBundle(templates, actions).steps[i])
  {
    hide TranslateAll, Finish, ValidRegistry, Mirrors, Proposes;
    var d := TranslateAll(templates, actions);
    FinishPlaces(d);
    assert Placed(d, Finish(d).steps, i);
    var k := i - (|Finish(d).steps| - |d.steps|);
    DraftActionIsProposed(templates, actions, k);
    id := d.origin[d.steps[k].id];
  }

  lemma ProposedActionIsInPlan(templates: map<string, Template>, actions: seq<ProposedAction>, id: string) returns (i: nat)
    requires ValidRegistry(templates)
    requires Proposes(templates, actions, id) && id in templates && templates[id].stepKind == SystemKind
    ensures i < |TranslateBundle(templates, actions).steps| && Mirrors(templates[id], TranslateBundle(templates, actions).steps[i])
  {
    hide TranslateAll, Finish, ValidRegistry, Mirrors, Proposes;
    var d := TranslateAll(templates, actions);
    var k := ProposedActionIsInDraft(templates, actions, id);
    FinishPlaces(d);
    i := k + (|Finish(d).steps| - |d.steps|);
    assert Placed(d, Finish(d).steps, i);
  }

  // ---- when the announcement is true ----

  predicate RoutineOrCovered(t: Template) {
    t.stepKind == SystemKind && t.riskLevel != Some(Routine) ==> t.rollback.Some?
  }

  /** No template above routine risk goes without a rollback directive. */
  ghost predicate RoutineUnlessCovered(templates: map<string, Template>) {
    forall id :: id in templates ==> RoutineOrCovered(templates[id])
  }

  /** The system templates all have a rollback directive, or none has. */
  ghost predicate CoveredAlike(templates: map<string, Template>) {
    forall a, b :: a in templates && b in templates && templates[a].stepKind == SystemKind && templates[b].stepKind == SystemKind ==>
      (templates[a].rollback.Some? <==> templates[b].rollback.Some?)
  }

  ghost predicate ByHandIsTrue(templates: map<string, Template>, actions: seq<ProposedAction>) {
    var steps := TranslateBundle(templates, actions).steps;
    DeriveRollbackStrategy(steps) == ByHand ==> AllRoutine(steps)
  }

  ghost predicate PerStepIsTrue(templates: map<string, Template>, actions: seq<ProposedAction>) {
    var steps := TranslateBundle(templates, actions).steps;
    DeriveRollbackStrategy(steps) == PerStep ==> AllCarryDirectives(steps)
  }

  /** The action that asks for a template by name, with a target of its own. */
  function Ask(id: string): ProposedAction {
    ProposedAction(id, 0, "none", Some("target"), None)
  }

  lemma AskIsProposed(templates: map<string, Template>, actions: seq<ProposedAction>, id: string)
    requires id in templates && Ask(id) in actions
    ensures Proposes(templates, actions, id)
  {
    assert Accepted(templates, Ask(id));
  }

  /** Any registered template above routine risk without a directive gives a plan that announces
      routine-risk steps and holds a riskier one. */
  lemma ByHandMayBeElevated(templates: map<string, Template>, id: string)
    requires ValidRegistry(templates) && id in templates && !RoutineOrCovered(templates[id])
    ensures !ByHandIsTrue(templates, [Ask(id)])
  {
    hide TranslateBundle, ValidRegistry;
    var actions := [Ask(id)];
    var steps := TranslateBundle(templates, actions).steps;
    AskIsProposed(templates, actions, id);
    var i := ProposedActionIsInPlan(templates, actions, id);
    forall k | 0 <= k < |steps| && steps[k].SystemAction?
      ensures steps[k].rollback.None?
    {
      var other := PlanActionIsProposed(templates, actions, k);
      assert other == id;
    }
    assert steps[i].riskLevel != Routine;
  }

  /** Two system templates that differ in having a directive give a plan that announces one for each
      mutating step and lacks one. */
  lemma PerStepMayBeShort(templates: map<string, Template>, covered: string, bare: string)
    requires ValidRegistry(templates) && covered in templates && bare in templates
    requires templates[covered].stepKind == SystemKind && templates[covered].rollback.Some?
    requires templates[bare].stepKind == SystemKind && templates[bare].rollback.None?
    ensures !PerStepIsTrue(templates, [Ask(covered), Ask(bare)])
  {
    hide TranslateBundle, ValidRegistry;
    var actions := [Ask(covered), Ask(bare)];
    AskIsProposed(templates, actions, covered);
    AskIsProposed(templates, actions, bare);
    var i := ProposedActionIsInPlan(templates, actions, covered);
    var j := ProposedActionIsInPlan(templates, actions, bare);
    var steps := TranslateBundle(templates, actions).steps;
    assert steps[i].rollback.Some? && steps[j].rollback.None?;
  }

  /** Over a registry, every plan that announces routine-risk steps holds only such steps exactly when no
      registered template is above routine risk without a rollback directive. */
  lemma ByHandIsTrueIff(templates: map<string, Template>)
    requires ValidRegistry(templates)
    ensures (forall actions :: ByHandIsTrue(templates, actions)) <==> RoutineUnlessCovered(templates)
  {
    hide TranslateBundle, ValidRegistry, DeriveRollbackStrategy, ByHandIsTrue;
    if RoutineUnlessCovered(templates) {
      forall actions
        ensures ByHandIsTrue(templates, actions)
      {
        CoveredRegistryIsHonest(templates, actions);
      }
    } else {
      var id :| id in templates && !RoutineOrCovered(templates[id]);
      ByHandMayBeElevated(templates, id);
    }
  }

  lemma CoveredRegistryIsHonest(templates: map<string, Template>, actions: seq<ProposedAction>)
    requires ValidRegistry(templates) && RoutineUnlessCovered(templates)
    ensures ByHandIsTrue(templates, actions)
  {
    hide TranslateBundle, ValidRegistry;
    var steps := TranslateBundle(templates, actions).steps;
    if DeriveRollbackStrategy(steps) == ByHand {
      forall i | 0 <= i < |steps| && steps[i].SystemAction?
        ensures steps[i].riskLevel == Routine
      {
        var id := PlanActionIsProposed(templates, actions, i);
        assert RoutineOrCovered(templates[id]);
      }
    }
  }

  /** Every plan that announces a directive for each mutating step has one exactly when the registered
      system templates all carry one or none does. */
  lemma PerStepIsTrueIff(templates: map<string, Template>)
    requires ValidRegistry(templates)
    ensures (forall actions :: PerStepIsTrue(templates, actions)) <==> CoveredAlike(templates)
  {
    hide TranslateBundle, ValidRegistry, DeriveRollbackStrategy, PerStepIsTrue;
    if CoveredAlike(templates) {
      forall actions
        ensures PerStepIsTrue(templates, actions)
      {
        AlikeRegistryIsHonest(templates, actions);
      }
    } else {
      var a, b :| a in templates && b in templates && templates[a].stepKind == SystemKind && templates[b].stepKind == SystemKind
        && templates[a].rollback.Some? && templates[b].rollback.None?;
      PerStepMayBeShort(templates, a, b);
    }
  }

  lemma AlikeRegistryIsHonest(templates: map<string, Template>, actions: seq<ProposedAction>)
    requires ValidRegistry(templates) && CoveredAlike(templates)
    ensures PerStepIsTrue(templates, actions)
  {
    hide TranslateBundle, ValidRegistry;
    var steps := TranslateBundle(templates, actions).steps;
    if DeriveRollbackStrategy(steps) == PerStep {
      var i :| 0 <= i < |steps| && steps[i].SystemAction? && steps[i].rollback.Some?;
      var a := PlanActionIsProposed(templates, actions, i);
      forall j | 0 <= j < |steps| && steps[j].SystemAction?
        ensures steps[j].rollback.Some?
      {
        var b := PlanActionIsProposed(templates, actions, j);
      }
    }
  }

  ghost predicate ClassTwoOnly(templates: map<string, Template>, actions: seq<ProposedAction>) {
    forall id :: Proposes(templates, actions, id) && id in templates && templates[id].stepKind == SystemKind ==> templates[id].actionClass >= 2
  }

  /** A plan whose system actions all come from templates of class 2 or more announces the truth: each
      carries its own directive. */
  lemma StrategyIsHonestFromClassTwo(templates: map<string, Template>, actions: seq<ProposedAction>)
    requires ValidRegistry(templates)
    requires ClassTwoOnly(templates, actions)
    ensures var steps := TranslateBundle(templates, actions).steps;
      Honest(steps) && AllCarryDirectives(steps) && DeriveRollbackStrategy(steps) != ByHand
  {
    hide TranslateBundle;
    var steps := TranslateBundle(templates, actions).steps;
    forall i | 0 <= i < |steps| && steps[i].SystemAction?
      ensures steps[i].rollback.Some?
    {
      var id := PlanActionIsProposed(templates, actions, i);
      assert Scaffolded(templates[id]);
    }
  }
}
