/** What each proposed action of a bundle adds to the plan, its rejections and its warnings
    (src/framework/bundle-to-plan.ts). */
module Contributions {
  import opened Plans
  import opened Templates
  import opened Bundle

  /** The target of an action: its own if it names one, else the first kind its template lists. */
  ghost predicate TargetIs(action: ProposedAction, t: Template, target: string) {
    if action.target.Some? && |action.target.value| > 0 then target == action.target.value
    else |t.targetKinds| >= 1 && target == t.targetKinds[0]
  }

  ghost predicate HasTarget(action: ProposedAction, t: Template) {
    exists target :: |target| > 0 && TargetIs(action, t, target)
  }

  lemma TargetIff(action: ProposedAction, t: Template, target: string)
    ensures |target| > 0 ==> (PickTarget(action, t) == target <==> TargetIs(action, t, target))
    ensures PickTarget(action, t) == "" <==> !HasTarget(action, t)
  {
    if PickTarget(action, t) != "" {
      assert TargetIs(action, t, PickTarget(action, t));
    }
  }

  /** The differences between what the response says of an action and its template, class first. */
  ghost predicate DifferencesNoted(action: ProposedAction, t: Template, notes: seq<Warning>) {
    && (forall n :: n in notes ==> n == ClassDiffers(action.actionId) || n == MutationDiffers(action.actionId))
    && (ClassDiffers(action.actionId) in notes <==> action.actionClass != t.actionClass)
    && (MutationDiffers(action.actionId) in notes <==> action.mutationType != t.mutationType)
    && |notes| <= 2 && (|notes| == 2 ==> notes == [ClassDiffers(action.actionId), MutationDiffers(action.actionId)])
  }

  lemma WarningsNote(action: ProposedAction, t: Template)
    ensures DifferencesNoted(action, t, Warnings(action, t))
  {
  }

  /** The approval, if the template mutates, and the step itself. */
  ghost predicate StepsAdded(d: Draft, t: Template, action: ProposedAction, target: string, added: seq<Step>) {
    var approval := HumanApproval(StepId(d.counter + 1), [action.actionId]);
    if t.mutationType != "none" then
      |added| == 2 && added[0] == approval && TemplateToStep(t, StepId(d.counter + 2), target, action.captureName) == Some(added[1])
    else |added| == 1 && TemplateToStep(t, StepId(d.counter + 1), target, action.captureName) == Some(added[0])
  }

  /** One action's contribution: nothing but a rejection for an unknown id or without a target; otherwise its
      steps; and for every known id the notes on how the response differs from the template. */
  ghost predicate Contributes(templates: map<string, Template>, d: Draft, later: Draft, action: ProposedAction) {
    if action.actionId !in templates then
      later == d.(rejected := d.rejected + [NoTemplate(action.actionId)])
    else
      var t := templates[action.actionId];
      && (exists notes :: DifferencesNoted(action, t, notes) && later.warnings == d.warnings + notes)
      && if !HasTarget(action, t) then
           later.steps == d.steps && later.origin == d.origin && later.counter == d.counter
           && later.rejected == d.rejected + [NoTarget(action.actionId)]
         else
           && later.rejected == d.rejected
           && exists target, added ::
                |target| > 0 && TargetIs(action, t, target) && StepsAdded(d, t, action, target, added) && later.steps == d.steps + added
  }

  /** The n-th action of a bundle contributes that, and nothing else. */
  lemma EachActionContributes(templates: map<string, Template>, actions: seq<ProposedAction>, n: nat)
    requires ValidRegistry(templates) && n < |actions|
    ensures Contributes(templates, TranslateAll(templates, actions[..n]), TranslateAll(templates, actions[..n + 1]), actions[n])
  {
    hide StepId, ValidRegistry, PickTarget, Warnings, TemplateToStep, TargetIs, HasTarget, DifferencesNoted;
    var action, d, later := actions[n], TranslateAll(templates, actions[..n]), TranslateAll(templates, actions[..n + 1]);
    assert actions[..n + 1][..n] == actions[..n];
    assert later == Translate(templates, d, action);
    if action.actionId in templates {
      var t := templates[action.actionId];
      WarningsNote(action, t);
      TargetIff(action, t, PickTarget(action, t));
      assert later.warnings == d.warnings + Warnings(action, t);
      if HasTarget(action, t) {
        AddsItsSteps(templates, d, action);
      }
    }
  }

  lemma AddsItsSteps(templates: map<string, Template>, d: Draft, action: ProposedAction)
    requires ValidRegistry(templates) && action.actionId in templates && PickTarget(action, templates[action.actionId]) != ""
    ensures var t, later := templates[action.actionId], Translate(templates, d, action);
      && later.rejected == d.rejected
      && exists added :: StepsAdded(d, t, action, PickTarget(action, t), added) && later.steps == d.steps + added
  {
    hide StepId, PickTarget, Warnings, TemplateToStep, ValidRegistry;
    var t := templates[action.actionId];
    var target := PickTarget(action, t);
    var first, second := StepId(d.counter + 1), StepId(d.counter + 2);
    RegisteredTemplatesExpand(templates, action.actionId, first, target, action.captureName);
    RegisteredTemplatesExpand(templates, action.actionId, second, target, action.captureName);
    var approval := HumanApproval(first, [action.actionId]);
    var added :=
      if t.mutationType != "none" then [approval, TemplateToStep(t, second, target, action.captureName).value]
      else [TemplateToStep(t, first, target, action.captureName).value];
    assert StepsAdded(d, t, action, target, added);
    var later := Translate(templates, d, action);
    if t.mutationType != "none" {
      assert d.steps + [approval] + [added[1]] == d.steps + added;
    }
    assert later.steps == d.steps + added;
  }

  /** The plan opens with a notification if and only if it holds an action above routine risk, and holds no
      other one. */
  lemma NotifiesIff(d: Draft)
    requires forall i :: 0 <= i < |d.steps| ==> !d.steps[i].HumanNotification?
    ensures var steps := Finish(d).steps;
      && ((exists i :: 0 <= i < |steps| && steps[i].HumanNotification?) <==> AboveRoutine(steps))
      && (AboveRoutine(steps) ==> steps[0].HumanNotification? && steps[1..] == d.steps)
      && (!AboveRoutine(steps) ==> steps == d.steps)
  {
    hide StepId;
    var steps := Finish(d).steps;
    assert HasElevatedOrHigher(d.steps) <==> AboveRoutine(d.steps);
    if HasElevatedOrHigher(d.steps) {
      assert steps[1..] == d.steps;
      var i :| 0 <= i < |d.steps| && d.steps[i].SystemAction? && d.steps[i].riskLevel != Routine;
      assert steps[i + 1] == d.steps[i] && steps[0].HumanNotification?;
    }
  }

  ghost predicate AboveRoutine(steps: seq<Step>) {
    exists i :: 0 <= i < |steps| && steps[i].SystemAction? && steps[i].riskLevel != Routine
  }

  /** The warning that nothing can be executed stands at the end if and only if the plan has no step, and the
      notes on the actions come before it unchanged. */
  lemma EmptyPlanIsNoted(d: Draft)
    requires NothingExecutable !in d.warnings
    ensures var plan := Finish(d);
      && (NothingExecutable in plan.warnings <==> |plan.steps| == 0)
      && plan.warnings[..|d.warnings|] == d.warnings && |plan.warnings| == |d.warnings| + (if |plan.steps| == 0 then 1 else 0)
      && plan.rejected == d.rejected
  {
    hide StepId;
  }

  lemma {:induction false} DraftsNoteDifferences(templates: map<string, Template>, actions: seq<ProposedAction>)
    ensures NothingExecutable !in TranslateAll(templates, actions).warnings
  {
    hide StepId, PickTarget, TemplateToStep;
    if actions != [] {
      DraftsNoteDifferences(templates, actions[..|actions| - 1]);
    }
  }

  lemma DraftsHoldNoNotification(templates: map<string, Template>, actions: seq<ProposedAction>, i: nat)
    requires ValidRegistry(templates) && i < |TranslateAll(templates, actions).steps|
    ensures !TranslateAll(templates, actions).steps[i].HumanNotification?
  {
    hide TranslateAll, WellBuilt;
    var d := TranslateAll(templates, actions);
    TranslationIsWellBuilt(templates, actions);
    WellBuiltMeans(templates, d);
    assert Fits(templates, d.steps, d.origin, i);
  }

  /** For a whole bundle: a notification exactly with an action above routine risk, and the warning exactly
      without any accepted action. */
  lemma BundleIsAnnounced(templates: map<string, Template>, actions: seq<ProposedAction>)
    requires ValidRegistry(templates)
    ensures var plan := TranslateBundle(templates, actions);
      && ((exists i :: 0 <= i < |plan.steps| && plan.steps[i].HumanNotification?) <==> AboveRoutine(plan.steps))
      && (AboveRoutine(plan.steps) ==> plan.steps[0].HumanNotification?)
      && (NothingExecutable in plan.warnings <==> |plan.steps| == 0)
  {
    hide TranslateAll, Finish, ValidRegistry;
    var d := TranslateAll(templates, actions);
    DraftsNoteDifferences(templates, actions);
    forall i | 0 <= i < |d.steps|
      ensures !d.steps[i].HumanNotification?
    {
      DraftsHoldNoNotification(templates, actions, i);
    }
    NotifiesIff(d);
    EmptyPlanIsNoted(d);
  }
}
