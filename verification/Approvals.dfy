/** Whether every system action of a bundle plan awaits its approval. The translator inserts approvals by
    the template's mutation type, not by its step kind (src/framework/bundle-to-plan.ts). */
module Approvals {
  import opened Plans
  import opened Catalog
  import opened CatalogGate
  import opened Runs
  import opened Templates
  import opened Bundle
  import opened GateExactness
  import A = Announcement
  import S = Sequencing

  /** The approval of the same action stands right before the event's step and has ended in success. */
  ghost predicate AwaitsApproval(plan: Plan, origin: map<string, string>, h: History, k: nat)
    requires k < |h|
  {
    var step := StepOf(h[k]);
    && step.id in origin
    && exists j, m ::
         && 0 < j < |plan.steps| && plan.steps[j] == step
         && plan.steps[j - 1] == HumanApproval(plan.steps[j - 1].id, [origin[step.id]])
         && 0 <= m < k && h[m] == StepDone(j - 1, plan.steps[j - 1], Success)
  }

  ghost predicate RunAwaits(plan: Plan, origin: map<string, string>, h: History) {
    forall k :: 0 <= k < |h| && StepOf(h[k]).SystemAction? ==> AwaitsApproval(plan, origin, h, k)
  }

  /** In every run of either engine of every plan with the bundle's steps. */
  ghost predicate EveryActionAwaits(templates: map<string, Template>, actions: seq<ProposedAction>) {
    forall plan: Plan, cfg: Setting, w: World, fuel: nat, h: History ::
      plan.steps == TranslateBundle(templates, actions).steps && S.Shown(cfg, w, plan, fuel, h) ==>
        RunAwaits(plan, TranslateBundle(templates, actions).origin, h)
  }

  predicate DeclaresMutation(t: Template) {
    t.stepKind == SystemKind ==> t.mutationType != "none"
  }

  ghost predicate AllDeclareMutation(templates: map<string, Template>) {
    forall id :: id in templates ==> DeclaresMutation(templates[id])
  }

  lemma ActionComesFromMutation(templates: map<string, Template>, actions: seq<ProposedAction>, i: nat)
    requires ValidRegistry(templates) && AllDeclareMutation(templates)
    requires i < |TranslateBundle(templates, actions).steps| && TranslateBundle(templates, actions).steps[i].SystemAction?
    ensures ComesFromMutation(templates, TranslateBundle(templates, actions), TranslateBundle(templates, actions).steps[i])
  {
    hide TranslateAll, Finish, ValidRegistry;
    var d := TranslateAll(templates, actions);
    FinishPlaces(d);
    FinishKeepsOrigin(d);
    assert Placed(d, Finish(d).steps, i);
    var k := i - (|Finish(d).steps| - |d.steps|);
    A.DraftActionIsProposed(templates, actions, k);
    assert DeclaresMutation(templates[d.origin[d.steps[k].id]]);
  }

  lemma EventStepIsInPlan(templates: map<string, Template>, actions: seq<ProposedAction>, plan: Plan,
                          cfg: Setting, w: World, fuel: nat, h: History, k: nat) returns (j: nat)
    requires ValidRegistry(templates) && plan.steps == TranslateBundle(templates, actions).steps
    requires S.Shown(cfg, w, plan, fuel, h) && k < |h|
    ensures j < |plan.steps| && plan.steps[j] == StepOf(h[k])
  {
    hide S.Shown, TranslateAll, Finish, WellBuilt, ValidRegistry;
    TranslationIsWellBuilt(templates, actions);
    S.EveryRunIsSequenced(cfg, w, plan, fuel, h);
    assert S.InSequence(plan, h, k);
    j :| 0 <= j < |plan.steps| && S.Owned(plan, h, k, j);
    NothingBranches(templates, TranslateAll(templates, actions), j);
  }

  lemma DeclaredActionsAwait(templates: map<string, Template>, actions: seq<ProposedAction>, plan: Plan,
                             cfg: Setting, w: World, fuel: nat, h: History)
    requires ValidRegistry(templates) && AllDeclareMutation(templates)
    requires plan.steps == TranslateBundle(templates, actions).steps && S.Shown(cfg, w, plan, fuel, h)
    ensures RunAwaits(plan, TranslateBundle(templates, actions).origin, h)
  {
    hide TranslateBundle, S.Shown, ValidRegistry;
    forall k | 0 <= k < |h| && StepOf(h[k]).SystemAction?
      ensures AwaitsApproval(plan, TranslateBundle(templates, actions).origin, h, k)
    {
      var j := EventStepIsInPlan(templates, actions, plan, cfg, w, fuel, h, k);
      ActionComesFromMutation(templates, actions, j);
      MutationsAwaitTheirApproval(templates, actions, plan, cfg, w, fuel, h, k);
    }
  }

  /** The plan of one undeclared system action: perhaps a notification, then the action. */
  lemma UndeclaredPlan(templates: map<string, Template>, id: string) returns (j: nat)
    requires ValidRegistry(templates) && id in templates && !DeclaresMutation(templates[id])
    ensures var steps := TranslateBundle(templates, [A.Ask(id)]).steps;
      && |steps| == j + 1 && steps[j].SystemAction?
      && forall i :: 0 <= i < j ==> steps[i].HumanNotification?
  {
    hide StepId, ValidRegistry, Translate, HasElevatedOrHigher;
    var actions := [A.Ask(id)];
    assert actions[..0] == [] && TranslateAll(templates, []) == EMPTY;
    assert Accepted(templates, A.Ask(id));
    var step := AcceptedActionIsAppended(templates, EMPTY, A.Ask(id));
    var d := TranslateAll(templates, actions);
    assert d.steps == [step];
    FinishPlaces(d);
    var steps := Finish(d).steps;
    j := |steps| - 1;
    forall i | 0 <= i < |steps|
      ensures if i < j then steps[i].HumanNotification? else steps[i] == step
    {
      assert Placed(d, steps, i);
    }
  }

  /** A registered system template that declares no mutation gives a plan with an action that some run
      carries out without any approval, whatever its risk. */
  lemma UndeclaredActionRunsUnapproved(templates: map<string, Template>, id: string)
    requires ValidRegistry(templates) && id in templates && !DeclaresMutation(templates[id])
    ensures !EveryActionAwaits(templates, [A.Ask(id)])
  {
    hide TranslateBundle, S.Shown, ValidRegistry, Guarded;
    var bundle := TranslateBundle(templates, [A.Ask(id)]);
    var plan := Plan("", "", "", "", bundle.steps);
    var j := UndeclaredPlan(templates, id);
    NoApprovalGuards(plan, j);
    GateIsExact(plan, "human_approval");
    var cfg: Setting, w: World, fuel: nat, h: History :| S.Shown(cfg, w, plan, fuel, h) && !Guarded(plan, h, "human_approval");
    NobodyAwaits(plan, bundle.origin, h);
  }

  lemma NoApprovalGuards(plan: Plan, j: nat)
    requires |plan.steps| == j + 1 && plan.steps[j].SystemAction? && forall i :: 0 <= i < j ==> plan.steps[i].HumanNotification?
    ensures WellTypedSteps(plan.steps) && !GuardStands(plan.steps, "human_approval")
  {
    assert Acts(plan.steps[j]) && PassableBefore(plan.steps, j);
    assert KindOf(plan.steps[j])[0] == 's';
    assert !KindBefore(plan.steps, "human_approval", j) by {
      forall i | 0 <= i < j
        ensures KindOf(plan.steps[i]) != "human_approval"
      {
        assert KindOf(plan.steps[i])[6] == 'n' && "human_approval"[6] == 'a';
      }
    }
  }

  lemma NobodyAwaits(plan: Plan, origin: map<string, string>, h: History)
    requires !Guarded(plan, h, "human_approval") && forall i :: 0 <= i < |plan.steps| ==> !plan.steps[i].HumanApproval?
    ensures !RunAwaits(plan, origin, h)
  {
    var k :| 0 <= k < |h| && ConcernsMutation(h[k]) && !KindDoneBefore(plan, h, k, "human_approval");
    assert StepOf(h[k]).SystemAction?;
    assert !AwaitsApproval(plan, origin, h, k);
  }

  /** Over a registry, every system action of every bundle plan awaits its own approval in every run of
      either engine if and only if every registered system template declares that it mutates. */
  lemma EveryActionAwaitsIff(templates: map<string, Template>)
    requires ValidRegistry(templates)
    ensures (forall actions :: EveryActionAwaits(templates, actions)) <==> AllDeclareMutation(templates)
  {
    hide TranslateBundle, S.Shown, ValidRegistry, RunAwaits, DeclaresMutation;
    if AllDeclareMutation(templates) {
      forall actions, plan: Plan, cfg: Setting, w: World, fuel: nat, h: History
        | plan.steps == TranslateBundle(templates, actions).steps && S.Shown(cfg, w, plan, fuel, h)
        ensures RunAwaits(plan, TranslateBundle(templates, actions).origin, h)
      {
        DeclaredActionsAwait(templates, actions, plan, cfg, w, fuel, h);
      }
    } else {
      var id :| id in templates && !DeclaresMutation(templates[id]);
      UndeclaredActionRunsUnapproved(templates, id);
    }
  }
}
