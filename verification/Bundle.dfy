/** From a bundle's proposed actions to a recovery plan (src/framework/bundle-to-plan.ts). */
module Bundle {
  import opened Plans
  import opened Text
  import opened Lists
  import opened Risk
  import opened Runs
  import opened Templates
  import S = Sequencing

  /** `target` and `captureName` are the string-valued parameters of those names, if any. */
  datatype ProposedAction = ProposedAction(
    actionId: string,
    actionClass: int,
    mutationType: string,
    target: Option<string>,
    captureName: Option<string>)

  datatype Rejection = NoTemplate(actionId: string) | NoTarget(actionId: string)

  datatype Warning = ClassDiffers(actionId: string) | MutationDiffers(actionId: string) | NothingExecutable

  datatype Draft = Draft(
    steps: seq<Step>,
    origin: map<string, string>,
    rejected: seq<Rejection>,
    warnings: seq<Warning>,
    counter: nat)

  const EMPTY: Draft := Draft([], map[], [], [], 0)

  function StepId(counter: nat): string {
    "bundle-step-" + PadStart(Numeral(counter), 3)
  }

  lemma StepIdInjective(m: nat, n: nat)
    requires StepId(m) == StepId(n)
    ensures m == n
  {
    var prefix := "bundle-step-";
    assert StepId(m)[|prefix|..] == PadStart(Numeral(m), 3);
    assert StepId(n)[|prefix|..] == PadStart(Numeral(n), 3);
    PaddedInjective(m, n, 3);
  }

  /** `pickTarget`; the empty string stands for no target, as the source's truth test has it. */
  function PickTarget(action: ProposedAction, t: Template): string {
    if action.target.Some? && action.target.value != "" then action.target.value
    else if |t.targetKinds| > 0 then t.targetKinds[0]
    else ""
  }

  predicate Accepted(templates: map<string, Template>, action: ProposedAction) {
    action.actionId in templates && PickTarget(action, templates[action.actionId]) != ""
  }

  function Warnings(action: ProposedAction, t: Template): seq<Warning> {
    (if action.actionClass != t.actionClass then [ClassDiffers(action.actionId)] else [])
    + (if action.mutationType != t.mutationType then [MutationDiffers(action.actionId)] else [])
  }

  /** One iteration of the translation loop. */
  function Translate(templates: map<string, Template>, d: Draft, action: ProposedAction): Draft {
    if action.actionId !in templates then d.(rejected := d.rejected + [NoTemplate(action.actionId)])
    else
      var t := templates[action.actionId];
      var warned := d.(warnings := d.warnings + Warnings(action, t));
      var target := PickTarget(action, t);
      if target == "" then warned.(rejected := d.rejected + [NoTarget(action.actionId)])
      else
        var approvalId := StepId(d.counter + 1);
        var gated :=
          if t.mutationType != "none" then
            warned.(steps := d.steps + [HumanApproval(approvalId, [action.actionId])],
                    origin := d.origin[approvalId := action.actionId],
                    counter := d.counter + 1)
          else warned;
        var stepId := StepId(gated.counter + 1);
        var step := TemplateToStep(t, stepId, target, action.captureName);
        if step.None? then gated
        else gated.(steps := gated.steps + [step.value], origin := gated.origin[stepId := action.actionId], counter := gated.counter + 1)
  }

  function TranslateAll(templates: map<string, Template>, actions: seq<ProposedAction>): Draft {
    if actions == [] then EMPTY
    else Translate(templates, TranslateAll(templates, actions[..|actions| - 1]), actions[|actions| - 1])
  }

  predicate HasElevatedOrHigher(steps: seq<Step>) {
    exists i :: 0 <= i < |steps| && steps[i].SystemAction? && RiskExceeds(steps[i].riskLevel, Routine)
  }

  datatype Translation = Translation(
    steps: seq<Step>,
    origin: map<string, string>,
    rejected: seq<Rejection>,
    warnings: seq<Warning>)

  function Finish(d: Draft): Translation {
    var steps := if HasElevatedOrHigher(d.steps) then [HumanNotification(StepId(d.counter + 1))] + d.steps else d.steps;
    Translation(steps, d.origin, d.rejected, if d.steps == [] then d.warnings + [NothingExecutable] else d.warnings)
  }

  function TranslateBundle(templates: map<string, Template>, actions: seq<ProposedAction>): Translation {
    Finish(TranslateAll(templates, actions))
  }

  /** `adapterResponseToPlan`, as far as steps, provenance, rejections and warnings go. Registering the
      built-in templates may throw; expanding a registered template cannot. */
  method AdapterResponseToPlan(registry: ActionTemplateRegistry, builtIns: seq<Template>, skipBuiltIns: bool, actions: seq<ProposedAction>)
    returns (translation: Option<Translation>)
    requires registry.Valid()
    modifies registry
    ensures registry.Valid()
    ensures skipBuiltIns ==> registry.templates == old(registry.templates) && translation.Some?
    ensures translation.Some? ==> translation.value == TranslateBundle(registry.templates, actions)
  {
    if !skipBuiltIns {
      var error := registry.RegisterBuiltIns(builtIns);
      if error.Some? {
        return None;
      }
    }
    var d := EMPTY;
    for i := 0 to |actions|
      invariant d == TranslateAll(registry.templates, actions[..i])
    {
      d := Translate(registry.templates, d, actions[i]);
      assert actions[..i + 1][..i] == actions[..i];
    }
    assert actions[..|actions|] == actions;
    translation := Some(Finish(d));
  }

  // ---- what every translation keeps ----

  /** Step `k` of the list fits its template and, if that mutates, stands right behind its approval. */
  ghost predicate Fits(templates: map<string, Template>, steps: seq<Step>, origin: map<string, string>, k: nat)
    requires k < |steps|
  {
    && steps[k].id in origin && origin[steps[k].id] in templates
    && var actionId := origin[steps[k].id];
       if steps[k].HumanApproval? then
         && steps[k].proposedActions == [actionId]
         && k + 1 < |steps| && !steps[k + 1].HumanApproval? && steps[k + 1].id in origin && origin[steps[k + 1].id] == actionId
       else
         && Scaffold(templates[actionId], steps[k])
         && (templates[actionId].mutationType != "none" ==> ApprovalStands(steps, origin, k, actionId))
  }

  ghost predicate ApprovalStands(steps: seq<Step>, origin: map<string, string>, k: nat, actionId: string) {
    0 < k <= |steps| && steps[k - 1] == HumanApproval(steps[k - 1].id, [actionId]) && steps[k - 1].id in origin && origin[steps[k - 1].id] == actionId
  }

  ghost predicate Numbered(steps: seq<Step>) {
    forall k :: 0 <= k < |steps| ==> steps[k].id == StepId(k + 1)
  }

  ghost predicate OriginExact(steps: seq<Step>, origin: map<string, string>) {
    forall id :: id in origin <==> exists k :: 0 <= k < |steps| && steps[k].id == id
  }

  ghost predicate WellBuilt(templates: map<string, Template>, d: Draft) {
    && d.counter == |d.steps|
    && Numbered(d.steps)
    && OriginExact(d.steps, d.origin)
    && forall k :: 0 <= k < |d.steps| ==> Fits(templates, d.steps, d.origin, k)
  }

  /** Adding freshly numbered steps leaves the earlier ones fitting. */
  lemma EarlierStillFit(templates: map<string, Template>, d: Draft, steps: seq<Step>, origin: map<string, string>)
    requires WellBuilt(templates, d)
    requires |d.steps| <= |steps| && steps[..|d.steps|] == d.steps
    requires forall id :: id in d.origin ==> id in origin && origin[id] == d.origin[id]
    ensures forall k :: 0 <= k < |d.steps| ==> Fits(templates, steps, origin, k)
  {
    forall k | 0 <= k < |d.steps|
      ensures Fits(templates, steps, origin, k)
    {
      assert Fits(templates, d.steps, d.origin, k);
      assert steps[k] == d.steps[k];
      if k > 0 {
        assert steps[k - 1] == d.steps[k - 1];
      }
      if k + 1 < |d.steps| {
        assert steps[k + 1] == d.steps[k + 1];
      }
    }
  }

  lemma FreshId(d: Draft, steps: seq<Step>, n: nat)
    requires Numbered(d.steps) && OriginExact(d.steps, d.origin) && n > |d.steps|
    ensures StepId(n) !in d.origin
  {
    if StepId(n) in d.origin {
      var k :| 0 <= k < |d.steps| && d.steps[k].id == StepId(n);
      StepIdInjective(n, k + 1);
    }
  }

  lemma ExtendOrigin(steps: seq<Step>, origin: map<string, string>, step: Step, actionId: string)
    requires OriginExact(steps, origin)
    ensures OriginExact(steps + [step], origin[step.id := actionId])
  {
    var later, more := origin[step.id := actionId], steps + [step];
    assert more[|steps|].id == step.id;
    forall id | id in later
      ensures exists k :: 0 <= k < |more| && more[k].id == id
    {
      if id in origin {
        var k :| 0 <= k < |steps| && steps[k].id == id;
        assert more[k].id == id;
      }
    }
    forall k | 0 <= k < |more|
      ensures more[k].id in later
    {
      if k < |steps| {
        assert steps[k].id in origin;
      }
    }
  }

  /** An accepted action appends its step, numbered next and behind its approval when it mutates. */
  ghost predicate Appended(templates: map<string, Template>, d: Draft, later: Draft, actionId: string, step: Step) {
    && actionId in templates
    && Scaffold(templates[actionId], step)
    && later.rejected == d.rejected
    && if templates[actionId].mutationType == "none" then
         && step.id == StepId(d.counter + 1)
         && later.steps == d.steps + [step]
         && later.origin == d.origin[step.id := actionId]
         && later.counter == d.counter + 1
       else
         var approval := HumanApproval(StepId(d.counter + 1), [actionId]);
         && step.id == StepId(d.counter + 2)
         && later.steps == d.steps + [approval, step]
         && later.origin == d.origin[approval.id := actionId][step.id := actionId]
         && later.counter == d.counter + 2
  }

  lemma AcceptedActionIsAppended(templates: map<string, Template>, d: Draft, action: ProposedAction) returns (step: Step)
    requires ValidRegistry(templates) && Accepted(templates, action)
    ensures Appended(templates, d, Translate(templates, d, action), action.actionId, step)
  {
    hide StepId, PickTarget, TemplateToStep, ValidRegistry, Warnings;
    var t := templates[action.actionId];
    var target := PickTarget(action, t);
    assert target != "" by { assert Accepted(templates, action); }
    var stepId := StepId(if t.mutationType == "none" then d.counter + 1 else d.counter + 2);
    RegisteredTemplatesExpand(templates, action.actionId, stepId, target, action.captureName);
    step := TemplateToStep(t, stepId, target, action.captureName).value;
  }

  lemma AppendingKeepsWellBuilt(templates: map<string, Template>, d: Draft, later: Draft, actionId: string, step: Step)
    requires WellBuilt(templates, d) && Appended(templates, d, later, actionId, step)
    ensures WellBuilt(templates, later)
  {
    hide StepId, Scaffold, WellBuilt, Fits, OriginExact, Numbered;
    WellBuiltMeans(templates, d);
    WellBuiltMeans(templates, later);
    var n := |d.steps|;
    EarlierFitLater(templates, d, later, actionId, step);
    assert later.steps[..n] == d.steps;
    NumberedOn(d.steps, later.steps);
    OriginOn(templates, d, later, actionId, step);
    if templates[actionId].mutationType == "none" {
      ReadOnlyFits(templates, later, n, actionId);
    } else {
      ApprovalFits(templates, later, n, actionId);
    }
  }

  lemma EarlierFitLater(templates: map<string, Template>, d: Draft, later: Draft, actionId: string, step: Step)
    requires WellBuilt(templates, d) && Appended(templates, d, later, actionId, step)
    ensures forall k :: 0 <= k < |d.steps| ==> Fits(templates, later.steps, later.origin, k)
    ensures forall id :: id in d.origin ==> id in later.origin && later.origin[id] == d.origin[id]
  {
    hide StepId, Scaffold, Fits;
    FreshId(d, d.steps, |d.steps| + 1);
    FreshId(d, d.steps, |d.steps| + 2);
    assert later.steps[..|d.steps|] == d.steps;
    EarlierStillFit(templates, d, later.steps, later.origin);
  }

  lemma OriginOn(templates: map<string, Template>, d: Draft, later: Draft, actionId: string, step: Step)
    requires OriginExact(d.steps, d.origin) && Appended(templates, d, later, actionId, step)
    ensures OriginExact(later.steps, later.origin)
  {
    hide StepId, Scaffold, OriginExact;
    if templates[actionId].mutationType == "none" {
      ExtendOrigin(d.steps, d.origin, step, actionId);
    } else {
      var approval := HumanApproval(StepId(d.counter + 1), [actionId]);
      ExtendOrigin(d.steps, d.origin, approval, actionId);
      ExtendOrigin(d.steps + [approval], d.origin[approval.id := actionId], step, actionId);
      assert later.steps == d.steps + [approval] + [step];
    }
  }

  lemma WellBuiltMeans(templates: map<string, Template>, d: Draft)
    ensures WellBuilt(templates, d) <==>
      && d.counter == |d.steps| && Numbered(d.steps) && OriginExact(d.steps, d.origin)
      && forall k :: 0 <= k < |d.steps| ==> Fits(templates, d.steps, d.origin, k)
  {
  }

  lemma NumberedOn(steps: seq<Step>, later: seq<Step>)
    requires Numbered(steps) && |steps| <= |later| && later[..|steps|] == steps
    requires forall k :: |steps| <= k < |later| ==> later[k].id == StepId(k + 1)
    ensures Numbered(later)
  {
    hide StepId;
    forall k | 0 <= k < |later| ensures later[k].id == StepId(k + 1) {
      if k < |steps| {
        assert later[k] == steps[k];
      }
    }
  }

  lemma ReadOnlyFits(templates: map<string, Template>, d: Draft, n: nat, actionId: string)
    requires |d.steps| == n + 1 && actionId in templates && templates[actionId].mutationType == "none"
    requires Scaffold(templates[actionId], d.steps[n])
    requires d.steps[n].id in d.origin && d.origin[d.steps[n].id] == actionId
    ensures Fits(templates, d.steps, d.origin, n)
  {
  }

  lemma ApprovalFits(templates: map<string, Template>, d: Draft, n: nat, actionId: string)
    requires |d.steps| == n + 2 && actionId in templates && Scaffold(templates[actionId], d.steps[n + 1])
    requires d.steps[n] == HumanApproval(d.steps[n].id, [actionId])
    requires d.steps[n].id in d.origin && d.origin[d.steps[n].id] == actionId
    requires d.steps[n + 1].id in d.origin && d.origin[d.steps[n + 1].id] == actionId
    ensures Fits(templates, d.steps, d.origin, n) && Fits(templates, d.steps, d.origin, n + 1)
  {
  }

  lemma {:induction false} TranslationIsWellBuilt(templates: map<string, Template>, actions: seq<ProposedAction>)
    requires ValidRegistry(templates)
    ensures WellBuilt(templates, TranslateAll(templates, actions))
  {
    if actions != [] {
      hide WellBuilt, ValidRegistry, Translate, Accepted;
      var init, last := actions[..|actions| - 1], actions[|actions| - 1];
      TranslationIsWellBuilt(templates, init);
      var d := TranslateAll(templates, init);
      if Accepted(templates, last) {
        var step := AcceptedActionIsAppended(templates, d, last);
        AppendingKeepsWellBuilt(templates, d, Translate(templates, d, last), last.actionId, step);
      } else {
        RejectionKeepsShape(templates, d, last);
      }
    }
  }

  lemma RejectionKeepsShape(templates: map<string, Template>, d: Draft, action: ProposedAction)
    requires WellBuilt(templates, d) && !Accepted(templates, action)
    ensures WellBuilt(templates, Translate(templates, d, action))
  {
  }

  /** The originating actions of the executable steps, in plan order. */
  function Executed(steps: seq<Step>, origin: map<string, string>): seq<string>
    requires forall k :: 0 <= k < |steps| ==> steps[k].id in origin
  {
    if steps == [] then []
    else
      var init, last := steps[..|steps| - 1], steps[|steps| - 1];
      assert forall k :: 0 <= k < |init| ==> init[k] == steps[k];
      Executed(init, origin) + if last.HumanApproval? then [] else [origin[last.id]]
  }

  function Ids(actions: seq<ProposedAction>): (ids: seq<string>)
    ensures |ids| == |actions|
  {
    seq(|actions|, i requires 0 <= i < |actions| => actions[i].actionId)
  }

  function RejectedIds(rejected: seq<Rejection>): (ids: seq<string>)
    ensures |ids| == |rejected|
  {
    seq(|rejected|, i requires 0 <= i < |rejected| => rejected[i].actionId)
  }

  lemma {:induction false} ExecutedKeeps(steps: seq<Step>, origin: map<string, string>, later: map<string, string>)
    requires forall k :: 0 <= k < |steps| ==> steps[k].id in origin && steps[k].id in later && later[steps[k].id] == origin[steps[k].id]
    ensures Executed(steps, later) == Executed(steps, origin)
  {
    if steps != [] {
      var init := steps[..|steps| - 1];
      assert forall k :: 0 <= k < |init| ==> init[k] == steps[k];
      ExecutedKeeps(init, origin, later);
    }
  }

  lemma AllTraced(templates: map<string, Template>, d: Draft)
    requires WellBuilt(templates, d)
    ensures forall k :: 0 <= k < |d.steps| ==> d.steps[k].id in d.origin
  {
    forall k | 0 <= k < |d.steps| ensures d.steps[k].id in d.origin {
      assert Fits(templates, d.steps, d.origin, k);
    }
  }

  lemma ExecutedLast(steps: seq<Step>, step: Step, origin: map<string, string>)
    requires step.id in origin && forall k :: 0 <= k < |steps| ==> steps[k].id in origin
    ensures forall k :: 0 <= k < |steps + [step]| ==> (steps + [step])[k].id in origin
    ensures Executed(steps + [step], origin) == Executed(steps, origin) + if step.HumanApproval? then [] else [origin[step.id]]
  {
    assert (steps + [step])[..|steps|] == steps;
  }

  lemma ExecutedGrowsByOne(templates: map<string, Template>, d: Draft, later: Draft, actionId: string, step: Step)
    requires WellBuilt(templates, d) && WellBuilt(templates, later) && Appended(templates, d, later, actionId, step)
    ensures forall k :: 0 <= k < |d.steps| ==> d.steps[k].id in d.origin
    ensures forall k :: 0 <= k < |later.steps| ==> later.steps[k].id in later.origin
    ensures Executed(later.steps, later.origin) == Executed(d.steps, d.origin) + [actionId]
  {
    hide StepId, WellBuilt, Executed, Fits;
    AllTraced(templates, d);
    AllTraced(templates, later);
    EarlierFitLater(templates, d, later, actionId, step);
    ExecutedKeeps(d.steps, d.origin, later.origin);
    if templates[actionId].mutationType == "none" {
      ExecutedLast(d.steps, step, later.origin);
    } else {
      var approval := HumanApproval(StepId(d.counter + 1), [actionId]);
      assert later.steps == d.steps + [approval] + [step];
      ExecutedLast(d.steps, approval, later.origin);
      assert Executed(d.steps + [approval], later.origin) == Executed(d.steps, later.origin);
      ExecutedLast(d.steps + [approval], step, later.origin);
    }
  }

  /** Nothing proposed is lost, invented or reordered: the executable steps are the accepted actions
      in order, and the rejections are the others in order. */
  lemma {:induction false} ActionsAreConserved(templates: map<string, Template>, actions: seq<ProposedAction>)
    requires ValidRegistry(templates)
    ensures var d := TranslateAll(templates, actions);
      && (forall k :: 0 <= k < |d.steps| ==> d.steps[k].id in d.origin)
      && Executed(d.steps, d.origin) == Ids(Filter((a: ProposedAction) => Accepted(templates, a), actions))
      && RejectedIds(d.rejected) == Ids(Filter((a: ProposedAction) => !Accepted(templates, a), actions))
  {
    if actions != [] {
      hide Translate, Accepted, WellBuilt, ValidRegistry;
      var init, last := actions[..|actions| - 1], actions[|actions| - 1];
      ActionsAreConserved(templates, init);
      TranslationIsWellBuilt(templates, init);
      TranslationIsWellBuilt(templates, actions);
      var d := TranslateAll(templates, init);
      if Accepted(templates, last) {
        var step := AcceptedActionIsAppended(templates, d, last);
        ExecutedGrowsByOne(templates, d, Translate(templates, d, last), last.actionId, step);
      } else {
        RejectionOnlyRejects(templates, d, last);
      }
      SelectLast((a: ProposedAction) => Accepted(templates, a), actions);
      SelectLast((a: ProposedAction) => !Accepted(templates, a), actions);
    }
  }

  lemma RejectionOnlyRejects(templates: map<string, Template>, d: Draft, action: ProposedAction)
    requires !Accepted(templates, action)
    ensures var later := Translate(templates, d, action);
      later.steps == d.steps && later.origin == d.origin && RejectedIds(later.rejected) == RejectedIds(d.rejected) + [action.actionId]
  {
  }

  lemma SelectLast(keep: ProposedAction -> bool, actions: seq<ProposedAction>)
    requires actions != []
    ensures var init, last := actions[..|actions| - 1], actions[|actions| - 1];
      Ids(Filter(keep, actions)) == Ids(Filter(keep, init)) + if keep(last) then [last.actionId] else []
  {
    var init, last := actions[..|actions| - 1], actions[|actions| - 1];
    assert actions == init + [last];
    FilterAppend(keep, init, [last]);
    FilterOne(keep, last);
  }

  /** Where each step of the finished plan comes from: the notification, when there is one, carries
      the number after the last, and everything else keeps its place in the draft. */
  ghost predicate Placed(d: Draft, steps: seq<Step>, i: nat)
    requires i < |steps| && |d.steps| <= |steps| <= |d.steps| + 1
  {
    var offset := |steps| - |d.steps|;
    if i < offset then steps[i] == HumanNotification(StepId(d.counter + 1)) else steps[i] == d.steps[i - offset]
  }

  lemma FinishPlaces(d: Draft)
    ensures var steps := Finish(d).steps;
      |d.steps| <= |steps| <= |d.steps| + 1 && forall i :: 0 <= i < |steps| ==> Placed(d, steps, i)
  {
    hide StepId, HasElevatedOrHigher;
    var steps := Finish(d).steps;
    forall i | 0 <= i < |steps| ensures Placed(d, steps, i) {
    }
  }

  ghost predicate DistinctIds(steps: seq<Step>) {
    forall i, j :: 0 <= i < j < |steps| ==> steps[i].id != steps[j].id
  }

  lemma FinishKeepsIdsDistinct(d: Draft)
    requires Numbered(d.steps) && d.counter == |d.steps|
    ensures DistinctIds(Finish(d).steps)
  {
    hide StepId, Finish;
    var steps := Finish(d).steps;
    FinishPlaces(d);
    var offset := |steps| - |d.steps|;
    forall i, j | 0 <= i < j < |steps|
      ensures steps[i].id != steps[j].id
    {
      assert Placed(d, steps, i) && Placed(d, steps, j);
      var m := if i < offset then |d.steps| + 1 else i - offset + 1;
      if StepId(m) == StepId(j - offset + 1) {
        StepIdInjective(m, j - offset + 1);
      }
    }
  }

  /** The whole plan: step ids are pairwise distinct, however many steps there are, the provenance map
      is defined on exactly the steps other than the notification, and every action above routine risk
      carries before-captures. */
  lemma PlanIsWellFormed(templates: map<string, Template>, actions: seq<ProposedAction>)
    requires ValidRegistry(templates)
    ensures var plan := TranslateBundle(templates, actions);
      && DistinctIds(plan.steps)
      && (forall i :: 0 <= i < |plan.steps| ==> (plan.steps[i].id in plan.origin <==> !plan.steps[i].HumanNotification?))
      && (forall id :: id in plan.origin ==> exists i :: 0 <= i < |plan.steps| && plan.steps[i].id == id)
      && (forall i :: 0 <= i < |plan.steps| && plan.steps[i].SystemAction? && plan.steps[i].riskLevel != Routine ==> plan.steps[i].before != [])
  {
    hide StepId, TranslateAll, WellBuilt, HasElevatedOrHigher;
    var d := TranslateAll(templates, actions);
    var plan := Finish(d);
    TranslationIsWellBuilt(templates, actions);
    WellBuiltMeans(templates, d);
    FinishKeepsIdsDistinct(d);
    FinishPlaces(d);
    NotificationHasNoOrigin(templates, d);
    var offset := |plan.steps| - |d.steps|;
    forall i | 0 <= i < |plan.steps|
      ensures plan.steps[i].id in plan.origin <==> !plan.steps[i].HumanNotification?
      ensures plan.steps[i].SystemAction? && plan.steps[i].riskLevel != Routine ==> plan.steps[i].before != []
    {
      assert Placed(d, plan.steps, i);
      if i >= offset {
        assert Fits(templates, d.steps, d.origin, i - offset);
      }
    }
    forall id | id in plan.origin
      ensures exists i :: 0 <= i < |plan.steps| && plan.steps[i].id == id
    {
      var k :| 0 <= k < |d.steps| && d.steps[k].id == id;
      assert Placed(d, plan.steps, k + offset);
      assert plan.steps[k + offset].id == id;
    }
  }

  /** The step an event belongs to. */
  function StepOf(e: Event): Step {
    if e.StepDone? then e.step else e.issuer
  }

  ghost predicate ComesFromMutation(templates: map<string, Template>, plan: Translation, step: Step) {
    && step.id in plan.origin && !step.HumanApproval?
    && plan.origin[step.id] in templates && templates[plan.origin[step.id]].mutationType != "none"
  }

  lemma NoBranches(step: Step)
    requires !step.Conditional? && !step.ReplanningCheckpoint?
    ensures S.Live(step) == {step} && S.Settled(step)
  {
  }

  /** A mutating step of the finished plan has its own approval right before it. */
  lemma MutationFollowsItsApproval(templates: map<string, Template>, d: Draft, j: nat)
    requires WellBuilt(templates, d)
    requires j < |Finish(d).steps| && ComesFromMutation(templates, Finish(d), Finish(d).steps[j])
    ensures j > 0 && Finish(d).steps[j - 1] == HumanApproval(Finish(d).steps[j - 1].id, [d.origin[Finish(d).steps[j].id]])
  {
    hide StepId, WellBuilt, HasElevatedOrHigher, Finish;
    WellBuiltMeans(templates, d);
    FinishPlaces(d);
    NotificationHasNoOrigin(templates, d);
    var steps := Finish(d).steps;
    assert Finish(d).origin == d.origin by { FinishKeepsOrigin(d); }
    var offset := |steps| - |d.steps|;
    assert Placed(d, steps, j);
    assert j >= offset;
    assert Fits(templates, d.steps, d.origin, j - offset);
    assert Placed(d, steps, j - 1);
  }

  lemma FinishKeepsOrigin(d: Draft)
    ensures Finish(d).origin == d.origin
  {
  }

  lemma NothingBranches(templates: map<string, Template>, d: Draft, j: nat)
    requires WellBuilt(templates, d) && j < |Finish(d).steps|
    ensures S.Live(Finish(d).steps[j]) == {Finish(d).steps[j]} && S.Settled(Finish(d).steps[j])
  {
    hide StepId, WellBuilt, Finish;
    WellBuiltMeans(templates, d);
    FinishPlaces(d);
    assert Placed(d, Finish(d).steps, j);
    var offset := |Finish(d).steps| - |d.steps|;
    if j >= offset {
      assert Fits(templates, d.steps, d.origin, j - offset);
    }
    NoBranches(Finish(d).steps[j]);
  }

  /** In every run of either engine over a plan made from a bundle, an action whose template mutates
      does nothing before the approval step for that same action, which stands immediately before it,
      has ended in success. */
  lemma MutationsAwaitTheirApproval(templates: map<string, Template>, actions: seq<ProposedAction>, plan: Plan,
                                    cfg: Setting, w: World, fuel: nat, h: History, k: nat)
    requires ValidRegistry(templates)
    requires plan.steps == TranslateBundle(templates, actions).steps
    requires S.Shown(cfg, w, plan, fuel, h) && k < |h|
    requires ComesFromMutation(templates, TranslateBundle(templates, actions), StepOf(h[k]))
    ensures exists j, m ::
      && 0 < j < |plan.steps| && plan.steps[j] == StepOf(h[k])
      && plan.steps[j - 1] == HumanApproval(plan.steps[j - 1].id, [TranslateBundle(templates, actions).origin[StepOf(h[k]).id]])
      && 0 <= m < k && h[m] == StepDone(j - 1, plan.steps[j - 1], Success)
  {
    hide S.Shown, TranslateAll, StepId, WellBuilt, Finish;
    var d := TranslateAll(templates, actions);
    TranslationIsWellBuilt(templates, actions);
    FinishKeepsOrigin(d);
    S.EveryRunIsSequenced(cfg, w, plan, fuel, h);
    assert S.InSequence(plan, h, k);
    var j :| 0 <= j < |plan.steps| && S.Owned(plan, h, k, j);
    NothingBranches(templates, d, j);
    assert plan.steps[j] == StepOf(h[k]);
    MutationFollowsItsApproval(templates, d, j);
    assert S.DoneBefore(plan, h, k, j - 1);
    var m :| 0 <= m < k && m < |h| && h[m].StepDone? && h[m].index == j - 1 && h[m].step == plan.steps[j - 1]
             && !Halts(h[m].step, h[m].status) && h[m].status != RolledBack;
    assert h[m] == StepDone(j - 1, plan.steps[j - 1], Success);
  }

  lemma NotificationHasNoOrigin(templates: map<string, Template>, d: Draft)
    requires WellBuilt(templates, d)
    ensures StepId(|d.steps| + 1) !in d.origin
  {
    FreshId(d, d.steps, |d.steps| + 1);
  }
}
