/** Action templates (src/framework/action-template-registry.ts). */
module Templates {
  import opened Plans

  datatype StepKind = DiagnosisKind | SystemKind

  datatype Template = Template(
    actionId: string,
    actionClass: int,
    mutationType: string,
    stepKind: StepKind,
    targetKinds: seq<string>,
    requiredCapabilities: seq<string>,
    executionContext: string,
    riskLevel: Option<RiskLevel>,
    blastRadius: Option<BlastRadius>,
    preConditions: seq<Check>,
    capturesBefore: seq<Capture>,
    capturesAfter: seq<Capture>,
    successCheck: Option<Check>,
    rollback: Option<Rollback>)

  datatype RegisterError =
    | Duplicate | MissingRisk | MissingBlastRadius | RiskNeedsCaptures
    | ClassNeedsRisk | ClassNeedsCaptures | ClassNeedsSuccessCheck | ClassNeedsRollback

  /** The checks of `register`, in order; `None` means accepted. */
  function Objection(t: Template): Option<RegisterError> {
    if t.stepKind != SystemKind then None
    else if t.riskLevel.None? then Some(MissingRisk)
    else if t.blastRadius.None? then Some(MissingBlastRadius)
    else if t.riskLevel.value != Routine && t.capturesBefore == [] then Some(RiskNeedsCaptures)
    else if t.actionClass >= 2 then
      if t.riskLevel.value == Routine then Some(ClassNeedsRisk)
      else if t.capturesBefore == [] then Some(ClassNeedsCaptures)
      else if t.successCheck.None? then Some(ClassNeedsSuccessCheck)
      else if t.rollback.None? then Some(ClassNeedsRollback)
      else None
    else None
  }

  function Refusal(templates: map<string, Template>, t: Template): Option<RegisterError> {
    if t.actionId in templates then Some(Duplicate) else Objection(t)
  }

  /** What an accepted template carries: a system action has its risk and blast radius, one above
      routine risk has captures, and one of class 2 or more has the whole safety scaffold. */
  ghost predicate Scaffolded(t: Template) {
    t.stepKind == SystemKind ==>
      && t.riskLevel.Some? && t.blastRadius.Some?
      && (t.riskLevel.value != Routine ==> t.capturesBefore != [])
      && (t.actionClass >= 2 ==> t.riskLevel.value != Routine && t.successCheck.Some? && t.rollback.Some?)
  }

  /** Registration turns away nothing else. */
  lemma AcceptedIffScaffolded(t: Template)
    ensures Objection(t) == None <==> Scaffolded(t)
  {
  }

  /** A template is refused as a duplicate exactly when its id is taken, and is accepted exactly when it is not
      and the scaffold is complete. */
  lemma RefusalIff(templates: map<string, Template>, t: Template)
    ensures Refusal(templates, t) == Some(Duplicate) <==> t.actionId in templates
    ensures Refusal(templates, t) == None <==> t.actionId !in templates && Scaffolded(t)
  {
  }

  /** Which check turns a system template away: the first of them, in this order, that fails. */
  lemma ObjectionNames(t: Template)
    requires t.stepKind == SystemKind
    ensures Objection(t) == Some(MissingRisk) <==> t.riskLevel.None?
    ensures Objection(t) == Some(MissingBlastRadius) <==> t.riskLevel.Some? && t.blastRadius.None?
    ensures var complete := t.riskLevel.Some? && t.blastRadius.Some?;
      && (Objection(t) == Some(RiskNeedsCaptures) <==> complete && t.riskLevel.value != Routine && |t.capturesBefore| == 0)
      && (Objection(t) == Some(ClassNeedsRisk) <==> complete && t.riskLevel.value == Routine && t.actionClass >= 2)
      && (Objection(t) == Some(ClassNeedsSuccessCheck) <==>
            complete && t.riskLevel.value != Routine && |t.capturesBefore| > 0 && t.actionClass >= 2 && t.successCheck.None?)
      && (Objection(t) == Some(ClassNeedsRollback) <==>
            complete && t.riskLevel.value != Routine && |t.capturesBefore| > 0 && t.actionClass >= 2 && t.successCheck.Some? && t.rollback.None?)
    ensures Objection(t) != Some(ClassNeedsCaptures) && Objection(t) != Some(Duplicate)
  {
  }

  ghost predicate ValidRegistry(templates: map<string, Template>) {
    forall id :: id in templates ==> Scaffolded(templates[id]) && templates[id].actionId == id
  }

  /** The process-wide registry. `Valid` is kept by every sequence of its operations. */
  class ActionTemplateRegistry {
    var templates: map<string, Template>
    var builtInsRegistered: bool

    ghost predicate Valid()
      reads this
    {
      ValidRegistry(templates)
    }

    constructor ()
      ensures Valid() && templates == map[] && !builtInsRegistered
    {
      templates, builtInsRegistered := map[], false;
    }

    /** Throws, leaving the registry as it was, on a duplicate or an incomplete template. */
    method Register(t: Template) returns (error: Option<RegisterError>)
      requires Valid()
      modifies this`templates
      ensures Valid()
      ensures error == Refusal(old(templates), t)
      ensures templates == if error.None? then old(templates)[t.actionId := t] else old(templates)
    {
      if t.actionId in templates {
        return Some(Duplicate);
      }
      error := Objection(t);
      if error.None? {
        templates := templates[t.actionId := t];
      }
    }

    method Clear()
      modifies this`templates
      ensures Valid() && templates == map[]
    {
      templates := map[];
    }

    method ResetBuiltIns()
      modifies this
      ensures Valid() && templates == map[] && !builtInsRegistered
    {
      templates, builtInsRegistered := map[], false;
    }

    /** Idempotent once it has succeeded; a throw in the middle leaves the flag down and the templates
        registered so far in place. */
    method RegisterBuiltIns(builtIns: seq<Template>) returns (error: Option<RegisterError>)
      requires Valid()
      modifies this
      ensures Valid()
      ensures old(builtInsRegistered) ==> error.None? && templates == old(templates) && builtInsRegistered
      ensures !old(builtInsRegistered) ==>
        && builtInsRegistered == error.None?
        && exists n: nat :: n <= |builtIns| && templates == WithAll(old(templates), builtIns[..n])
             && (error.None? ==> n == |builtIns|)
             && (error.Some? ==> n < |builtIns| && error == Refusal(templates, builtIns[n]))
    {
      if builtInsRegistered {
        return None;
      }
      for i := 0 to |builtIns|
        invariant Valid() && !builtInsRegistered
        invariant templates == WithAll(old(templates), builtIns[..i])
      {
        error := Register(builtIns[i]);
        if error.Some? {
          return;
        }
        assert builtIns[..i + 1][..i] == builtIns[..i];
      }
      assert builtIns[..|builtIns|] == builtIns;
      builtInsRegistered := true;
      error := None;
    }
  }

  function WithAll(templates: map<string, Template>, more: seq<Template>): map<string, Template> {
    if more == [] then templates
    else
      var last := more[|more| - 1];
      WithAll(templates, more[..|more| - 1])[last.actionId := last]
  }

  lemma {:induction false} FirstIsRegistered(templates: map<string, Template>, builtIns: seq<Template>, n: nat)
    requires 0 < n <= |builtIns|
    ensures builtIns[0].actionId in WithAll(templates, builtIns[..n])
  {
    if n > 1 {
      assert builtIns[..n][..n - 1] == builtIns[..n - 1];
      FirstIsRegistered(templates, builtIns, n - 1);
    }
  }

  /** A registration of the built-in templates that was refused is refused for good: the next attempt
      meets its own first template, as a duplicate unless that one was the one refused. */
  lemma PartialRegistrationSticks(templates: map<string, Template>, builtIns: seq<Template>, n: nat)
    requires n < |builtIns| && Refusal(WithAll(templates, builtIns[..n]), builtIns[n]).Some?
    ensures var left := WithAll(templates, builtIns[..n]);
      && Refusal(left, builtIns[0]).Some?
      && Refusal(left, builtIns[0]) == (if n > 0 then Some(Duplicate) else Refusal(templates, builtIns[0]))
  {
    if n > 0 {
      FirstIsRegistered(templates, builtIns, n);
    }
  }

  const NOOP: Command := Command("structured_command", None, None, Some("noop"), None)

  const PLACEHOLDER: Check := Check("placeholder", None, None, "eq true")

  /** `templateToStep`; `None` where building a system action throws. */
  function TemplateToStep(t: Template, stepId: string, target: string, captureName: Option<string>): Option<Step> {
    match t.stepKind
    case DiagnosisKind =>
      Some(DiagnosisAction(stepId, t.executionContext, target, NOOP,
                           if captureName.Some? && captureName.value != "" then captureName else None))
    case SystemKind =>
      if t.riskLevel.None? || t.blastRadius.None? then None
      else Some(SystemAction(stepId, t.executionContext, target, t.riskLevel.value, t.requiredCapabilities, NOOP,
                             t.preConditions, t.capturesBefore, t.capturesAfter,
                             if t.successCheck.Some? then t.successCheck.value else PLACEHOLDER,
                             t.rollback, t.blastRadius.value, None))
  }

  /** What the rest of the framework relies on in a step expanded from a registered template: its kind,
      risk and rollback directive are the template's, and above routine risk it has captures. */
  ghost predicate Scaffold(t: Template, step: Step) {
    && (step.DiagnosisAction? || step.SystemAction?)
    && (step.SystemAction? <==> t.stepKind == SystemKind)
    && (step.SystemAction? ==>
          && t.riskLevel == Some(step.riskLevel) && step.rollback == t.rollback
          && (step.riskLevel != Routine ==> step.before != [])
          && (t.actionClass >= 2 ==> step.riskLevel != Routine && step.rollback.Some?))
  }

  lemma RegisteredTemplatesExpand(templates: map<string, Template>, id: string, stepId: string, target: string, captureName: Option<string>)
    requires ValidRegistry(templates) && id in templates
    ensures var step := TemplateToStep(templates[id], stepId, target, captureName);
      step.Some? && step.value.id == stepId && Scaffold(templates[id], step.value)
  {
    assert Scaffolded(templates[id]);
  }

  /** Field by field, what an expanded step takes from its template and from the call; the command does
      nothing yet, and a missing success check becomes one that asserts nothing. */
  lemma ExpansionKeepsFields(t: Template, stepId: string, target: string, captureName: Option<string>)
    requires TemplateToStep(t, stepId, target, captureName).Some?
    ensures var step := TemplateToStep(t, stepId, target, captureName).value;
      && step.id == stepId && step.executionContext == t.executionContext && step.target == target
      && step.command.operation == Some("noop") && step.command.statement.None? && step.command.subtype.None?
      && (t.stepKind == DiagnosisKind ==>
            && step.DiagnosisAction?
            && (step.outputCapture.Some? <==> captureName.Some? && |captureName.value| > 0)
            && (step.outputCapture.Some? ==> step.outputCapture == captureName))
      && (t.stepKind == SystemKind ==>
            && step.SystemAction? && t.riskLevel == Some(step.riskLevel) && t.blastRadius == Some(step.blastRadius)
            && step.requiredCapabilities == t.requiredCapabilities && step.preConditions == t.preConditions
            && step.before == t.capturesBefore && step.after == t.capturesAfter
            && step.rollback == t.rollback && step.stateTransition.None?
            && (t.successCheck.Some? ==> t.successCheck == Some(step.successCheck))
            && (t.successCheck.None? ==>
                  step.successCheck.kind == "placeholder" && step.successCheck.statement.None? && step.successCheck.operation.None?))
  {
  }

  /** Expansion throws exactly where a system action lacks its risk or its blast radius. */
  lemma ExpandsIff(t: Template, stepId: string, target: string, captureName: Option<string>)
    ensures TemplateToStep(t, stepId, target, captureName).Some? <==>
      t.stepKind == DiagnosisKind || (t.riskLevel.Some? && t.blastRadius.Some?)
  {
  }

  /** Of several registrations under one id the last one counts. */
  lemma {:induction false} LastRegistrationCounts(templates: map<string, Template>, more: seq<Template>, i: nat)
    requires i < |more| && forall j :: i < j < |more| ==> more[j].actionId != more[i].actionId
    ensures var all := WithAll(templates, more); more[i].actionId in all && all[more[i].actionId] == more[i]
  {
    if i < |more| - 1 {
      LastRegistrationCounts(templates, more[..|more| - 1], i);
    }
  }

  /** What is not registered again stays. */
  lemma {:induction false} OthersStay(templates: map<string, Template>, more: seq<Template>, id: string)
    requires forall j :: 0 <= j < |more| ==> more[j].actionId != id
    ensures id in WithAll(templates, more) <==> id in templates
    ensures id in templates ==> WithAll(templates, more)[id] == templates[id]
  {
    if more != [] {
      OthersStay(templates, more[..|more| - 1], id);
    }
  }
}
