/** Recovery plans: the values the engines, the gates and the rollback all share. */
module Plans {

  datatype Option<+T> = None | Some(value: T)

  datatype RiskLevel = Routine | Elevated | High | Critical

  datatype TrustLevel = Observe | Copilot | Autopilot | FullAutonomy

  datatype Mode = DryRun | Execute

  datatype Command = Command(
    kind: string,
    subtype: Option<string>,
    statement: Option<string>,
    operation: Option<string>,
    parameters: Option<string>)

  datatype Check = Check(
    kind: string,
    statement: Option<string>,
    operation: Option<string>,
    expectation: string)

  datatype CapturePolicy = Required | BestEffort | Deferred

  datatype CaptureCost = Negligible | Moderate | Expensive

  datatype Capture = Capture(name: string, captureType: string, cost: CaptureCost, policy: CapturePolicy)

  datatype RollbackKind = Automatic | Manual | ByCommand

  datatype Rollback = Rollback(kind: RollbackKind, command: Option<Command>)

  datatype BlastRadius = BlastRadius(direct: seq<string>, indirect: seq<string>)

  /** The source's union of step records. Its types keep a conditional out of a conditional's
      branch; the datatype does not, because the catalog check is written for plans that were
      never validated. `WellTyped` says when a step is one the source's types allow. */
  datatype Step =
    | SystemAction(
        id: string,
        executionContext: string,
        target: string,
        riskLevel: RiskLevel,
        requiredCapabilities: seq<string>,
        command: Command,
        preConditions: seq<Check>,
        before: seq<Capture>,
        after: seq<Capture>,
        successCheck: Check,
        rollback: Option<Rollback>,
        blastRadius: BlastRadius,
        stateTransition: Option<string>)
    | DiagnosisAction(
        id: string,
        executionContext: string,
        target: string,
        command: Command,
        outputCapture: Option<string>)
    | HumanNotification(id: string)
    | HumanApproval(id: string, proposedActions: seq<string>)
    | Checkpoint(id: string, captures: seq<Capture>)
    | ReplanningCheckpoint(id: string, fastReplan: bool, captures: seq<Capture>)
    | Conditional(id: string, condition: Check, thenStep: Step, elseStep: Option<Step>)
  {
    predicate WellTyped() {
      Conditional? ==> !thenStep.Conditional? && (elseStep.Some? ==> !elseStep.value.Conditional?)
    }
  }

  datatype Plan = Plan(
    agentName: string,
    agentVersion: string,
    scenario: string,
    estimatedDuration: string,
    steps: seq<Step>)

  ghost predicate WellTypedSteps(steps: seq<Step>) {
    forall i :: 0 <= i < |steps| ==> steps[i].WellTyped()
  }

  datatype Status = Success | Failed | Skipped | RolledBack

  datatype StepResult = StepResult(step: Step, status: Status)

  /** The state handed to the agent when it is asked to replan. */
  datatype ExecutionState = ExecutionState(completed: seq<StepResult>, current: nat)

  /** The steps of a step, the step itself first: itself and everything in its branches. */
  ghost function Within(step: Step): (inside: set<Step>)
    ensures step in inside
    decreases step
  {
    {step} +
    if step.Conditional? then
      Within(step.thenStep) + (if step.elseStep.Some? then Within(step.elseStep.value) else {})
    else {}
  }
}
