/** What a run of either engine consists of: the events it leaves behind and the outside world it
    asks. Every answer of the backend, the human and the agent is a function of the whole history so
    far, so quantifying over worlds covers every way they can behave. */
module Runs {
  import opened Plans
  import opened Text
  import opened Safety
  import opened Providers
  import opened Risk
  import opened Coordinator

  datatype CheckReply = Holds | Fails | Raises

  datatype ReplanReply = Abort | Continue | Revise(plan: Plan) | ReplanRaises

  datatype Event =
    | CaptureTaken(issuer: Step, capture: Capture, taken: CaptureStatus)
    | CheckAsked(issuer: Step, check: Check, reply: CheckReply)
    | CommandRun(issuer: Step, command: Command, ok: bool)
    | StateMoved(issuer: Step, to: string)
    | Decided(issuer: Step, byHuman: bool, text: string)
    | AgentAsked(issuer: Step)
    | StepDone(index: nat, step: Step, status: Status)

  type History = seq<Event>

  /** `runs`: whether `executeCommand` returns rather than throws. `answers`: the terminal prompt,
      `None` when it throws. `resumes`: the string handed to the graph engine's `resume`. */
  datatype World = World(
    runs: (History, Command) -> bool,
    checks: (History, Check) -> CheckReply,
    answers: (History, Step) -> Option<string>,
    resumes: (History, Step) -> string,
    replans: (History, ExecutionState) -> ReplanReply)

  datatype Setting = Setting(
    mode: Mode,
    manifest: Manifest,
    context: AgentContext,
    coveredLevels: seq<RiskLevel>,
    registry: CapabilityRegistry,
    providers: seq<Provider>,
    hasHandler: bool)

  predicate NonBlank(text: Option<string>) {
    text.Some? && !Blank(text.value)
  }

  /** `isDeclarativeNoOpCheck`: a check that asserts nothing passes without asking the backend. */
  predicate IsNoOpCheck(check: Check) {
    if NonBlank(check.statement) then false
    else if check.kind == "expression" then true
    else if check.kind == "placeholder" || check.kind == "api_field" then !NonBlank(check.operation)
    else false
  }

  datatype Asked = Asked(history: History, reply: CheckReply)

  function Ask(w: World, issuer: Step, check: Check, h: History): Asked {
    if IsNoOpCheck(check) then Asked(h, Holds)
    else
      var reply := w.checks(h, check);
      Asked(h + [CheckAsked(issuer, check, reply)], reply)
  }

  /** Preconditions in order, stopping at the first that does not hold. */
  function AskAll(w: World, issuer: Step, checks: seq<Check>, h: History): Asked {
    if checks == [] then Asked(h, Holds)
    else
      var first := Ask(w, issuer, checks[0], h);
      if first.reply != Holds then first else AskAll(w, issuer, checks[1..], first.history)
  }

  function Taken(issuer: Step, captures: seq<Capture>): (events: History)
    ensures |events| == |captures|
  {
    seq(|captures|, i requires 0 <= i < |captures| => CaptureTaken(issuer, captures[i], ExecuteCapture(captures[i])))
  }

  function Moves(step: Step): History
    requires step.SystemAction?
  {
    if step.stateTransition.Some? && step.stateTransition.value != ""
    then [StateMoved(step, step.stateTransition.value)] else []
  }

  /** A transition is an event exactly when the step names one. */
  lemma MovesIff(step: Step)
    requires step.SystemAction?
    ensures |Moves(step)| <= 1 && (Moves(step) != [] <==> step.stateTransition.Some? && |step.stateTransition.value| > 0)
    ensures Moves(step) != [] ==> Moves(step)[0] == StateMoved(step, step.stateTransition.value)
  {
  }

  predicate ProvidersResolved(cfg: Setting, step: Step)
    requires step.SystemAction?
  {
    StepResolved(step, cfg.manifest, cfg.registry, cfg.providers, cfg.mode)
  }

  function EffectiveTrust(cfg: Setting, scenario: string): TrustLevel {
    if scenario in cfg.context.trustOverrides then cfg.context.trustOverrides[scenario] else cfg.context.trustLevel
  }

  /** The approval decision both engines take before they turn to a human. */
  predicate AutoApproves(cfg: Setting, plan: Plan) {
    var risk := PlanRisk(plan.steps);
    ShouldAutoApprove(risk, EffectiveTrust(cfg, plan.scenario), risk in cfg.coveredLevels,
                      cfg.context.requireApprovalForAllElevated)
  }

  /** The results after which neither engine goes on to the next step. */
  predicate Halts(step: Step, status: Status) {
    status == Failed || (step.HumanApproval? && status == Skipped)
  }
}
