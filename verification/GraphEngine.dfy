/** The checkpointed engine (src/framework/graph-engine.ts, graph-nodes.ts, graph-state.ts): nodes
    that return state updates, reducers that merge them, and edges that route on the merged state. */
module GraphEngine {
  import opened Plans
  import opened Safety
  import opened Runs
  import opened Walks

  datatype Outcome = Pending | OutcomeFailed | OutcomeAborted

  /** The channels of the graph state that routing, rollback and the agent read. */
  datatype GraphState = GraphState(
    plan: Plan,
    completedSteps: seq<StepResult>,
    executionOutcome: Outcome,
    rollbackNeeded: bool,
    failedStepId: Option<string>)

  function InitialState(plan: Plan): GraphState {
    GraphState(plan, [], Pending, false, None)
  }

  /** What a node returns. A channel the node does not mention is `None`. */
  datatype Update = Update(
    completedSteps: seq<StepResult>,
    executionOutcome: Option<Outcome>,
    failedStepId: Option<string>,
    rollbackNeeded: Option<bool>)

  function Replace<T>(existing: T, update: Option<T>): T {
    if update.Some? then update.value else existing
  }

  /** The reducers: `completedSteps` appends, the other channels take the latest value. */
  function Reduce(state: GraphState, update: Update): GraphState {
    GraphState(
      state.plan,
      state.completedSteps + update.completedSteps,
      Replace(state.executionOutcome, update.executionOutcome),
      Replace(state.rollbackNeeded, update.rollbackNeeded),
      if update.failedStepId.Some? then update.failedStepId else state.failedStepId)
  }

  function Plain(step: Step, status: Status): Update {
    Update([StepResult(step, status)], None, None, None)
  }

  function FailedUpdate(step: Step): Update {
    Update([StepResult(step, Failed)], Some(OutcomeFailed), Some(step.id), None)
  }

  function FailedMutation(step: Step): Update {
    FailedUpdate(step).(rollbackNeeded := Some(true))
  }

  /** A node either yields an update, suspends at an approval it has no decision for, or throws. */
  datatype NodeEnd = Yields(update: Update) | Suspends | Throws | Starves

  /** `used` counts the resume decisions the node has consumed. */
  datatype NodeRun = NodeRun(history: History, used: nat, end: NodeEnd)

  ghost function SystemActionNode(cfg: Setting, w: World, step: Step, used: nat, h: History): NodeRun
    requires step.SystemAction?
  {
    if !BlastRadiusValid(step, cfg.manifest, cfg.context) then NodeRun(h, used, Yields(FailedMutation(step)))
    else if cfg.mode == Execute && !ProvidersResolved(cfg, step) then NodeRun(h, used, Yields(FailedMutation(step)))
    else
      var captured := h + Taken(step, step.before);
      if RequiredCaptureFailed(step.before) then NodeRun(captured, used, Yields(FailedMutation(step)))
      else
        var pre := AskAll(w, step, step.preConditions, captured);
        match pre.reply
        case Raises => NodeRun(pre.history, used, Throws)
        case Fails => NodeRun(pre.history, used, Yields(FailedMutation(step)))
        case Holds =>
          if cfg.mode == Execute then
            if w.runs(pre.history, step.command) then
              var moved := pre.history + [CommandRun(step, step.command, true)] + Moves(step);
              var judged := Ask(w, step, step.successCheck, moved);
              if judged.reply == Raises then NodeRun(judged.history, used, Throws)
              else
                var after := judged.history + Taken(step, step.after);
                if judged.reply != Holds then NodeRun(after, used, Yields(FailedMutation(step)))
                else NodeRun(after, used, Yields(Plain(step, Success)))
            else NodeRun(pre.history + [CommandRun(step, step.command, false)], used, Yields(FailedMutation(step)))
          else NodeRun(pre.history + Moves(step), used, Yields(Plain(step, Success)))
  }

  /** The decision is whatever string `resume` was given; only two strings are told apart. */
  function StatusOfText(text: string): Status {
    if text == "rejected" then Failed else if text == "skipped" then Skipped else Success
  }

  function ApprovalUpdate(step: Step, text: string): Update {
    match StatusOfText(text)
    case Failed => Update([StepResult(step, Failed)], Some(OutcomeFailed), None, None)
    case Skipped => Update([StepResult(step, Skipped)], Some(OutcomeAborted), None, None)
    case _ => Plain(step, Success)
  }

  ghost function ApprovalNode(cfg: Setting, w: World, step: Step, state: GraphState, answers: seq<string>, used: nat, h: History): NodeRun
    requires used <= |answers|
  {
    if AutoApproves(cfg, state.plan) || !cfg.hasHandler then
      NodeRun(h + [Decided(step, false, "approved")], used, Yields(ApprovalUpdate(step, "approved")))
    else if used == |answers| then NodeRun(h, used, Suspends)
    else NodeRun(h + [Decided(step, true, answers[used])], used + 1, Yields(ApprovalUpdate(step, answers[used])))
  }

  /** The node for a step. A node with no replanning checkpoint inside never starves. */
  ghost function Node(cfg: Setting, w: World, step: Step, state: GraphState, answers: seq<string>, used: nat,
                      h: History, fuel: nat): (run: NodeRun)
    requires used <= |answers|
    ensures used <= run.used <= |answers|
    decreases fuel, 0, step
  {
    match step
    case DiagnosisAction(_, _, _, command, _) =>
      var ok := w.runs(h, command);
      NodeRun(h + [CommandRun(step, command, ok)], used, Yields(if ok then Plain(step, Success) else FailedUpdate(step)))
    case HumanNotification(_) => NodeRun(h, used, Yields(Plain(step, Success)))
    case Checkpoint(_, captures) =>
      NodeRun(h + Taken(step, captures), used,
              Yields(if RequiredCaptureFailed(captures) then FailedUpdate(step) else Plain(step, Success)))
    case SystemAction(_, _, _, _, _, _, _, _, _, _, _, _, _) => SystemActionNode(cfg, w, step, used, h)
    case HumanApproval(_, _) => ApprovalNode(cfg, w, step, state, answers, used, h)
    case Conditional(_, condition, thenStep, elseStep) =>
      var asked := Ask(w, step, condition, h);
      if asked.reply == Raises then NodeRun(asked.history, used, Throws)
      else if asked.reply == Holds then
        Branch(step, Node(cfg, w, thenStep, state, answers, used, asked.history, fuel))
      else if elseStep.None? then NodeRun(asked.history, used, Yields(Plain(step, Skipped)))
      else Branch(step, Node(cfg, w, elseStep.value, state, answers, used, asked.history, fuel))
    case ReplanningCheckpoint(_, _, captures) =>
      var asked := h + Taken(step, captures);
      var reply := w.replans(asked, ExecutionState(state.completedSteps, |state.completedSteps|));
      var replied := asked + [AgentAsked(step)];
      match reply
      case ReplanRaises => NodeRun(replied, used, Throws)
      case Abort => NodeRun(replied, used, Yields(Update([StepResult(step, Failed)], Some(OutcomeAborted), None, None)))
      case Continue => NodeRun(replied, used, Yields(Plain(step, Success)))
      case Revise(plan) =>
        if fuel == 0 then NodeRun(replied, used, Starves)
        else RevisedNodes(cfg, w, step, plan.steps, state, answers, used, replied, fuel - 1)
  }

  /** The conditional's own update, made from the branch's: the status is copied, a failure is
      recorded under the conditional's id, and the branch's request for a rollback is dropped. */
  function Branch(step: Step, run: NodeRun): NodeRun {
    if !run.end.Yields? then run
    else
      var results := run.end.update.completedSteps;
      var status := if results == [] then Success else results[0].status;
      run.(end := Yields(if status == Failed then FailedUpdate(step) else Plain(step, status)))
  }

  /** Revised steps run inline, all of them against the state the checkpoint was entered with. */
  ghost function RevisedNodes(cfg: Setting, w: World, step: Step, steps: seq<Step>, state: GraphState, answers: seq<string>,
                              used: nat, h: History, fuel: nat): (run: NodeRun)
    requires used <= |answers|
    ensures used <= run.used <= |answers|
    decreases fuel, 1, |steps|
  {
    if steps == [] then NodeRun(h, used, Yields(Plain(step, Success)))
    else
      var run := Node(cfg, w, steps[0], state, answers, used, h, fuel);
      if !run.end.Yields? then run
      else
        var results := run.end.update.completedSteps;
        if results != [] && results[|results| - 1].status == Failed then
          run.(end := Yields(Update([StepResult(step, Failed)], Some(OutcomeFailed), None, None)))
        else RevisedNodes(cfg, w, step, steps[1..], state, answers, run.used, run.history, fuel)
  }

  /** Where the graph is. A suspended node is re-entered from its start once a decision arrives. */
  datatype Position = At(node: nat) | Awaiting(node: nat) | AtEnd | Crashed | OutOfFuel

  datatype Config = Config(position: Position, state: GraphState, answers: seq<string>, history: History)

  function Start(plan: Plan): Config {
    Config(if plan.steps == [] then AtEnd else At(0), InitialState(plan), [], [])
  }

  /** The edge out of node `i`. */
  function Route(state: GraphState, i: nat): Position {
    var last := |state.completedSteps| - 1;
    if i + 1 >= |state.plan.steps| then AtEnd
    else if last < 0 then At(i + 1)
    else if state.completedSteps[last].status == Failed then AtEnd
    else if state.completedSteps[last].status == Skipped && state.completedSteps[last].step.HumanApproval? then AtEnd
    else At(i + 1)
  }

  /** One move of the graph: run a node, or resume a suspended one with the next decision. */
  ghost function Advance(cfg: Setting, w: World, fuel: nat, c: Config): Config {
    match c.position
    case At(i) => if i < |c.state.plan.steps| then RunNode(cfg, w, fuel, c, i) else c
    case Awaiting(i) =>
      if i < |c.state.plan.steps| then
        Config(At(i), c.state, c.answers + [w.resumes(c.history, c.state.plan.steps[i])], c.history)
      else c
    case _ => c
  }

  ghost function RunNode(cfg: Setting, w: World, fuel: nat, c: Config, i: nat): Config
    requires i < |c.state.plan.steps|
  {
    var step := c.state.plan.steps[i];
    var run := Node(cfg, w, step, c.state, c.answers, 0, c.history, fuel);
    match run.end
    case Yields(update) =>
      var state := Reduce(c.state, update);
      var status := if update.completedSteps == [] then Success else update.completedSteps[0].status;
      Config(Route(state, i), state, [], run.history + [StepDone(i, step, status)])
    case Suspends => Config(Awaiting(i), c.state, c.answers, run.history)
    case Throws => Config(Crashed, c.state, c.answers, run.history)
    case Starves => Config(OutOfFuel, c.state, c.answers, run.history)
  }

  ghost function Mover(cfg: Setting, w: World, fuel: nat): Config -> Config {
    (c: Config) => Advance(cfg, w, fuel, c)
  }

  ghost function After(cfg: Setting, w: World, c: Config, moves: nat, fuel: nat): Config {
    Iterate(Mover(cfg, w, fuel), c, moves)
  }

  /** Everything a run of the plan can reach. */
  ghost predicate Reachable(cfg: Setting, w: World, plan: Plan, fuel: nat, c: Config) {
    exists moves: nat :: c == After(cfg, w, Start(plan), moves, fuel)
  }

  // ---- what every reachable state keeps ----

  ghost predicate OneResult(step: Step, update: Update) {
    |update.completedSteps| == 1 && update.completedSteps[0].step == step && update.completedSteps[0].status != RolledBack
  }

  /** How the other channels of an update follow from its result. */
  ghost predicate Faithful(step: Step, update: Update)
    requires OneResult(step, update)
  {
    var status := update.completedSteps[0].status;
    && (update.executionOutcome.Some? <==> Halts(step, status))
    && update.executionOutcome != Some(Pending)
    && (update.rollbackNeeded == if step.SystemAction? && status == Failed then Some(true) else None)
    && (update.failedStepId == if status == Failed && !step.HumanApproval? && !step.ReplanningCheckpoint? then Some(step.id) else None)
    && (update.executionOutcome == Some(OutcomeAborted) ==> status == Skipped || step.ReplanningCheckpoint?)
    && (update.executionOutcome == Some(OutcomeFailed) ==> status == Failed)
    && (update.rollbackNeeded.Some? ==> update.failedStepId.Some?)
  }

  lemma ActionNodeIsFaithful(cfg: Setting, w: World, step: Step, used: nat, h: History)
    requires step.SystemAction?
    ensures var end := SystemActionNode(cfg, w, step, used, h).end;
      end.Yields? ==> OneResult(step, end.update) && Faithful(step, end.update)
  {
    hide BlastRadiusValid, ProvidersResolved, RequiredCaptureFailed, AskAll, Ask, Taken;
  }

  lemma {:induction false} NodeIsFaithful(cfg: Setting, w: World, step: Step, state: GraphState, answers: seq<string>, used: nat,
                       h: History, fuel: nat)
    requires used <= |answers|
    ensures var end := Node(cfg, w, step, state, answers, used, h, fuel).end;
      end.Yields? ==> OneResult(step, end.update) && Faithful(step, end.update)
    decreases fuel, 0, step
  {
    hide AutoApproves, RequiredCaptureFailed, SystemActionNode, RevisedNodes, Taken;
    match step
    case SystemAction(_, _, _, _, _, _, _, _, _, _, _, _, _) => ActionNodeIsFaithful(cfg, w, step, used, h);
    case Conditional(_, condition, thenStep, elseStep) =>
      var asked := Ask(w, step, condition, h);
      if asked.reply == Holds {
        NodeIsFaithful(cfg, w, thenStep, state, answers, used, asked.history, fuel);
      } else if asked.reply == Fails && elseStep.Some? {
        NodeIsFaithful(cfg, w, elseStep.value, state, answers, used, asked.history, fuel);
      }
    case ReplanningCheckpoint(_, _, captures) =>
      var asked := h + Taken(step, captures);
      var reply := w.replans(asked, ExecutionState(state.completedSteps, |state.completedSteps|));
      if reply.Revise? && fuel > 0 {
        RevisedIsFaithful(cfg, w, step, reply.plan.steps, state, answers, used, asked + [AgentAsked(step)], fuel - 1);
      }
    case _ =>
  }

  lemma {:induction false} RevisedIsFaithful(cfg: Setting, w: World, step: Step, steps: seq<Step>, state: GraphState, answers: seq<string>,
                          used: nat, h: History, fuel: nat)
    requires used <= |answers| && step.ReplanningCheckpoint?
    ensures var end := RevisedNodes(cfg, w, step, steps, state, answers, used, h, fuel).end;
      end.Yields? ==> OneResult(step, end.update) && Faithful(step, end.update)
    decreases |steps|
  {
    if steps != [] {
      var run := Node(cfg, w, steps[0], state, answers, used, h, fuel);
      if run.end.Yields? {
        RevisedIsFaithful(cfg, w, step, steps[1..], state, answers, run.used, run.history, fuel);
      }
    }
  }

  ghost predicate Ended(c: Config) {
    !c.position.At? && !c.position.Awaiting?
  }

  /** The failures that leave the step's id: not a rejected approval, nor a replanning checkpoint. */
  predicate RecordsFailure(result: StepResult) {
    result.status == Failed && !result.step.HumanApproval? && !result.step.ReplanningCheckpoint?
  }

  /** The shape of a reachable state: results line up with the plan, only the last can halt it, and
      the outcome, rollback and failure channels say exactly what the last result says. */
  ghost predicate StateInvariant(c: Config) {
    var s := c.state;
    var n := |s.completedSteps|;
    && n <= |s.plan.steps|
    && (forall k :: 0 <= k < n ==> s.completedSteps[k].step == s.plan.steps[k] && s.completedSteps[k].status != RolledBack)
    && (forall k :: 0 <= k < n - 1 ==> !Halts(s.completedSteps[k].step, s.completedSteps[k].status))
    && (c.position.At? ==> c.position.node == n)
    && (c.position.Awaiting? ==> c.position.node == n)
    && (!Ended(c) && n > 0 ==> !Halts(s.completedSteps[n - 1].step, s.completedSteps[n - 1].status))
    && (c.position.AtEnd? ==> n == |s.plan.steps| || (n > 0 && Halts(s.completedSteps[n - 1].step, s.completedSteps[n - 1].status)))
    && (s.executionOutcome != Pending <==> n > 0 && Halts(s.completedSteps[n - 1].step, s.completedSteps[n - 1].status))
    && (s.rollbackNeeded <==> n > 0 && s.completedSteps[n - 1].step.SystemAction? && s.completedSteps[n - 1].status == Failed)
    && (s.executionOutcome == OutcomeAborted ==> s.completedSteps[n - 1].status == Skipped || s.completedSteps[n - 1].step.ReplanningCheckpoint?)
    && (s.executionOutcome == OutcomeFailed ==> s.completedSteps[n - 1].status == Failed)
    && (s.failedStepId == if n > 0 && RecordsFailure(s.completedSteps[n - 1]) then Some(s.completedSteps[n - 1].step.id) else None)
    && (s.rollbackNeeded ==> s.failedStepId.Some?)
  }

  lemma AdvanceKeepsInvariant(cfg: Setting, w: World, c: Config, fuel: nat)
    requires StateInvariant(c)
    ensures StateInvariant(Advance(cfg, w, fuel, c))
    ensures Advance(cfg, w, fuel, c).state.plan == c.state.plan
  {
    hide Node;
    if c.position.At? && c.position.node < |c.state.plan.steps| {
      NodeIsFaithful(cfg, w, c.state.plan.steps[c.position.node], c.state, c.answers, 0, c.history, fuel);
    }
  }

  lemma {:induction false} ReachableKeepsInvariant(cfg: Setting, w: World, plan: Plan, moves: nat, fuel: nat)
    ensures var c := After(cfg, w, Start(plan), moves, fuel); StateInvariant(c) && c.state.plan == plan
  {
    hide Advance, Node, RunNode;
    if moves > 0 {
      ReachableKeepsInvariant(cfg, w, plan, moves - 1, fuel);
      AdvanceKeepsInvariant(cfg, w, After(cfg, w, Start(plan), moves - 1, fuel), fuel);
    }
  }
}
