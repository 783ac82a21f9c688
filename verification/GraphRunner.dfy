/** The checkpointed engine as it executes: nodes that call the backend in loops, and the streaming
    loop behind `executePlan` and `resume` (src/framework/graph-engine.ts, graph-nodes.ts). */
module GraphRunner {
  import opened Plans
  import opened Safety
  import opened Runs
  import opened Walks
  import opened GraphEngine

  method AskPreconditions(w: World, step: Step, checks: seq<Check>, h: History) returns (asked: Asked)
    ensures asked == AskAll(w, step, checks, h)
  {
    asked := Asked(h, Holds);
    for i := 0 to |checks|
      invariant asked.reply == Holds && AskAll(w, step, checks[i..], asked.history) == AskAll(w, step, checks, h)
    {
      asked := Ask(w, step, checks[i], asked.history);
      assert checks[i..][1..] == checks[i + 1..];
      if asked.reply != Holds {
        return;
      }
    }
  }

  /** `makeSystemActionNode`. */
  method RunSystemAction(cfg: Setting, w: World, step: Step, used: nat, h: History) returns (run: NodeRun)
    requires step.SystemAction?
    ensures run == SystemActionNode(cfg, w, step, used, h)
  {
    hide BlastRadiusValid, ProvidersResolved, AskAll, Ask;
    var failed := Yields(FailedMutation(step));
    var valid := ValidateBlastRadius(step, cfg.manifest, cfg.context);
    if !valid {
      return NodeRun(h, used, failed);
    }
    if cfg.mode == Execute && !ProvidersResolved(cfg, step) {
      return NodeRun(h, used, failed);
    }
    var seen := h + Taken(step, step.before);
    if RequiredCaptureFailed(step.before) {
      return NodeRun(seen, used, failed);
    }
    var pre := AskPreconditions(w, step, step.preConditions, seen);
    if pre.reply != Holds {
      return NodeRun(pre.history, used, if pre.reply == Raises then Throws else failed);
    }
    if cfg.mode != Execute {
      return NodeRun(pre.history + Moves(step), used, Yields(Plain(step, Success)));
    }
    var ok := w.runs(pre.history, step.command);
    seen := pre.history + [CommandRun(step, step.command, ok)];
    if !ok {
      return NodeRun(seen, used, failed);
    }
    var judged := Ask(w, step, step.successCheck, seen + Moves(step));
    if judged.reply == Raises {
      return NodeRun(judged.history, used, Throws);
    }
    run := NodeRun(judged.history + Taken(step, step.after), used,
                   if judged.reply == Holds then Yields(Plain(step, Success)) else failed);
  }

  /** `makeApprovalNode`: `interrupt` hands out the decisions already given, then suspends. */
  method RunApproval(cfg: Setting, step: Step, state: GraphState, answers: seq<string>, used: nat, w: World, h: History)
    returns (run: NodeRun)
    requires used <= |answers|
    ensures run == ApprovalNode(cfg, w, step, state, answers, used, h)
  {
    if AutoApproves(cfg, state.plan) || !cfg.hasHandler {
      return NodeRun(h + [Decided(step, false, "approved")], used, Yields(ApprovalUpdate(step, "approved")));
    }
    if used == |answers| {
      return NodeRun(h, used, Suspends);
    }
    run := NodeRun(h + [Decided(step, true, answers[used])], used + 1, Yields(ApprovalUpdate(step, answers[used])));
  }

  /** `createNodeForStep` applied to the state. */
  method RunStepNode(cfg: Setting, w: World, step: Step, state: GraphState, answers: seq<string>, used: nat, h: History, fuel: nat)
    returns (run: NodeRun)
    requires used <= |answers|
    ensures run == Node(cfg, w, step, state, answers, used, h, fuel)
    decreases fuel, 0, step
  {
    hide SystemActionNode, ApprovalNode, RevisedNodes;
    match step
    case DiagnosisAction(_, _, _, command, _) =>
      var ok := w.runs(h, command);
      run := NodeRun(h + [CommandRun(step, command, ok)], used, Yields(if ok then Plain(step, Success) else FailedUpdate(step)));
    case HumanNotification(_) =>
      run := NodeRun(h, used, Yields(Plain(step, Success)));
    case Checkpoint(_, captures) =>
      run := NodeRun(h + Taken(step, captures), used,
                     Yields(if RequiredCaptureFailed(captures) then FailedUpdate(step) else Plain(step, Success)));
    case SystemAction(_, _, _, _, _, _, _, _, _, _, _, _, _) =>
      run := RunSystemAction(cfg, w, step, used, h);
    case HumanApproval(_, _) =>
      run := RunApproval(cfg, step, state, answers, used, w, h);
    case Conditional(_, condition, thenStep, elseStep) =>
      var asked := Ask(w, step, condition, h);
      if asked.reply == Raises {
        return NodeRun(asked.history, used, Throws);
      }
      if asked.reply == Fails && elseStep.None? {
        return NodeRun(asked.history, used, Yields(Plain(step, Skipped)));
      }
      var branch := if asked.reply == Holds then thenStep else elseStep.value;
      run := RunStepNode(cfg, w, branch, state, answers, used, asked.history, fuel);
      run := Branch(step, run);
    case ReplanningCheckpoint(_, _, captures) =>
      var asked := h + Taken(step, captures);
      var reply := w.replans(asked, ExecutionState(state.completedSteps, |state.completedSteps|));
      var replied := asked + [AgentAsked(step)];
      match reply {
        case ReplanRaises => run := NodeRun(replied, used, Throws);
        case Abort => run := NodeRun(replied, used, Yields(Update([StepResult(step, Failed)], Some(OutcomeAborted), None, None)));
        case Continue => run := NodeRun(replied, used, Yields(Plain(step, Success)));
        case Revise(plan) =>
          if fuel == 0 {
            run := NodeRun(replied, used, Starves);
          } else {
            run := RunRevisedSteps(cfg, w, step, plan.steps, state, answers, used, replied, fuel - 1);
          }
      }
  }

  /** The loop over a revised plan inside `makeReplanningNode`. */
  method RunRevisedSteps(cfg: Setting, w: World, step: Step, steps: seq<Step>, state: GraphState, answers: seq<string>,
                         used: nat, h: History, fuel: nat) returns (run: NodeRun)
    requires used <= |answers|
    ensures run == RevisedNodes(cfg, w, step, steps, state, answers, used, h, fuel)
    decreases fuel, 1
  {
    hide Node;
    run := NodeRun(h, used, Yields(Plain(step, Success)));
    for i := 0 to |steps|
      invariant run.used <= |answers|
      invariant run.end == Yields(Plain(step, Success))
      invariant RevisedNodes(cfg, w, step, steps[i..], state, answers, run.used, run.history, fuel)
             == RevisedNodes(cfg, w, step, steps, state, answers, used, h, fuel)
    {
      run := RunStepNode(cfg, w, steps[i], state, answers, run.used, run.history, fuel);
      assert steps[i..][1..] == steps[i + 1..];
      if !run.end.Yields? {
        return;
      }
      var results := run.end.update.completedSteps;
      if results != [] && results[|results| - 1].status == Failed {
        return run.(end := Yields(Update([StepResult(step, Failed)], Some(OutcomeFailed), None, None)));
      }
      run := run.(end := Yields(Plain(step, Success)));
    }
  }

  ghost predicate Leads(cfg: Setting, w: World, fuel: nat, c: Config, d: Config) {
    exists moves: nat :: d == After(cfg, w, c, moves, fuel)
  }

  lemma LeadsOn(cfg: Setting, w: World, fuel: nat, c: Config, d: Config)
    requires Leads(cfg, w, fuel, c, d)
    ensures Leads(cfg, w, fuel, c, Advance(cfg, w, fuel, d))
  {
    var moves: nat :| d == After(cfg, w, c, moves, fuel);
    assert Advance(cfg, w, fuel, d) == After(cfg, w, c, moves + 1, fuel);
  }

  lemma LeadsFurther(cfg: Setting, w: World, fuel: nat, c: Config, d: Config, e: Config)
    requires Leads(cfg, w, fuel, c, d) && Leads(cfg, w, fuel, d, e)
    ensures Leads(cfg, w, fuel, c, e)
  {
    var m: nat :| d == After(cfg, w, c, m, fuel);
    var n: nat :| e == After(cfg, w, d, n, fuel);
    IterateSum(Mover(cfg, w, fuel), c, m, n);
    assert e == After(cfg, w, c, m + n, fuel);
  }

  /** The node about to run exists. */
  predicate Placed(c: Config) {
    c.position.At? || c.position.Awaiting? ==> c.position.node < |c.state.plan.steps|
  }

  /** The engine object; `saved` is what its checkpointer holds for the thread. */
  class RecoveryGraphEngine {
    const cfg: Setting
    const w: World
    var saved: Option<Config>

    constructor (cfg: Setting, w: World)
      ensures this.cfg == cfg && this.w == w && saved == None
    {
      this.cfg, this.w, saved := cfg, w, None;
    }

    ghost predicate Valid()
      reads this
    {
      saved.Some? ==> Placed(saved.value) && !saved.value.position.At?
    }

    /** `streamToCompletion`: every node runs at most once, so the stream ends; it stops where the graph
        does, at an interrupt, or at an exception. */
    method StreamToCompletion(start: Config, fuel: nat) returns (completed: seq<StepResult>)
      requires Placed(start)
      modifies this
      ensures Valid() && saved.Some? && completed == saved.value.state.completedSteps
      ensures Leads(cfg, w, fuel, start, saved.value)
    {
      var c := start;
      assert c == After(cfg, w, start, 0, fuel);
      while c.position.At?
        invariant Placed(c) && Leads(cfg, w, fuel, start, c) && c.state.plan == start.state.plan
        decreases if c.position.At? then |c.state.plan.steps| - c.position.node else -1
      {
        var i := c.position.node;
        var step := c.state.plan.steps[i];
        var run := RunStepNode(cfg, w, step, c.state, c.answers, 0, c.history, fuel);
        LeadsOn(cfg, w, fuel, start, c);
        match run.end {
          case Yields(update) =>
            var state := Reduce(c.state, update);
            var status := if update.completedSteps == [] then Success else update.completedSteps[0].status;
            c := Config(Route(state, i), state, [], run.history + [StepDone(i, step, status)]);
          case Suspends => c := Config(Awaiting(i), c.state, c.answers, run.history);
          case Throws => c := Config(Crashed, c.state, c.answers, run.history);
          case Starves => c := Config(OutOfFuel, c.state, c.answers, run.history);
        }
      }
      saved := Some(c);
      completed := c.state.completedSteps;
    }

    method ExecutePlan(plan: Plan, fuel: nat) returns (completed: seq<StepResult>)
      modifies this
      ensures Valid() && saved.Some? && completed == saved.value.state.completedSteps
      ensures Reachable(cfg, w, plan, fuel, saved.value)
    {
      completed := StreamToCompletion(Start(plan), fuel);
      ghost var moves: nat :| saved.value == After(cfg, w, Start(plan), moves, fuel);
    }

    /** `resume`: `None` stands for the error raised when nothing has run on the thread. The interrupted
        node is entered again from its start. `otherwise` is where LangGraph leaves a thread that is not
        interrupted when it gets a resume command. */
    method Resume(decision: string, fuel: nat, otherwise: Config) returns (completed: Option<seq<StepResult>>)
      requires Valid() && Placed(otherwise) && !otherwise.position.At?
      modifies this
      ensures Valid() && (completed.None? <==> old(saved).None?)
      ensures completed.None? ==> saved == old(saved)
      ensures completed.Some? ==> saved.Some? && completed.value == saved.value.state.completedSteps
      ensures completed.Some? && !old(saved).value.position.Awaiting? ==> saved.value == otherwise
      ensures completed.Some? && old(saved).value.position.Awaiting? ==>
        var c := old(saved).value;
        Leads(cfg, w, fuel, Config(At(c.position.node), c.state, c.answers + [decision], c.history), saved.value)
    {
      if saved.None? {
        return None;
      }
      var c := saved.value;
      if !c.position.Awaiting? {
        saved := Some(otherwise);
        return Some(otherwise.state.completedSteps);
      }
      var results := StreamToCompletion(Config(At(c.position.node), c.state, c.answers + [decision], c.history), fuel);
      completed := Some(results);
    }
  }

  /** Resuming with the decision the host gives keeps the saved state one that a run of the plan
      reaches, so what holds of every reachable state holds after any number of interrupts. */
  lemma ResumedIsReachable(cfg: Setting, w: World, plan: Plan, fuel: nat, c: Config, later: Config)
    requires Reachable(cfg, w, plan, fuel, c) && c.position.Awaiting? && Placed(c)
    requires Leads(cfg, w, fuel, Config(At(c.position.node), c.state,
                     c.answers + [w.resumes(c.history, c.state.plan.steps[c.position.node])], c.history), later)
    ensures Reachable(cfg, w, plan, fuel, later)
  {
    var moves: nat :| c == After(cfg, w, Start(plan), moves, fuel);
    assert Leads(cfg, w, fuel, Start(plan), c);
    LeadsOn(cfg, w, fuel, Start(plan), c);
    LeadsFurther(cfg, w, fuel, Start(plan), Advance(cfg, w, fuel, c), later);
    var more: nat :| later == After(cfg, w, Start(plan), more, fuel);
  }
}
