/** The graph engine refines the sequential one: same results, same events, same ending. */
module Refinement {
  import opened Plans
  import opened Safety
  import opened Coordinator
  import opened Runs
  import opened Walks
  import L = LegacyEngine
  import G = GraphEngine

  /** The plans on which both engines execute the same steps: no replanning checkpoint, and only
      system actions and notifications inside branches. */
  predicate ExecutedByBoth(step: Step) {
    && !step.ReplanningCheckpoint?
    && (step.Conditional? ==> RunsInBranch(step.thenStep) && (step.elseStep.Some? ==> RunsInBranch(step.elseStep.value)))
  }

  predicate RunsInBranch(step: Step) {
    step.SystemAction? || step.HumanNotification?
  }

  /** The host resumes the graph with the decision the terminal prompt would have produced. */
  ghost predicate SameHuman(cfg: Setting, w: World) {
    && cfg.hasHandler
    && forall h, step :: w.answers(h, step).Some? && w.resumes(h, step) == Recorded(w.answers(h, step).value)
  }

  /** The step's command is not a diagnosis that throws here. */
  ghost predicate DiagnosisReturns(w: World, step: Step, h: History) {
    step.DiagnosisAction? ==> w.runs(h, step.command)
  }

  /** One step of each engine ended alike. */
  ghost predicate Alike(step: Step, run: L.StepRun, node: G.NodeRun) {
    && run.history == node.history
    && match run.end
       case Returned(status) =>
         node.end.Yields? && node.end.update.completedSteps == [StepResult(step, status)]
       case Threw => node.end.Throws?
       case Starved => node.end.Starves?
  }

  lemma ActionsAlike(cfg: Setting, w: World, step: Step, used: nat, h: History)
    requires step.SystemAction?
    ensures var run := L.ActionRun(cfg, w, step, h);
      Alike(step, L.StepRun(run.history, [], run.end), G.SystemActionNode(cfg, w, step, used, h))
  {
    hide BlastRadiusValid, ProvidersResolved, AskAll, RequiredCaptureFailed;
  }

  lemma ConditionalsAlike(cfg: Setting, w: World, step: Step, state: G.GraphState, answers: seq<string>, h: History, fuel: nat)
    requires step.Conditional? && ExecutedByBoth(step)
    ensures var run := L.ConditionalRun(cfg, w, step, h);
      Alike(step, L.StepRun(run.history, [], run.end), G.Node(cfg, w, step, state, answers, 0, h, fuel))
  {
    var asked := Ask(w, step, step.condition, h);
    if asked.reply == Holds {
      BranchesAlike(cfg, w, step, step.thenStep, state, answers, asked.history, fuel);
    } else if asked.reply == Fails && step.elseStep.Some? {
      BranchesAlike(cfg, w, step, step.elseStep.value, state, answers, asked.history, fuel);
    }
  }

  lemma BranchesAlike(cfg: Setting, w: World, step: Step, branch: Step, state: G.GraphState, answers: seq<string>, h: History, fuel: nat)
    requires RunsInBranch(branch)
    ensures var run := L.BranchRun(cfg, w, branch, h);
      Alike(step, L.StepRun(run.history, [], run.end), G.Branch(step, G.Node(cfg, w, branch, state, answers, 0, h, fuel)))
  {
    if branch.SystemAction? {
      ActionsAlike(cfg, w, branch, 0, h);
    }
  }

  /** Every step but a human's approval behaves alike from the same history. */
  lemma StepsAlike(cfg: Setting, w: World, step: Step, plan: Plan, current: nat, h: History, completed: seq<StepResult>,
                   state: G.GraphState, answers: seq<string>, fuel: nat)
    requires ExecutedByBoth(step) && DiagnosisReturns(w, step, h)
    requires state.plan == plan
    requires step.HumanApproval? ==> AutoApproves(cfg, plan)
    ensures Alike(step, L.RunStep(cfg, w, step, plan, current, h, completed, fuel),
                  G.Node(cfg, w, step, state, answers, 0, h, fuel))
  {
    if step.SystemAction? {
      ActionsAlike(cfg, w, step, 0, h);
    } else if step.Conditional? {
      ConditionalsAlike(cfg, w, step, state, answers, h, fuel);
    }
  }

  /** An approval a human decides: the graph suspends without an event and, re-entered with the
      decision, ends as the prompt does. */
  lemma ApprovalsAlike(cfg: Setting, w: World, step: Step, plan: Plan, current: nat, h: History, completed: seq<StepResult>,
                       state: G.GraphState, fuel: nat)
    requires step.HumanApproval? && state.plan == plan
    requires SameHuman(cfg, w) && !AutoApproves(cfg, plan)
    ensures G.Node(cfg, w, step, state, [], 0, h, fuel) == G.NodeRun(h, 0, G.Suspends)
    ensures Alike(step, L.RunStep(cfg, w, step, plan, current, h, completed, fuel),
                  G.Node(cfg, w, step, state, [w.resumes(h, step)], 0, h, fuel))
  {
    hide AutoApproves, ParseAnswer, Recorded;
    RecordedIff(w.answers(h, step).value);
  }

  /** Where the graph stands after closing node `i` with a result. */
  ghost predicate ClosedWith(c: G.Config, i: nat, h: History, status: Status, d: G.Config)
    requires i < |c.state.plan.steps|
  {
    && d.history == h + [StepDone(i, c.state.plan.steps[i], status)]
    && d.answers == []
    && d.state.plan == c.state.plan
    && d.state.completedSteps == c.state.completedSteps + [StepResult(c.state.plan.steps[i], status)]
    && d.position == (if Halts(c.state.plan.steps[i], status) || i + 1 == |c.state.plan.steps| then G.AtEnd else G.At(i + 1))
  }

  /** Node `i` was taken to its end as the sequential engine took the step; a thrown diagnosis, which
      rejects the sequential run, is an ordinary failure in the graph. */
  ghost predicate StepSimulated(c: G.Config, i: nat, run: L.StepRun, d: G.Config)
    requires i < |c.state.plan.steps|
  {
    match run.end
    case Returned(status) => ClosedWith(c, i, run.history, status, d)
    case Threw =>
      if c.state.plan.steps[i].DiagnosisAction? then ClosedWith(c, i, run.history, Failed, d)
      else d.position == G.Crashed && d.history == run.history && d.state == c.state
    case Starved => false
  }

  ghost predicate Ready(plan: Plan, c: G.Config, i: nat) {
    && i <= |plan.steps|
    && c.state.plan == plan
    && c.answers == []
    && c.position == (if i == |plan.steps| then G.AtEnd else G.At(i))
  }

  /** A node that ended like the step moves the graph to where the sequential engine goes on. */
  lemma AlikeIsSimulated(cfg: Setting, w: World, plan: Plan, i: nat, c: G.Config, entered: G.Config, run: L.StepRun, fuel: nat)
    requires i < |plan.steps| && Ready(plan, entered, i) && c == entered.(answers := c.answers)
    requires Alike(plan.steps[i], run, G.Node(cfg, w, plan.steps[i], c.state, c.answers, 0, c.history, fuel))
    requires !run.end.Starved? && (run.end.Threw? ==> !plan.steps[i].DiagnosisAction?)
    ensures StepSimulated(entered, i, run, G.RunNode(cfg, w, fuel, c, i))
  {
    if run.end.Returned? {
      var state := G.Reduce(c.state, G.Node(cfg, w, plan.steps[i], c.state, c.answers, 0, c.history, fuel).end.update);
      assert state.completedSteps[|state.completedSteps| - 1] == StepResult(plan.steps[i], run.end.status);
    }
  }

  lemma NothingStarves(cfg: Setting, w: World, step: Step, plan: Plan, current: nat, h: History, completed: seq<StepResult>, fuel: nat)
    requires !step.ReplanningCheckpoint?
    ensures !L.RunStep(cfg, w, step, plan, current, h, completed, fuel).end.Starved?
  {
    hide BlastRadiusValid, ProvidersResolved, AskAll, Ask, RequiredCaptureFailed, AutoApproves;
  }

  lemma SimulateApproval(cfg: Setting, w: World, plan: Plan, i: nat, c: G.Config, completed: seq<StepResult>, fuel: nat)
    requires i < |plan.steps| && Ready(plan, c, i) && plan.steps[i].HumanApproval?
    requires !AutoApproves(cfg, plan) && SameHuman(cfg, w)
    ensures StepSimulated(c, i, L.RunStep(cfg, w, plan.steps[i], plan, i, c.history, completed, fuel),
                          G.After(cfg, w, c, 3, fuel))
  {
    var step := plan.steps[i];
    ApprovalsAlike(cfg, w, step, plan, i, c.history, completed, c.state, fuel);
    NothingStarves(cfg, w, step, plan, i, c.history, completed, fuel);
    var suspended := c.(position := G.Awaiting(i));
    var resumed := c.(answers := [w.resumes(c.history, step)]);
    AlikeIsSimulated(cfg, w, plan, i, resumed, c, L.RunStep(cfg, w, step, plan, i, c.history, completed, fuel), fuel);
    calc {
      G.After(cfg, w, c, 3, fuel);
      G.Advance(cfg, w, fuel, G.Advance(cfg, w, fuel, G.Advance(cfg, w, fuel, c)));
      { assert G.Advance(cfg, w, fuel, c) == suspended; }
      G.Advance(cfg, w, fuel, G.Advance(cfg, w, fuel, suspended));
      { assert G.Advance(cfg, w, fuel, suspended) == resumed; }
      G.Advance(cfg, w, fuel, resumed);
      G.RunNode(cfg, w, fuel, resumed, i);
    }
  }

  /** A diagnosis command that throws: rejected here, failed there. */
  lemma SimulateThrownDiagnosis(cfg: Setting, w: World, plan: Plan, i: nat, c: G.Config, completed: seq<StepResult>, fuel: nat)
    requires i < |plan.steps| && Ready(plan, c, i)
    requires plan.steps[i].DiagnosisAction? && !w.runs(c.history, plan.steps[i].command)
    ensures L.RunStep(cfg, w, plan.steps[i], plan, i, c.history, completed, fuel).end == L.Threw
    ensures StepSimulated(c, i, L.RunStep(cfg, w, plan.steps[i], plan, i, c.history, completed, fuel), G.RunNode(cfg, w, fuel, c, i))
  {
    var state := G.Reduce(c.state, G.FailedUpdate(plan.steps[i]));
    assert state.completedSteps[|state.completedSteps| - 1] == StepResult(plan.steps[i], Failed);
  }

  lemma SimulateStep(cfg: Setting, w: World, plan: Plan, i: nat, c: G.Config, completed: seq<StepResult>, fuel: nat)
    returns (moves: nat)
    requires i < |plan.steps| && Ready(plan, c, i)
    requires ExecutedByBoth(plan.steps[i]) && SameHuman(cfg, w)
    ensures StepSimulated(c, i, L.RunStep(cfg, w, plan.steps[i], plan, i, c.history, completed, fuel),
                          G.After(cfg, w, c, moves, fuel))
  {
    var step := plan.steps[i];
    if step.HumanApproval? && !AutoApproves(cfg, plan) {
      SimulateApproval(cfg, w, plan, i, c, completed, fuel);
      moves := 3;
    } else if !DiagnosisReturns(w, step, c.history) {
      SimulateThrownDiagnosis(cfg, w, plan, i, c, completed, fuel);
      moves := 1;
      assert G.After(cfg, w, c, 1, fuel) == G.RunNode(cfg, w, fuel, c, i);
    } else {
      StepsAlike(cfg, w, step, plan, i, c.history, completed, c.state, [], fuel);
      NothingStarves(cfg, w, step, plan, i, c.history, completed, fuel);
      AlikeIsSimulated(cfg, w, plan, i, c, c, L.RunStep(cfg, w, step, plan, i, c.history, completed, fuel), fuel);
      moves := 1;
      assert G.After(cfg, w, c, 1, fuel) == G.RunNode(cfg, w, fuel, c, i);
    }
  }

  /** The final configuration that corresponds to a sequential run. */
  ghost predicate Corresponds(base: seq<StepResult>, run: L.PlanRun, d: G.Config) {
    && d.history == run.history
    && d.state.completedSteps == base + run.results
    && match run.ending
       case Finished => d.position == G.AtEnd
       case Rejection => d.position == G.Crashed
       case Starvation => false
  }

  /** The sequential run, from step `i` on, was rejected by a diagnosis command. */
  ghost predicate RejectedByDiagnosis(plan: Plan, i: nat, run: L.PlanRun) {
    var at := i + |run.results|;
    run.ending.Rejection? && at < |plan.steps| && plan.steps[at].DiagnosisAction?
  }

  /** The graph then ends with that diagnosis as a failed result. */
  ghost predicate EndsInFailedDiagnosis(base: seq<StepResult>, plan: Plan, i: nat, run: L.PlanRun, d: G.Config)
    requires RejectedByDiagnosis(plan, i, run)
  {
    var at := i + |run.results|;
    && d.position == G.AtEnd
    && d.history == run.history + [StepDone(at, plan.steps[at], Failed)]
    && d.state.completedSteps == base + run.results + [StepResult(plan.steps[at], Failed)]
  }

  ghost predicate Simulates(base: seq<StepResult>, plan: Plan, i: nat, run: L.PlanRun, d: G.Config) {
    if RejectedByDiagnosis(plan, i, run) then EndsInFailedDiagnosis(base, plan, i, run, d) else Corresponds(base, run, d)
  }

  lemma AfterSum(cfg: Setting, w: World, c: G.Config, a: nat, b: nat, fuel: nat)
    ensures G.After(cfg, w, c, 0, fuel) == c
    ensures G.After(cfg, w, c, a + b, fuel) == G.After(cfg, w, G.After(cfg, w, c, a, fuel), b, fuel)
  {
    IterateSum(G.Mover(cfg, w, fuel), c, a, b);
  }

  lemma SimulationExtends(base: seq<StepResult>, plan: Plan, i: nat, result: StepResult, tail: L.PlanRun, d: G.Config)
    requires Simulates(base + [result], plan, i + 1, tail, d)
    ensures Simulates(base, plan, i, tail.(results := [result] + tail.results), d)
  {
    assert base + [result] + tail.results == base + ([result] + tail.results);
  }

  lemma {:induction false} SimulateFrom(cfg: Setting, w: World, plan: Plan, i: nat, c: G.Config, completed: seq<StepResult>, fuel: nat)
    returns (moves: nat)
    requires Ready(plan, c, i)
    requires forall k :: 0 <= k < |plan.steps| ==> ExecutedByBoth(plan.steps[k])
    requires SameHuman(cfg, w)
    ensures Simulates(c.state.completedSteps, plan, i, L.RunFrom(cfg, w, plan, i, c.history, completed, fuel), G.After(cfg, w, c, moves, fuel))
    decreases |plan.steps| - i
  {
    hide G.After, L.RunStep, SameHuman;
    if i == |plan.steps| {
      AfterSum(cfg, w, c, 0, 0, fuel);
      moves := 0;
    } else {
      var first := SimulateStep(cfg, w, plan, i, c, completed, fuel);
      var d := G.After(cfg, w, c, first, fuel);
      var run := L.RunStep(cfg, w, plan.steps[i], plan, i, c.history, completed, fuel);
      if run.end.Returned? && !Halts(plan.steps[i], run.end.status) {
        var result := StepResult(plan.steps[i], run.end.status);
        var rest := SimulateFrom(cfg, w, plan, i + 1, d, run.completed + [result], fuel);
        AfterSum(cfg, w, c, first, rest, fuel);
        moves := first + rest;
        var tail := L.RunFrom(cfg, w, plan, i + 1, d.history, run.completed + [result], fuel);
        SimulationExtends(c.state.completedSteps, plan, i, result, tail, G.After(cfg, w, c, moves, fuel));
      } else {
        moves := first;
      }
    }
  }

  /** The two engines agree: the graph reaches an end, and the only end it can reach has the sequential
      run's history, results and ending, exactly when no diagnosis command rejected the sequential run. A
      check that throws rejects both. */
  lemma EnginesAgree(cfg: Setting, w: World, plan: Plan, fuel: nat)
    requires forall k :: 0 <= k < |plan.steps| ==> ExecutedByBoth(plan.steps[k])
    requires SameHuman(cfg, w)
    ensures exists c :: G.Reachable(cfg, w, plan, fuel, c) && G.Ended(c)
    ensures var run := L.RunPlan(cfg, w, plan, fuel);
      (forall c :: G.Reachable(cfg, w, plan, fuel, c) && G.Ended(c) ==> Corresponds([], run, c)) <==> !RejectedByDiagnosis(plan, 0, run)
  {
    hide L.RunFrom, G.After, SameHuman;
    var run := L.RunPlan(cfg, w, plan, fuel);
    var d := TheEnd(cfg, w, plan, fuel);
    if RejectedByDiagnosis(plan, 0, run) {
      assert EndsInFailedDiagnosis([], plan, 0, run, d);
      assert !Corresponds([], run, d);
    }
  }

  /** The one configuration in which the graph comes to rest. */
  lemma TheEnd(cfg: Setting, w: World, plan: Plan, fuel: nat) returns (d: G.Config)
    requires forall k :: 0 <= k < |plan.steps| ==> ExecutedByBoth(plan.steps[k])
    requires SameHuman(cfg, w)
    ensures G.Reachable(cfg, w, plan, fuel, d) && G.Ended(d) && Simulates([], plan, 0, L.RunPlan(cfg, w, plan, fuel), d)
    ensures forall c :: G.Reachable(cfg, w, plan, fuel, c) && G.Ended(c) ==> c == d
  {
    var n := SimulateFrom(cfg, w, plan, 0, G.Start(plan), [], fuel);
    d := G.After(cfg, w, G.Start(plan), n, fuel);
    assert G.Reachable(cfg, w, plan, fuel, d);
    forall c | G.Reachable(cfg, w, plan, fuel, c) && G.Ended(c)
      ensures c == d
    {
      var m: nat :| c == G.After(cfg, w, G.Start(plan), m, fuel);
      RestIsUnique(G.Mover(cfg, w, fuel), G.Start(plan), m, n);
    }
  }
}
