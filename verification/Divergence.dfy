/** Where the two engines part: each lemma gives the exact condition under which one step is alike. */
module Divergence {
  import opened Plans
  import opened Runs
  import opened Refinement
  import L = LegacyEngine
  import G = GraphEngine
  import S = Sequencing

  /** A diagnosis step is alike in the two engines exactly when its command does not throw: a thrown
      command rejects the sequential run but is an ordinary failed result in the graph. */
  lemma DiagnosisAlikeIffItReturns(cfg: Setting, w: World, step: Step, plan: Plan, current: nat, h: History,
                                   completed: seq<StepResult>, state: G.GraphState, fuel: nat)
    requires step.DiagnosisAction? && state.plan == plan
    ensures Alike(step, L.RunStep(cfg, w, step, plan, current, h, completed, fuel), G.Node(cfg, w, step, state, [], 0, h, fuel))
            <==> w.runs(h, step.command)
  {
  }

  /** A branch step is alike in the two engines exactly when it is a system action, a notification or
      an empty checkpoint: everything else the sequential engine reports as a success it never ran. */
  lemma BranchAlikeIffExecuted(cfg: Setting, w: World, step: Step, branch: Step, state: G.GraphState, h: History, fuel: nat)
    requires !branch.Conditional?
    ensures var run := L.BranchRun(cfg, w, branch, h);
      Alike(step, L.StepRun(run.history, [], run.end), G.Branch(step, G.Node(cfg, w, branch, state, [], 0, h, fuel)))
      <==> RunsInBranch(branch) || (branch.Checkpoint? && branch.captures == [])
  {
    if RunsInBranch(branch) {
      BranchesAlike(cfg, w, step, branch, state, [], h, fuel);
    } else if branch.ReplanningCheckpoint? {
      ReplanningLeavesEvents(cfg, w, branch, state, h, fuel);
    }
  }

  lemma ReplanningLeavesEvents(cfg: Setting, w: World, step: Step, state: G.GraphState, h: History, fuel: nat)
    requires step.ReplanningCheckpoint?
    ensures |G.Node(cfg, w, step, state, [], 0, h, fuel).history| > |h|
  {
    hide G.RevisedNodes;
    var replied := h + Taken(step, step.captures) + [AgentAsked(step)];
    var reply := w.replans(h + Taken(step, step.captures), ExecutionState(state.completedSteps, |state.completedSteps|));
    if reply.Revise? && fuel > 0 {
      S.RevisedNodesGrow(cfg, w, step, reply.plan.steps, state, [], 0, replied, fuel - 1);
    }
  }

  /** Without a handler the graph approves what the prompt would have asked about, so an approval is
      alike exactly when it is automatic. */
  lemma HandlerlessApprovalAlikeIffAutomatic(cfg: Setting, w: World, step: Step, plan: Plan, current: nat, h: History,
                                             completed: seq<StepResult>, state: G.GraphState, fuel: nat)
    requires step.HumanApproval? && state.plan == plan && !cfg.hasHandler
    ensures Alike(step, L.RunStep(cfg, w, step, plan, current, h, completed, fuel), G.Node(cfg, w, step, state, [], 0, h, fuel))
            <==> AutoApproves(cfg, plan)
  {
    if !AutoApproves(cfg, plan) {
      var run := L.RunStep(cfg, w, step, plan, current, h, completed, fuel);
      var node := G.Node(cfg, w, step, state, [], 0, h, fuel);
      assert node.history[|h|] == Decided(step, false, "approved");
      if run.history != h {
        assert run.history[|h|].byHuman;
      }
    }
  }
}
