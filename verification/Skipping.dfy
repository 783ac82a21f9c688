/** A skipped approval stops a plan, but not a revised plan: what runs behind an approval at either place
    (src/framework/engine.ts, graph-nodes.ts). */
module Skipping {
  import opened Plans
  import opened Safety
  import opened Coordinator
  import opened Runs
  import opened GateExactness
  import L = LegacyEngine
  import G = GraphEngine
  import S = Sequencing

  /** The command of the action was sent after the first history. */
  ghost predicate SentAfter(h: History, later: History, action: Step) {
    exists k :: |h| <= k < |later| && later[k].CommandRun? && later[k].issuer == action
  }

  lemma SentNext(h: History, middle: History, later: History, action: Step, ok: bool)
    requires action.SystemAction? && h <= middle && middle + [CommandRun(action, action.command, ok)] <= later
    ensures SentAfter(h, later, action)
  {
    assert later[|middle|] == (middle + [CommandRun(action, action.command, ok)])[|middle|];
  }

  /** Somebody answers the prompt, and approves or skips. */
  ghost predicate Approves(w: World, h: History, step: Step) {
    w.answers(h, step).Some? && SaysApprove(w.answers(h, step).value)
  }

  ghost predicate Skips(w: World, h: History, step: Step) {
    w.answers(h, step).Some? && SaysSkip(w.answers(h, step).value)
  }

  lemma ApprovalOutcome(cfg: Setting, w: World, plan: Plan, step: Step, h: History)
    ensures var end := L.ApprovalRun(cfg, w, step, plan, h).end;
      && (end == L.Returned(Success) <==> AutoApproves(cfg, plan) || Approves(w, h, step))
      && (end == L.Returned(Skipped) <==> !AutoApproves(cfg, plan) && Skips(w, h, step))
      && (end == L.Returned(Success) || end == L.Returned(Skipped) || end == L.Returned(Failed))
  {
    hide AutoApproves, ParseAnswer, SaysApprove, SaysSkip;
    if w.answers(h, step).Some? {
      AnswerIff(w.answers(h, step).value);
    }
  }

  /** Behind an approval of a revised plan the action is carried out unless the approval is rejected or
      nobody answers: approval and skip come to the same. */
  lemma RevisedActionRunsIff(cfg: Setting, w: World, plan: Plan, i: nat, current: nat, h: History, completed: seq<StepResult>, fuel: nat)
    requires i + 1 < |plan.steps| && plan.steps[i].HumanApproval?
    requires plan.steps[i + 1].SystemAction? && Unhindered(cfg, plan.steps[i + 1])
    ensures SentAfter(h, L.RunRevised(cfg, w, plan, i, current, h, completed, fuel).history, plan.steps[i + 1]) <==>
      AutoApproves(cfg, plan) || Approves(w, h, plan.steps[i]) || Skips(w, h, plan.steps[i])
  {
    hide AutoApproves, Unhindered, L.ActionRun;
    var approval, action := plan.steps[i], plan.steps[i + 1];
    var run := L.RunStep(cfg, w, approval, plan, current, h, completed, fuel);
    ApprovalOutcome(cfg, w, plan, approval, h);
    if run.end != L.Returned(Failed) {
      var done := run.completed + [StepResult(approval, run.end.status)];
      RevisedGoesOn(cfg, w, plan, i + 1, current, run.history, done, fuel);
      UnhinderedActionRuns(cfg, w, action, run.history);
      SentNext(h, run.history, L.RunRevised(cfg, w, plan, i, current, h, completed, fuel).history, action, w.runs(run.history, action.command));
    }
  }

  /** A revised plan goes on from what its next action leaves. */
  lemma RevisedGoesOn(cfg: Setting, w: World, plan: Plan, i: nat, current: nat, h: History, completed: seq<StepResult>, fuel: nat)
    requires i < |plan.steps| && plan.steps[i].SystemAction?
    ensures L.ActionRun(cfg, w, plan.steps[i], h).history <= L.RunRevised(cfg, w, plan, i, current, h, completed, fuel).history
  {
    hide L.ActionRun;
    var run := L.RunStep(cfg, w, plan.steps[i], plan, current, h, completed, fuel);
    if run.end.Returned? {
      RevisedExtends(cfg, w, plan, i + 1, current, run.history, run.completed + [StepResult(plan.steps[i], run.end.status)], fuel);
    }
  }

  lemma RevisedExtends(cfg: Setting, w: World, plan: Plan, i: nat, current: nat, h: History, completed: seq<StepResult>, fuel: nat)
    requires i <= |plan.steps|
    ensures h <= L.RunRevised(cfg, w, plan, i, current, h, completed, fuel).history
  {
    hide L.RunRevised;
    S.LegacyRevisedGrows(cfg, w, ReplanningCheckpoint("", false, []), plan, i, current, h, completed, fuel);
  }

  /** Behind an approval of the plan itself it is carried out exactly when that was approved. */
  lemma TopActionRunsIff(cfg: Setting, w: World, plan: Plan, i: nat, h: History, completed: seq<StepResult>, fuel: nat)
    requires i + 1 < |plan.steps| && plan.steps[i].HumanApproval?
    requires plan.steps[i + 1].SystemAction? && Unhindered(cfg, plan.steps[i + 1])
    ensures SentAfter(h, L.RunFrom(cfg, w, plan, i, h, completed, fuel).history, plan.steps[i + 1]) <==>
      AutoApproves(cfg, plan) || Approves(w, h, plan.steps[i])
  {
    hide AutoApproves, Unhindered, L.ActionRun;
    var approval, action := plan.steps[i], plan.steps[i + 1];
    var run := L.RunStep(cfg, w, approval, plan, i, h, completed, fuel);
    ApprovalOutcome(cfg, w, plan, approval, h);
    if run.end == L.Returned(Success) {
      var later := run.history + [StepDone(i, approval, Success)];
      RunFromExtends(cfg, w, plan, i + 1, later, run.completed + [StepResult(approval, Success)], fuel);
      UnhinderedActionRuns(cfg, w, action, later);
      SentNext(h, later, L.RunFrom(cfg, w, plan, i, h, completed, fuel).history, action, w.runs(later, action.command));
    }
  }

  // ---- the graph ----

  lemma UnhinderedNodeRuns(cfg: Setting, w: World, action: Step, used: nat, h: History)
    requires action.SystemAction? && Unhindered(cfg, action)
    ensures h + [CommandRun(action, action.command, w.runs(h, action.command))] <= G.SystemActionNode(cfg, w, action, used, h).history
  {
    hide BlastRadiusValid, ProvidersResolved;
    UnhinderedIsAdmitted(cfg, action);
    assert h + Taken(action, action.before) == h;
  }

  /** In the graph the same holds of revised steps: only "rejected" keeps the action from being carried
      out once a decision is there, and without a handler nothing does. */
  lemma RevisedNodeRunsIff(cfg: Setting, w: World, step: Step, steps: seq<Step>, state: G.GraphState, answers: seq<string>,
                           used: nat, h: History, fuel: nat)
    requires step.ReplanningCheckpoint? && used <= |answers|
    requires |steps| >= 2 && steps[0].HumanApproval? && steps[1].SystemAction? && Unhindered(cfg, steps[1])
    ensures SentAfter(h, G.RevisedNodes(cfg, w, step, steps, state, answers, used, h, fuel).history, steps[1]) <==>
      AutoApproves(cfg, state.plan) || !cfg.hasHandler || (used < |answers| && answers[used] != "rejected")
  {
    hide AutoApproves, Unhindered, G.SystemActionNode;
    var run := G.Node(cfg, w, steps[0], state, answers, used, h, fuel);
    if run.end.Yields? && run.end.update.completedSteps[0].status != Failed {
      assert steps[1..][0] == steps[1];
      RevisedNodesGoOn(cfg, w, step, steps[1..], state, answers, run.used, run.history, fuel);
      UnhinderedNodeRuns(cfg, w, steps[1], run.used, run.history);
      SentNext(h, run.history, G.RevisedNodes(cfg, w, step, steps, state, answers, used, h, fuel).history, steps[1],
               w.runs(run.history, steps[1].command));
    }
  }

  lemma RevisedNodesGoOn(cfg: Setting, w: World, step: Step, steps: seq<Step>, state: G.GraphState, answers: seq<string>,
                         used: nat, h: History, fuel: nat)
    requires step.ReplanningCheckpoint? && used <= |answers| && steps != [] && steps[0].SystemAction?
    ensures G.SystemActionNode(cfg, w, steps[0], used, h).history <= G.RevisedNodes(cfg, w, step, steps, state, answers, used, h, fuel).history
  {
    hide G.SystemActionNode;
    var run := G.Node(cfg, w, steps[0], state, answers, used, h, fuel);
    S.RevisedNodesGrow(cfg, w, step, steps[1..], state, answers, run.used, run.history, fuel);
  }
}
