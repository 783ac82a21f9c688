/** What the agent's reply at a replanning checkpoint comes to in a run (src/framework/engine.ts,
    src/framework/graph-nodes.ts). */
module Replanning {
  import opened Plans
  import opened Runs
  import L = LegacyEngine
  import G = GraphEngine

  /** The history in which the agent replies. */
  function Consulted(step: Step, h: History): History
    requires step.ReplanningCheckpoint?
  {
    h + Taken(step, step.captures) + [AgentAsked(step)]
  }

  /** In the sequential engine an abort and a reply that throws end the run at the checkpoint, which has
      failed; "continue" passes it and the next step follows. */
  lemma ReplyDecidesTheRun(cfg: Setting, w: World, plan: Plan, i: nat, h: History, completed: seq<StepResult>, fuel: nat)
    requires i < |plan.steps| && plan.steps[i].ReplanningCheckpoint?
    ensures var step := plan.steps[i];
      var reply := w.replans(h + Taken(step, step.captures), ExecutionState(completed, i));
      var run := L.RunFrom(cfg, w, plan, i, h, completed, fuel);
      && (reply == Abort || reply == ReplanRaises ==>
            run.ending == L.Finished && run.results == [StepResult(step, Failed)]
            && run.history == Consulted(step, h) + [StepDone(i, step, Failed)])
      && (reply == Continue ==>
            var passed := StepResult(step, Success);
            var rest := L.RunFrom(cfg, w, plan, i + 1, Consulted(step, h) + [StepDone(i, step, Success)], completed + [passed], fuel);
            run.results == [passed] + rest.results && run.history == rest.history && run.ending == rest.ending)
  {
  }

  /** In the graph an abort ends it with the outcome "aborted", a reply that throws is an exception, and
      "continue" goes on to the next node. */
  lemma ReplyDecidesTheGraph(cfg: Setting, w: World, plan: Plan, i: nat, c: G.Config, fuel: nat)
    requires c.state.plan == plan && i < |plan.steps| && plan.steps[i].ReplanningCheckpoint? && c.position == G.At(i)
    requires |c.state.completedSteps| == i
    ensures var step := plan.steps[i];
      var reply := w.replans(c.history + Taken(step, step.captures), ExecutionState(c.state.completedSteps, i));
      var next := G.Advance(cfg, w, fuel, c);
      && (reply == Abort ==>
            && next.position == G.AtEnd && next.state.executionOutcome == G.OutcomeAborted
            && next.state.completedSteps == c.state.completedSteps + [StepResult(step, Failed)])
      && (reply == ReplanRaises ==> next.position == G.Crashed && next.state == c.state)
      && (reply == Continue ==>
            && next.position == (if i + 1 < |plan.steps| then G.At(i + 1) else G.AtEnd)
            && next.state.completedSteps == c.state.completedSteps + [StepResult(step, Success)]
            && next.state.executionOutcome == c.state.executionOutcome)
  {
  }

  // ---- what the agent is shown, and what a revised plan adds to it ----

  /** A step of any other kind adds nothing to what the agent will be shown; the loop adds its result. */
  lemma OnlyRevisionsAddResults(cfg: Setting, w: World, step: Step, plan: Plan, current: nat, h: History,
                                completed: seq<StepResult>, fuel: nat)
    requires !step.ReplanningCheckpoint?
    ensures L.RunStep(cfg, w, step, plan, current, h, completed, fuel).completed == completed
  {
    hide L.ActionRun, L.ApprovalRun, L.ConditionalRun;
  }

  /** The results of the first steps of a revised plan, in order, only the last of which may be a failure. */
  ghost predicate ResultsOf(steps: seq<Step>, results: seq<StepResult>) {
    && |results| <= |steps|
    && (forall k :: 0 <= k < |results| ==> results[k].step == steps[k])
    && forall k :: 0 <= k < |results| - 1 ==> results[k].status != Failed
  }

  ghost predicate NoCheckpoint(steps: seq<Step>) {
    forall k :: 0 <= k < |steps| ==> !steps[k].ReplanningCheckpoint?
  }

  /** A revised plan without checkpoints of its own adds the results of its steps: all of them when it ends in
      success, and those up to the failure when it ends in one. */
  lemma {:induction false} RevisedPlanRecordsItsSteps(cfg: Setting, w: World, plan: Plan, i: nat, current: nat, h: History,
                                                      completed: seq<StepResult>, fuel: nat) returns (added: seq<StepResult>)
    requires i <= |plan.steps| && NoCheckpoint(plan.steps)
    ensures var run := L.RunRevised(cfg, w, plan, i, current, h, completed, fuel);
      && run.completed == completed + added && ResultsOf(plan.steps[i..], added)
      && (run.end == L.Returned(Success) <==> |added| == |plan.steps| - i && forall k :: 0 <= k < |added| ==> added[k].status != Failed)
      && (run.end == L.Returned(Failed) <==> added != [] && added[|added| - 1].status == Failed)
    decreases |plan.steps| - i
  {
    hide L.RunStep;
    added := [];
    if i < |plan.steps| {
      var step := plan.steps[i];
      var run := L.RunStep(cfg, w, step, plan, current, h, completed, fuel);
      OnlyRevisionsAddResults(cfg, w, step, plan, current, h, completed, fuel);
      if run.end.Returned? {
        var result := StepResult(step, run.end.status);
        if run.end.status == Failed {
          added := [result];
          assert run.completed + [result] == completed + added;
        } else {
          var more := RevisedPlanRecordsItsSteps(cfg, w, plan, i + 1, current, run.history, run.completed + [result], fuel);
          added := [result] + more;
          assert completed + added == completed + [result] + more;
          assert plan.steps[i..][1..] == plan.steps[i + 1..];
          RevisedEnd(added, more, result);
        }
      } else {
        assert completed + [] == completed;
      }
    }
  }

  lemma RevisedEnd(added: seq<StepResult>, more: seq<StepResult>, result: StepResult)
    requires added == [result] + more && result.status != Failed
    ensures (forall k :: 0 <= k < |added| ==> added[k].status != Failed) <==> forall k :: 0 <= k < |more| ==> more[k].status != Failed
    ensures added[|added| - 1].status == Failed <==> more != [] && more[|more| - 1].status == Failed
  {
    if forall k :: 0 <= k < |added| ==> added[k].status != Failed {
      forall k | 0 <= k < |more|
        ensures more[k].status != Failed
      {
        assert added[k + 1] == more[k];
      }
    }
  }

  /** With a revised plan the checkpoint succeeds exactly when the revised plan does, and a step of it that
      throws is a failure of the checkpoint; the agent is next shown what the revised plan recorded. */
  lemma RevisionDecidesTheCheckpoint(cfg: Setting, w: World, step: Step, plan: Plan, revised: Plan, current: nat, h: History,
                                     completed: seq<StepResult>, fuel: nat)
    requires step.ReplanningCheckpoint? && fuel > 0
    requires w.replans(h + Taken(step, step.captures), ExecutionState(completed, current)) == Revise(revised)
    ensures var run := L.RunStep(cfg, w, step, plan, current, h, completed, fuel);
      var inner := L.RunRevised(cfg, w, revised, 0, current, Consulted(step, h), completed, fuel - 1);
      && run.history == inner.history && run.completed == inner.completed
      && (run.end == L.Returned(Success) <==> inner.end == L.Returned(Success))
      && (run.end == L.Returned(Failed) <==> inner.end == L.Returned(Failed) || inner.end == L.Threw)
      && run.end != L.Threw
  {
    hide L.RunRevised;
  }

  /** Over a run without replanning checkpoints the record kept for the agent is exactly the results. */
  lemma {:induction false} ShownAreTheResults(cfg: Setting, w: World, plan: Plan, i: nat, h: History, completed: seq<StepResult>, fuel: nat)
    requires i <= |plan.steps| && NoCheckpoint(plan.steps)
    ensures var run := L.RunFrom(cfg, w, plan, i, h, completed, fuel); run.completed == completed + run.results
    decreases |plan.steps| - i
  {
    hide L.RunStep;
    if i < |plan.steps| {
      var step := plan.steps[i];
      var run := L.RunStep(cfg, w, step, plan, i, h, completed, fuel);
      OnlyRevisionsAddResults(cfg, w, step, plan, i, h, completed, fuel);
      if run.end.Returned? && !Halts(step, run.end.status) {
        var result := StepResult(step, run.end.status);
        ShownAreTheResults(cfg, w, plan, i + 1, run.history + [StepDone(i, step, run.end.status)], run.completed + [result], fuel);
        var rest := L.RunFrom(cfg, w, plan, i + 1, run.history + [StepDone(i, step, run.end.status)], run.completed + [result], fuel);
        assert completed + [result] + rest.results == completed + ([result] + rest.results);
      }
    }
  }

  /** In the graph the checkpoint's own result is all that is left of a revised plan: success, or a failure
      with the outcome "failed". */
  lemma RevisionDecidesTheNode(cfg: Setting, w: World, step: Step, steps: seq<Step>, state: G.GraphState, answers: seq<string>,
                               used: nat, h: History, fuel: nat)
    requires used <= |answers| && step.ReplanningCheckpoint?
    ensures var end := G.RevisedNodes(cfg, w, step, steps, state, answers, used, h, fuel).end;
      end.Yields? ==>
        || end.update == G.Update([StepResult(step, Success)], None, None, None)
        || end.update == G.Update([StepResult(step, Failed)], Some(G.OutcomeFailed), None, None)
    decreases |steps|
  {
    hide G.Node;
  }
}
