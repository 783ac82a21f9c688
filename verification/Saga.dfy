/** Run, fail, roll back: when the system is where it was before the run. */
module Saga {
  import opened Plans
  import opened Lists
  import opened Runs
  import opened Rollback
  import L = LegacyEngine
  import G = GraphEngine
  import R = Refinement
  import S = Sequencing

  lemma {:induction false} ForwardAppend<T>(sys: System<T>, s: T, a: seq<StepResult>, b: seq<StepResult>)
    ensures Forward(sys, s, a + b) == Forward(sys, Forward(sys, s, a), b)
  {
    if b == [] {
      assert a + b == a;
    } else {
      assert (a + b)[..|a + b| - 1] == a + b[..|b| - 1];
      ForwardAppend(sys, s, a, b[..|b| - 1]);
    }
  }

  /** The plans and systems stepwise rollback is meant for. */
  ghost predicate Suited<T(!new)>(sys: System<T>, cfg: Setting, plan: Plan) {
    && cfg.mode == Execute
    && forall i :: 0 <= i < |plan.steps| ==> TopLevelOnly(plan.steps[i]) && DiagnosisHarmless(sys, plan.steps[i])
  }

  /** The state a run leaves, in terms of its results; for a run that ends in a failed mutation, the
      state before that step. */
  ghost predicate StateExplained<T>(sys: System<T>, s: T, start: T, run: L.PlanRun) {
    if EndsInFailedMutation(run.results) then
      run.history != [] &&
      StateAfter(sys, s, BeforeLastStep(run.history)) == Forward(sys, start, run.results[..|run.results| - 1])
    else StateAfter(sys, s, run.history) == Forward(sys, start, run.results)
  }

  lemma StepState<T(!new)>(sys: System<T>, s: T, cfg: Setting, w: World, plan: Plan, i: nat, h: History, completed: seq<StepResult>, fuel: nat)
    requires Suited(sys, cfg, plan) && i < |plan.steps|
    ensures var run := L.RunStep(cfg, w, plan.steps[i], plan, i, h, completed, fuel);
      run.end.Returned? && !(plan.steps[i].SystemAction? && run.end.status != Success) ==>
        StateAfter(sys, s, run.history) == Forward(sys, StateAfter(sys, s, h), [StepResult(plan.steps[i], run.end.status)])
  {
    hide L.ActionRun, StateAfter, Effect;
    var step := plan.steps[i];
    var run := L.RunStep(cfg, w, step, plan, i, h, completed, fuel);
    if run.end.Returned? {
      var one := [StepResult(step, run.end.status)];
      assert one[..0] == [];
      if step.SystemAction? {
        if run.end.status == Success {
          SuccessHasEffect(sys, s, cfg, w, step, h);
        }
      } else {
        OtherStepsKeepState(sys, s, cfg, w, step, plan, i, h, completed, fuel);
      }
    }
  }

  lemma ActionsReturnOrFail(cfg: Setting, w: World, step: Step, plan: Plan, i: nat, h: History, completed: seq<StepResult>, fuel: nat)
    requires step.SystemAction?
    ensures var end := L.RunStep(cfg, w, step, plan, i, h, completed, fuel).end; end.Returned? ==> end.status in {Success, Failed}
  {
    hide Safety.BlastRadiusValid, ProvidersResolved, Safety.RequiredCaptureFailed, AskAll, Ask;
  }

  lemma {:induction false} RunState<T(!new)>(sys: System<T>, s: T, cfg: Setting, w: World, plan: Plan, i: nat, h: History,
                                             completed: seq<StepResult>, fuel: nat)
    requires Suited(sys, cfg, plan) && i <= |plan.steps|
    requires h == [] || h[|h| - 1].StepDone?
    requires L.RunFrom(cfg, w, plan, i, h, completed, fuel).ending.Finished?
    ensures StateExplained(sys, s, StateAfter(sys, s, h), L.RunFrom(cfg, w, plan, i, h, completed, fuel))
    decreases |plan.steps| - i
  {
    hide L.RunStep, StateAfter, S.Grows;
    if i < |plan.steps| {
      var step := plan.steps[i];
      var run := L.RunStep(cfg, w, step, plan, i, h, completed, fuel);
      var result := StepResult(step, run.end.status);
      var done := StepDone(i, step, run.end.status);
      var later := run.history + [done];
      S.LegacyStepGrows(cfg, w, step, plan, i, h, completed, fuel);
      if step.SystemAction? && run.end.status != Success {
        ActionsReturnOrFail(cfg, w, step, plan, i, h, completed, fuel);
        FailedStepStartsAt(step, h, run.history, done);
        assert [result][..0] == [];
      } else {
        StepState(sys, s, cfg, w, plan, i, h, completed, fuel);
        ClosingKeepsState(sys, s, run.history, done);
        if !Halts(step, run.end.status) {
          RunState(sys, s, cfg, w, plan, i + 1, later, run.completed + [result], fuel);
          var rest := L.RunFrom(cfg, w, plan, i + 1, later, run.completed + [result], fuel);
          PrependResult(sys, s, StateAfter(sys, s, h), result, rest);
        }
      }
    }
  }

  lemma FailedStepStartsAt(step: Step, h: History, later: History, done: Event)
    requires h == [] || h[|h| - 1].StepDone?
    requires S.Grows(step, h, later)
    ensures BeforeLastStep(later + [done]) == h
  {
    assert (later + [done])[..|later + [done]| - 1] == later;
    NoDoneInside(h, later);
  }

  lemma ClosingKeepsState<T>(sys: System<T>, s: T, h: History, done: Event)
    requires done.StepDone?
    ensures StateAfter(sys, s, h + [done]) == StateAfter(sys, s, h)
  {
    InertKeepsState(sys, s, h, h + [done]);
  }

  lemma PrependResult<T>(sys: System<T>, s: T, start: T, result: StepResult, rest: L.PlanRun)
    requires StateExplained(sys, s, Forward(sys, start, [result]), rest)
    requires !(result.step.SystemAction? && result.status == Failed)
    ensures StateExplained(sys, s, start, rest.(results := [result] + rest.results))
  {
    var whole := [result] + rest.results;
    if rest.results == [] {
      assert whole == [result];
    } else {
      assert whole[|whole| - 1] == rest.results[|rest.results| - 1];
      assert whole[..|whole| - 1] == [result] + rest.results[..|rest.results| - 1];
      ForwardAppend(sys, start, [result], rest.results[..|rest.results| - 1]);
    }
    ForwardAppend(sys, start, [result], rest.results);
  }

  /** Every rollback command of an eligible result returns when it is sent. */
  ghost predicate RollbacksReturn(w: World, results: seq<StepResult>) {
    forall r, h :: r in results && HasCommand(r) ==> w.runs(h, RollbackCommand(r))
  }

  lemma {:induction false} ExtractedAreResults(results: seq<StepResult>, i: nat)
    requires i < |ExtractRollbackSteps(results)|
    ensures ExtractRollbackSteps(results)[i] in results
  {
    var kept := Filter(Eligible, results);
    FilterMembers(Eligible, results, kept[|kept| - 1 - i]);
  }

  /** The state after rolling a finished run back. */
  ghost function RolledBackState<T>(sys: System<T>, s: T, w: World, store: Store, run: L.PlanRun): T {
    ExtractedAreEligible(run.results);
    StateAfter(sys, s, UndoAll(w, store, ExtractRollbackSteps(run.results), run.history).history)
  }

  lemma RollbackIsBackward<T(!new)>(sys: System<T>, s: T, w: World, store: Store, run: L.PlanRun)
    requires SuccessesInvertible(sys, run.results) && RollbacksReturn(w, run.results)
    ensures forall i :: 0 <= i < |ExtractRollbackSteps(run.results)| ==> HasCommand(ExtractRollbackSteps(run.results)[i])
    ensures RolledBackState(sys, s, w, store, run) == Backward(sys, StateAfter(sys, s, run.history), ExtractRollbackSteps(run.results))
  {
    var steps := ExtractRollbackSteps(run.results);
    ExtractedHaveCommands(sys, run.results);
    ExtractedAreEligible(run.results);
    forall i, h | 0 <= i < |steps|
      ensures w.runs(h, RollbackCommand(steps[i]))
    {
      ExtractedAreResults(run.results, i);
      assert HasCommand(steps[i]);
    }
    UndoAllState(sys, s, w, store, steps, run.history);
  }

  lemma {:induction false} FailedTailIsNotUndone<T(!new)>(sys: System<T>, s: T, results: seq<StepResult>)
    requires EndsInFailedMutation(results)
    ensures ExtractRollbackSteps(results) == ExtractRollbackSteps(results[..|results| - 1])
  {
    assert results == results[..|results| - 1] + [results[|results| - 1]];
    ExtractLast(results[..|results| - 1], results[|results| - 1]);
  }

  ghost predicate BackInjective<T(!new)>(sys: System<T>, results: seq<StepResult>) {
    forall r, a, b :: r in results && HasCommand(r) && sys.act(a, RollbackCommand(r), true) == sys.act(b, RollbackCommand(r), true) ==> a == b
  }

  /** The state in which the last, failed step was entered. */
  ghost predicate FailedStepLeftNoTrace<T>(sys: System<T>, s: T, run: L.PlanRun) {
    EndsInFailedMutation(run.results) && run.history != [] ==>
      StateAfter(sys, s, BeforeLastStep(run.history)) == StateAfter(sys, s, run.history)
  }

  /** Rolling back a finished run restores the initial state, provided every action that succeeded has
      an inverting rollback command that returns and the failing step, if any, left no trace. */
  lemma SagaRestores<T(!new)>(sys: System<T>, s: T, cfg: Setting, w: World, store: Store, plan: Plan, fuel: nat)
    requires Suited(sys, cfg, plan)
    requires var run := L.RunPlan(cfg, w, plan, fuel);
      && run.ending.Finished? && SuccessesInvertible(sys, run.results) && RollbacksReturn(w, run.results)
      && FailedStepLeftNoTrace(sys, s, run)
    ensures RolledBackState(sys, s, w, store, L.RunPlan(cfg, w, plan, fuel)) == s
  {
    hide L.RunFrom, StateAfter, Backward, Forward, RolledBackState;
    var run := L.RunPlan(cfg, w, plan, fuel);
    RunState(sys, s, cfg, w, plan, 0, [], [], fuel);
    StateOfNothing(sys, s);
    RollbackIsBackward(sys, s, w, store, run);
    if EndsInFailedMutation(run.results) {
      var init := run.results[..|run.results| - 1];
      FailedTailIsNotUndone(sys, s, run.results);
      PrefixInvertible(sys, run.results);
      BackwardUndoesForward(sys, s, init);
    } else {
      BackwardUndoesForward(sys, s, run.results);
    }
  }

  lemma StateOfNothing<T>(sys: System<T>, s: T)
    ensures StateAfter(sys, s, []) == s
  {
  }

  lemma PrefixInvertible<T(!new)>(sys: System<T>, results: seq<StepResult>)
    requires results != [] && SuccessesInvertible(sys, results)
    ensures SuccessesInvertible(sys, results[..|results| - 1])
  {
    var init := results[..|results| - 1];
    forall i | 0 <= i < |init| && init[i].step.SystemAction? && init[i].status == Success
      ensures Invertible(sys, init[i].step)
    {
      assert init[i] == results[i];
    }
  }

  lemma {:induction false} BackwardInjective<T(!new)>(sys: System<T>, results: seq<StepResult>, steps: seq<StepResult>, a: T, b: T)
    requires BackInjective(sys, results)
    requires forall i :: 0 <= i < |steps| ==> HasCommand(steps[i]) && steps[i] in results
    requires Backward(sys, a, steps) == Backward(sys, b, steps)
    ensures a == b
  {
    if steps != [] {
      assert HasCommand(steps[0]);
      var command := RollbackCommand(steps[0]);
      BackwardInjective(sys, results, steps[1..], sys.act(a, command, true), sys.act(b, command, true));
    }
  }

  /** A step whose command ran but whose success check failed is not undone: with rollback commands
      that lose nothing, the initial state comes back exactly when the failing step left no trace. */
  lemma RestoredIffFailedStepLeftNoTrace<T(!new)>(sys: System<T>, s: T, cfg: Setting, w: World, store: Store, plan: Plan, fuel: nat)
    requires Suited(sys, cfg, plan)
    requires var run := L.RunPlan(cfg, w, plan, fuel);
      && run.ending.Finished? && SuccessesInvertible(sys, run.results) && RollbacksReturn(w, run.results)
      && BackInjective(sys, run.results)
    ensures RolledBackState(sys, s, w, store, L.RunPlan(cfg, w, plan, fuel)) == s
       <==> FailedStepLeftNoTrace(sys, s, L.RunPlan(cfg, w, plan, fuel))
  {
    hide L.RunFrom, StateAfter, Backward, Forward, RolledBackState, Suited, BackInjective, SuccessesInvertible, RollbacksReturn;
    var run := L.RunPlan(cfg, w, plan, fuel);
    if FailedStepLeftNoTrace(sys, s, run) {
      SagaRestores(sys, s, cfg, w, store, plan, fuel);
    }
    if EndsInFailedMutation(run.results) && RolledBackState(sys, s, w, store, run) == s {
      RunState(sys, s, cfg, w, plan, 0, [], [], fuel);
      StateOfNothing(sys, s);
      RollbackIsBackward(sys, s, w, store, run);
      FailedTailIsNotUndone(sys, s, run.results);
      PrefixInvertible(sys, run.results);
      BackwardUndoesForward(sys, s, run.results[..|run.results| - 1]);
      var steps := ExtractRollbackSteps(run.results);
      forall i | 0 <= i < |steps| ensures steps[i] in run.results {
        ExtractedAreResults(run.results, i);
      }
      BackwardInjective(sys, run.results, steps, StateAfter(sys, s, run.history), StateAfter(sys, s, BeforeLastStep(run.history)));
    }
  }

  /** Of any plan, conditionals and replanning included, and in either engine: rolling back the results of
      a run restores the initial state exactly when the run left the state its succeeded top-level actions
      alone would have left, that is, when branch actions, revised plans and failed steps have no net
      effect. */
  lemma RestoredIffOnlySuccessesShow<T(!new)>(sys: System<T>, s: T, w: World, store: Store, results: seq<StepResult>, h: History)
    requires SuccessesInvertible(sys, results) && RollbacksReturn(w, results) && BackInjective(sys, results)
    ensures AllEligible(ExtractRollbackSteps(results))
    ensures StateAfter(sys, s, UndoAll(w, store, ExtractRollbackSteps(results), h).history) == s
       <==> StateAfter(sys, s, h) == Forward(sys, s, results)
  {
    hide StateAfter, Backward, Forward, BackInjective, SuccessesInvertible, RollbacksReturn, UndoAll;
    var run := L.PlanRun(h, [], results, L.Finished);
    ExtractedAreEligible(results);
    RollbackIsBackward(sys, s, w, store, run);
    BackwardUndoesForward(sys, s, results);
    var steps := ExtractRollbackSteps(results);
    if Backward(sys, StateAfter(sys, s, h), steps) == s {
      forall i | 0 <= i < |steps|
        ensures steps[i] in results
      {
        ExtractedAreResults(results, i);
      }
      BackwardInjective(sys, results, steps, StateAfter(sys, s, h), Forward(sys, s, results));
    }
  }

  /** The same for the graph engine, on the plans and worlds where it agrees with the sequential one. */
  lemma GraphSagaRestores<T(!new)>(sys: System<T>, s: T, cfg: Setting, w: World, store: Store, plan: Plan, fuel: nat, c: G.Config)
    requires Suited(sys, cfg, plan) && R.SameHuman(cfg, w)
    requires !R.RejectedByDiagnosis(plan, 0, L.RunPlan(cfg, w, plan, fuel))
    requires G.Reachable(cfg, w, plan, fuel, c) && c.position.AtEnd?
    requires SuccessesInvertible(sys, c.state.completedSteps) && RollbacksReturn(w, c.state.completedSteps)
    requires EndsInFailedMutation(c.state.completedSteps) && c.history != [] ==>
      StateAfter(sys, s, BeforeLastStep(c.history)) == StateAfter(sys, s, c.history)
    ensures AllEligible(ExtractRollbackSteps(c.state.completedSteps))
    ensures StateAfter(sys, s, UndoAll(w, store, ExtractRollbackSteps(c.state.completedSteps), c.history).history) == s
  {
    hide L.RunFrom, StateAfter, G.Reachable;
    R.EnginesAgree(cfg, w, plan, fuel);
    var run := L.RunPlan(cfg, w, plan, fuel);
    assert R.Corresponds([], run, c);
    assert c.state.completedSteps == run.results;
    SagaRestores(sys, s, cfg, w, store, plan, fuel);
  }
}
