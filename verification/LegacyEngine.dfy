/** The sequential engine (src/framework/engine.ts): first as a function of the history, then as the
    class that updates its execution state in place. */
module LegacyEngine {
  import opened Plans
  import opened Safety
  import opened Coordinator
  import opened Runs

  /** How a step ends. `Threw` is a rejection that no `try` in the engine catches; `Starved` means the
      bound on nested replanning ran out. */
  datatype End = Returned(status: Status) | Threw | Starved

  datatype Run = Run(history: History, end: End)

  datatype StepRun = StepRun(history: History, completed: seq<StepResult>, end: End)

  ghost function ActionRun(cfg: Setting, w: World, step: Step, h: History): Run
    requires step.SystemAction?
  {
    if !BlastRadiusValid(step, cfg.manifest, cfg.context) then Run(h, Returned(Failed))
    else if cfg.mode == Execute && !ProvidersResolved(cfg, step) then Run(h, Returned(Failed))
    else if RequiredCaptureFailed(step.before) then Run(h + Taken(step, step.before), Returned(Failed))
    else
      var pre := AskAll(w, step, step.preConditions, h + Taken(step, step.before));
      if pre.reply == Raises then Run(pre.history, Threw)
      else if pre.reply == Fails then Run(pre.history, Returned(Failed))
      else if cfg.mode != Execute then Run(pre.history + Moves(step), Returned(Success))
      else
        var ok := w.runs(pre.history, step.command);
        var ran := pre.history + [CommandRun(step, step.command, ok)];
        if !ok then Run(ran, Returned(Failed))
        else
          var judged := Ask(w, step, step.successCheck, ran + Moves(step));
          if judged.reply == Raises then Run(judged.history, Threw)
          else Run(judged.history + Taken(step, step.after), Returned(if judged.reply == Holds then Success else Failed))
  }

  /** A prompt that throws is caught by `executeStep`, so the step fails. */
  ghost function ApprovalRun(cfg: Setting, w: World, step: Step, plan: Plan, h: History): Run {
    if AutoApproves(cfg, plan) then Run(h + [Decided(step, false, "approved")], Returned(Success))
    else
      var answer := w.answers(h, step);
      if answer.None? then Run(h, Returned(Failed))
      else
        var decision := ParseAnswer(answer.value);
        Run(h + [Decided(step, true, DecisionText(decision))],
            Returned(match decision case Approved => Success case Skip => Skipped case Rejected => Failed))
  }

  /** Only system actions and notifications run inside a branch; anything else reports success. */
  ghost function BranchRun(cfg: Setting, w: World, step: Step, h: History): Run {
    if step.SystemAction? then ActionRun(cfg, w, step, h) else Run(h, Returned(Success))
  }

  ghost function ConditionalRun(cfg: Setting, w: World, step: Step, h: History): Run
    requires step.Conditional?
  {
    var asked := Ask(w, step, step.condition, h);
    if asked.reply == Raises then Run(asked.history, Threw)
    else if asked.reply == Holds then BranchRun(cfg, w, step.thenStep, asked.history)
    else if step.elseStep.None? then Run(asked.history, Returned(Skipped))
    else BranchRun(cfg, w, step.elseStep.value, asked.history)
  }

  ghost function RunStep(cfg: Setting, w: World, step: Step, plan: Plan, current: nat,
                         h: History, completed: seq<StepResult>, fuel: nat): StepRun
    decreases fuel, 0, 0
  {
    match step
    case DiagnosisAction(_, _, _, command, _) =>
      var ok := w.runs(h, command);
      StepRun(h + [CommandRun(step, command, ok)], completed, if ok then Returned(Success) else Threw)
    case HumanNotification(_) => StepRun(h, completed, Returned(Success))
    case Checkpoint(_, captures) =>
      StepRun(h + Taken(step, captures), completed, Returned(if RequiredCaptureFailed(captures) then Failed else Success))
    case SystemAction(_, _, _, _, _, _, _, _, _, _, _, _, _) =>
      var run := ActionRun(cfg, w, step, h);
      StepRun(run.history, completed, run.end)
    case HumanApproval(_, _) =>
      var run := ApprovalRun(cfg, w, step, plan, h);
      StepRun(run.history, completed, run.end)
    case Conditional(_, _, _, _) =>
      var run := ConditionalRun(cfg, w, step, h);
      StepRun(run.history, completed, run.end)
    case ReplanningCheckpoint(_, _, captures) =>
      var asked := h + Taken(step, captures);
      var reply := w.replans(asked, ExecutionState(completed, current));
      var replied := asked + [AgentAsked(step)];
      if reply.Abort? || reply.ReplanRaises? then StepRun(replied, completed, Returned(Failed))
      else if reply.Continue? then StepRun(replied, completed, Returned(Success))
      else if fuel == 0 then StepRun(replied, completed, Starved)
      else
        var run := RunRevised(cfg, w, reply.plan, 0, current, replied, completed, fuel - 1);
        // `executeStep` awaits a replanning checkpoint inside its `try`, so what a revised step throws is caught here.
        StepRun(run.history, run.completed, if run.end.Threw? then Returned(Failed) else run.end)
  }

  /** The loop over a revised plan: it stops at a failure, but not at a skipped approval. */
  ghost function RunRevised(cfg: Setting, w: World, plan: Plan, i: nat, current: nat,
                            h: History, completed: seq<StepResult>, fuel: nat): StepRun
    requires i <= |plan.steps|
    decreases fuel, 1, |plan.steps| - i
  {
    if i == |plan.steps| then StepRun(h, completed, Returned(Success))
    else
      var run := RunStep(cfg, w, plan.steps[i], plan, current, h, completed, fuel);
      if !run.end.Returned? then run
      else
        var done := run.completed + [StepResult(plan.steps[i], run.end.status)];
        if run.end.status == Failed then StepRun(run.history, done, Returned(Failed))
        else RunRevised(cfg, w, plan, i + 1, current, run.history, done, fuel)
  }

  datatype Ending = Finished | Rejection | Starvation

  datatype PlanRun = PlanRun(history: History, completed: seq<StepResult>, results: seq<StepResult>, ending: Ending)

  /** The step loop of `executePlan` from step `i` on. */
  ghost function RunFrom(cfg: Setting, w: World, plan: Plan, i: nat, h: History, completed: seq<StepResult>, fuel: nat): PlanRun
    requires i <= |plan.steps|
    decreases |plan.steps| - i
  {
    if i == |plan.steps| then PlanRun(h, completed, [], Finished)
    else
      var step := plan.steps[i];
      var run := RunStep(cfg, w, step, plan, i, h, completed, fuel);
      match run.end
      case Threw => PlanRun(run.history, run.completed, [], Rejection)
      case Starved => PlanRun(run.history, run.completed, [], Starvation)
      case Returned(status) =>
        var result := StepResult(step, status);
        var h' := run.history + [StepDone(i, step, status)];
        if Halts(step, status) then PlanRun(h', run.completed + [result], [result], Finished)
        else
          var rest := RunFrom(cfg, w, plan, i + 1, h', run.completed + [result], fuel);
          rest.(results := [result] + rest.results)
  }

  /** `executePlan` on a fresh engine. */
  ghost function RunPlan(cfg: Setting, w: World, plan: Plan, fuel: nat): PlanRun {
    RunFrom(cfg, w, plan, 0, [], [], fuel)
  }

  class LegacyExecutionEngine {
    const cfg: Setting
    const w: World
    var history: History
    var completed: seq<StepResult>
    var current: nat

    constructor (cfg: Setting, w: World)
      ensures this.cfg == cfg && this.w == w && history == [] && completed == [] && current == 0
    {
      this.cfg, this.w := cfg, w;
      history, completed, current := [], [], 0;
    }

    method TakeCaptures(step: Step, captures: seq<Capture>) returns (requiredFailed: bool)
      modifies this`history
      ensures history == old(history) + Taken(step, captures)
      ensures requiredFailed == RequiredCaptureFailed(captures)
    {
      requiredFailed := false;
      for i := 0 to |captures|
        invariant history == old(history) + Taken(step, captures[..i])
        invariant requiredFailed == RequiredCaptureFailed(captures[..i])
      {
        var status := ExecuteCapture(captures[i]);
        history := history + [CaptureTaken(step, captures[i], status)];
        requiredFailed := requiredFailed || (captures[i].policy == Required && status == CaptureFailed);
        assert captures[..i + 1] == captures[..i] + [captures[i]];
        assert Taken(step, captures[..i + 1]) == Taken(step, captures[..i]) + [CaptureTaken(step, captures[i], status)];
      }
      assert captures[..|captures|] == captures;
    }

    method EvaluateCheck(step: Step, check: Check) returns (reply: CheckReply)
      modifies this`history
      ensures Asked(history, reply) == Ask(w, step, check, old(history))
    {
      if IsNoOpCheck(check) {
        return Holds;
      }
      reply := w.checks(history, check);
      history := history + [CheckAsked(step, check, reply)];
    }

    method CheckPreconditions(step: Step, checks: seq<Check>) returns (reply: CheckReply)
      modifies this`history
      ensures Asked(history, reply) == AskAll(w, step, checks, old(history))
    {
      for i := 0 to |checks|
        invariant AskAll(w, step, checks[i..], history) == AskAll(w, step, checks, old(history))
      {
        reply := EvaluateCheck(step, checks[i]);
        assert checks[i..][1..] == checks[i + 1..];
        if reply != Holds {
          return;
        }
      }
      reply := Holds;
    }

    method ExecuteSystemAction(step: Step) returns (end: End)
      requires step.SystemAction?
      modifies this`history
      ensures Run(history, end) == ActionRun(cfg, w, step, old(history))
    {
      var valid := ValidateBlastRadius(step, cfg.manifest, cfg.context);
      if !valid {
        return Returned(Failed);
      }
      if cfg.mode == Execute && !ProvidersResolved(cfg, step) {
        return Returned(Failed);
      }
      var requiredFailed := TakeCaptures(step, step.before);
      if requiredFailed {
        return Returned(Failed);
      }
      var reply := CheckPreconditions(step, step.preConditions);
      if reply == Raises {
        return Threw;
      }
      if reply == Fails {
        return Returned(Failed);
      }
      if cfg.mode != Execute {
        history := history + Moves(step);
        return Returned(Success);
      }
      var ok := w.runs(history, step.command);
      history := history + [CommandRun(step, step.command, ok)];
      if !ok {
        return Returned(Failed);
      }
      history := history + Moves(step);
      reply := EvaluateCheck(step, step.successCheck);
      if reply == Raises {
        return Threw;
      }
      var _ := TakeCaptures(step, step.after);
      end := Returned(if reply == Holds then Success else Failed);
    }

    method ExecuteApproval(step: Step, plan: Plan) returns (end: End)
      modifies this`history
      ensures Run(history, end) == ApprovalRun(cfg, w, step, plan, old(history))
    {
      if AutoApproves(cfg, plan) {
        history := history + [Decided(step, false, "approved")];
        return Returned(Success);
      }
      var answer := w.answers(history, step);
      if answer.None? {
        return Returned(Failed);
      }
      var decision := ParseAnswer(answer.value);
      history := history + [Decided(step, true, DecisionText(decision))];
      end := Returned(match decision case Approved => Success case Skip => Skipped case Rejected => Failed);
    }

    method ExecuteBranchStep(step: Step) returns (end: End)
      modifies this`history
      ensures Run(history, end) == BranchRun(cfg, w, step, old(history))
    {
      if step.SystemAction? {
        end := ExecuteSystemAction(step);
      } else {
        end := Returned(Success);
      }
    }

    method ExecuteConditional(step: Step) returns (end: End)
      requires step.Conditional?
      modifies this`history
      ensures Run(history, end) == ConditionalRun(cfg, w, step, old(history))
    {
      var reply := EvaluateCheck(step, step.condition);
      if reply == Raises {
        end := Threw;
      } else if reply == Holds {
        end := ExecuteBranchStep(step.thenStep);
      } else if step.elseStep.None? {
        end := Returned(Skipped);
      } else {
        end := ExecuteBranchStep(step.elseStep.value);
      }
    }

    method ExecuteStep(step: Step, plan: Plan, fuel: nat) returns (end: End)
      modifies this`history, this`completed
      ensures StepRun(history, completed, end) == RunStep(cfg, w, step, plan, current, old(history), old(completed), fuel)
      decreases fuel, 0
    {
      hide ActionRun, ApprovalRun, ConditionalRun, RunRevised;
      match step
      case DiagnosisAction(_, _, _, command, _) =>
        var ok := w.runs(history, command);
        history := history + [CommandRun(step, command, ok)];
        end := if ok then Returned(Success) else Threw;
      case HumanNotification(_) =>
        end := Returned(Success);
      case Checkpoint(_, captures) =>
        var requiredFailed := TakeCaptures(step, captures);
        end := Returned(if requiredFailed then Failed else Success);
      case SystemAction(_, _, _, _, _, _, _, _, _, _, _, _, _) =>
        end := ExecuteSystemAction(step);
      case HumanApproval(_, _) =>
        end := ExecuteApproval(step, plan);
      case Conditional(_, _, _, _) =>
        end := ExecuteConditional(step);
      case ReplanningCheckpoint(_, _, captures) =>
        var _ := TakeCaptures(step, captures);
        var reply := w.replans(history, ExecutionState(completed, current));
        history := history + [AgentAsked(step)];
        if reply.Abort? || reply.ReplanRaises? {
          end := Returned(Failed);
        } else if reply.Continue? {
          end := Returned(Success);
        } else if fuel == 0 {
          end := Starved;
        } else {
          end := ExecuteRevisedPlan(reply.plan, fuel - 1);
          if end.Threw? {
            end := Returned(Failed);
          }
        }
    }

    method ExecuteRevisedPlan(plan: Plan, fuel: nat) returns (end: End)
      modifies this`history, this`completed
      ensures StepRun(history, completed, end) == RunRevised(cfg, w, plan, 0, current, old(history), old(completed), fuel)
      decreases fuel, 1
    {
      hide RunStep;
      for i := 0 to |plan.steps|
        invariant RunRevised(cfg, w, plan, i, current, history, completed, fuel)
               == RunRevised(cfg, w, plan, 0, current, old(history), old(completed), fuel)
      {
        end := ExecuteStep(plan.steps[i], plan, fuel);
        if !end.Returned? {
          return;
        }
        completed := completed + [StepResult(plan.steps[i], end.status)];
        if end.status == Failed {
          return;
        }
      }
      end := Returned(Success);
    }

    /** The whole run. A rejected run has no results for its caller; the ones gathered so far are
        returned beside the ending. */
    method ExecutePlan(plan: Plan, fuel: nat) returns (results: seq<StepResult>, ending: Ending)
      modifies this
      ensures PlanRun(history, completed, results, ending) == RunFrom(cfg, w, plan, 0, old(history), old(completed), fuel)
    {
      hide RunStep;
      results := [];
      var i := 0;
      while i < |plan.steps|
        invariant i <= |plan.steps|
        invariant var rest := RunFrom(cfg, w, plan, i, history, completed, fuel);
          rest.(results := results + rest.results) == RunFrom(cfg, w, plan, 0, old(history), old(completed), fuel)
      {
        current := i;
        var step := plan.steps[i];
        var end := ExecuteStep(step, plan, fuel);
        if end.Threw? {
          return results, Rejection;
        }
        if end.Starved? {
          return results, Starvation;
        }
        var result := StepResult(step, end.status);
        results := results + [result];
        history := history + [StepDone(i, step, end.status)];
        completed := completed + [result];
        if Halts(step, end.status) {
          return results, Finished;
        }
        i := i + 1;
      }
      ending := Finished;
    }
  }
}
