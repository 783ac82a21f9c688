/** No command of a system action runs unguarded, in either engine, at any depth of nesting. */
module GuardedMutation {
  import opened Plans
  import opened Safety
  import opened Runs
  import opened Checks
  import L = LegacyEngine
  import G = GraphEngine
  import R = Refinement

  /** What a history must show right before a system action's command: every before-capture in order,
      then every precondition that asks the backend, all of them holding. */
  function Prelude(step: Step): History
    requires step.SystemAction?
  {
    Taken(step, step.before) + Passed(step, step.preConditions)
  }

  ghost predicate EndsWith(h: History, tail: History) {
    |tail| <= |h| && h[|h| - |tail|..] == tail
  }

  ghost predicate AllRequiredTaken(step: Step)
    requires step.SystemAction?
  {
    forall i :: 0 <= i < |step.before| && step.before[i].policy == Required ==> ExecuteCapture(step.before[i]) == Captured
  }

  ghost predicate GuardedAt(cfg: Setting, h: History, k: nat)
    requires k < |h| && h[k].CommandRun?
  {
    var step := h[k].issuer;
    || (step.DiagnosisAction? && h[k].command == step.command)
    || (&& step.SystemAction?
        && h[k].command == step.command
        && cfg.mode == Execute
        && BlastRadiusValid(step, cfg.manifest, cfg.context)
        && ProvidersResolved(cfg, step)
        && AllRequiredTaken(step)
        && EndsWith(h[..k], Prelude(step)))
  }

  ghost predicate Guarded(cfg: Setting, h: History) {
    forall k :: 0 <= k < |h| && h[k].CommandRun? ==> GuardedAt(cfg, h, k)
  }

  /** The history grew without a command. */
  ghost predicate Quiet(h: History, later: History) {
    h <= later && forall k :: |h| <= k < |later| ==> !later[k].CommandRun?
  }

  lemma QuietKeepsGuarded(cfg: Setting, h: History, later: History)
    requires Guarded(cfg, h) && Quiet(h, later)
    ensures Guarded(cfg, later)
  {
    forall k | 0 <= k < |later| && later[k].CommandRun?
      ensures GuardedAt(cfg, later, k)
    {
      assert GuardedAt(cfg, h, k);
      assert later[..k] == h[..k];
    }
  }

  lemma CommandKeepsGuarded(cfg: Setting, h: History, step: Step, ok: bool)
    requires Guarded(cfg, h)
    requires step.DiagnosisAction? || step.SystemAction?
    requires step.SystemAction? ==>
      && cfg.mode == Execute
      && BlastRadiusValid(step, cfg.manifest, cfg.context)
      && ProvidersResolved(cfg, step)
      && EndsWith(h, Prelude(step))
    ensures Guarded(cfg, h + [CommandRun(step, step.command, ok)])
  {
    var later := h + [CommandRun(step, step.command, ok)];
    forall k | 0 <= k < |later| && later[k].CommandRun?
      ensures GuardedAt(cfg, later, k)
    {
      if k < |h| {
        assert GuardedAt(cfg, h, k);
        assert later[..k] == h[..k];
      } else {
        assert later[..k] == h;
      }
    }
  }

  lemma {:induction false} AskAllIsQuiet(w: World, issuer: Step, checks: seq<Check>, h: History)
    ensures var asked := AskAll(w, issuer, checks, h);
      Quiet(h, asked.history) && (asked.reply == Holds ==> asked.history == h + Passed(issuer, checks))
  {
    AskAllIff(w, issuer, checks, h);
    if checks != [] {
      var first := Ask(w, issuer, checks[0], h);
      if first.reply == Holds {
        AskAllIsQuiet(w, issuer, checks[1..], first.history);
      }
    }
  }

  lemma AskedPreludeHolds(w: World, step: Step, h: History)
    requires step.SystemAction?
    ensures var asked := AskAll(w, step, step.preConditions, h + Taken(step, step.before));
      Quiet(h, asked.history) && (asked.reply == Holds ==> EndsWith(asked.history, Prelude(step)))
  {
    var captured := h + Taken(step, step.before);
    AskAllIsQuiet(w, step, step.preConditions, captured);
    assert captured + Passed(step, step.preConditions) == h + Prelude(step);
  }

  // ---- a system action, in either engine ----

  /** The events of a system action are quiet, or they are its prelude, its command and quiet ones. */
  lemma ActionShape(cfg: Setting, w: World, step: Step, used: nat, h: History)
    requires step.SystemAction?
    ensures var asked := AskAll(w, step, step.preConditions, h + Taken(step, step.before));
      var ok := w.runs(asked.history, step.command);
      var later := G.SystemActionNode(cfg, w, step, used, h).history;
      || Quiet(h, later)
      || (&& cfg.mode == Execute
          && BlastRadiusValid(step, cfg.manifest, cfg.context)
          && ProvidersResolved(cfg, step)
          && asked.reply == Holds
          && Quiet(asked.history + [CommandRun(step, step.command, ok)], later))
  {
    AskedPreludeHolds(w, step, h);
    var asked := AskAll(w, step, step.preConditions, h + Taken(step, step.before));
    var ok := w.runs(asked.history, step.command);
    var ran := asked.history + [CommandRun(step, step.command, ok)];
    QuietAppend(h, h, Taken(step, step.before));
    QuietAppend(h, asked.history, Moves(step));
    AfterCommandIsQuiet(w, step, ran);
  }

  lemma QuietAppend(h: History, later: History, tail: History)
    requires Quiet(h, later) && forall k :: 0 <= k < |tail| ==> !tail[k].CommandRun?
    ensures Quiet(h, later + tail)
  {
  }

  lemma AfterCommandIsQuiet(w: World, step: Step, ran: History)
    requires step.SystemAction?
    ensures var judged := Ask(w, step, step.successCheck, ran + Moves(step));
      && Quiet(ran, ran) && Quiet(ran, judged.history) && Quiet(ran, judged.history + Taken(step, step.after))
  {
    var judged := Ask(w, step, step.successCheck, ran + Moves(step));
    QuietAppend(ran, ran, Moves(step));
    if !IsNoOpCheck(step.successCheck) {
      QuietAppend(ran, ran + Moves(step), [CheckAsked(step, step.successCheck, judged.reply)]);
    }
    QuietAppend(ran, judged.history, Taken(step, step.after));
  }

  lemma ActionNodeKeepsGuarded(cfg: Setting, w: World, step: Step, used: nat, h: History)
    requires step.SystemAction? && Guarded(cfg, h)
    ensures Guarded(cfg, G.SystemActionNode(cfg, w, step, used, h).history)
  {
    var later := G.SystemActionNode(cfg, w, step, used, h).history;
    ActionShape(cfg, w, step, used, h);
    if Quiet(h, later) {
      QuietKeepsGuarded(cfg, h, later);
    } else {
      var asked := AskAll(w, step, step.preConditions, h + Taken(step, step.before));
      var ok := w.runs(asked.history, step.command);
      AskedPreludeHolds(w, step, h);
      QuietKeepsGuarded(cfg, h, asked.history);
      CommandKeepsGuarded(cfg, asked.history, step, ok);
      QuietKeepsGuarded(cfg, asked.history + [CommandRun(step, step.command, ok)], later);
    }
  }

  lemma ActionKeepsGuarded(cfg: Setting, w: World, step: Step, h: History)
    requires step.SystemAction? && Guarded(cfg, h)
    ensures Guarded(cfg, L.ActionRun(cfg, w, step, h).history)
  {
    R.ActionsAlike(cfg, w, step, 0, h);
    ActionNodeKeepsGuarded(cfg, w, step, 0, h);
  }

  // ---- exactly when an action sends its command, and when it succeeds ----

  /** Nothing refuses the action before its checks. */
  ghost predicate Admissible(cfg: Setting, step: Step)
    requires step.SystemAction?
  {
    BlastRadiusValid(step, cfg.manifest, cfg.context) && (cfg.mode == Execute ==> ProvidersResolved(cfg, step))
  }

  ghost predicate Sends(h: History, later: History) {
    exists k :: |h| <= k < |later| && later[k].CommandRun?
  }

  /** The command is sent exactly in execute mode, when nothing refuses the action and every precondition
      that asks the backend holds: one that the backend answers otherwise keeps the command back. */
  lemma ActionSendsIff(cfg: Setting, w: World, step: Step, used: nat, h: History)
    requires step.SystemAction?
    ensures var sends := cfg.mode == Execute && Admissible(cfg, step) && AllHold(w, step, step.preConditions, h + Taken(step, step.before));
      && (Sends(h, G.SystemActionNode(cfg, w, step, used, h).history) <==> sends)
      && (Sends(h, L.ActionRun(cfg, w, step, h).history) <==> sends)
  {
    hide BlastRadiusValid, ProvidersResolved, AllHold, AskAll, Passed;
    var captured := h + Taken(step, step.before);
    var later := G.SystemActionNode(cfg, w, step, used, h).history;
    R.ActionsAlike(cfg, w, step, used, h);
    AskAllIff(w, step, step.preConditions, captured);
    RequiredCapturesAreTaken(step.before);
    ActionShape(cfg, w, step, used, h);
    if cfg.mode == Execute && Admissible(cfg, step) && AllHold(w, step, step.preConditions, captured) {
      SentAtItsPlace(cfg, w, step, used, h);
    }
  }

  lemma SentAtItsPlace(cfg: Setting, w: World, step: Step, used: nat, h: History)
    requires step.SystemAction? && cfg.mode == Execute && Admissible(cfg, step)
    requires AskAll(w, step, step.preConditions, h + Taken(step, step.before)).reply == Holds
    ensures Sends(h, G.SystemActionNode(cfg, w, step, used, h).history)
  {
    hide BlastRadiusValid, ProvidersResolved, AskAll, Ask;
    RequiredCapturesAreTaken(step.before);
    hide RequiredCaptureFailed;
    var asked := AskAll(w, step, step.preConditions, h + Taken(step, step.before));
    var ok := w.runs(asked.history, step.command);
    var later := G.SystemActionNode(cfg, w, step, used, h).history;
    AskedPreludeHolds(w, step, h);
    AfterCommandIsQuiet(w, step, asked.history + [CommandRun(step, step.command, ok)]);
    assert (asked.history + [CommandRun(step, step.command, ok)]) <= later;
    assert later[|asked.history|] == CommandRun(step, step.command, ok);
  }

  /** The state the success check is asked in. */
  function Done(step: Step, h: History): History
    requires step.SystemAction?
  {
    h + Prelude(step) + [CommandRun(step, step.command, true)] + Moves(step)
  }

  /** The action succeeds exactly when nothing refuses it, its preconditions hold and, in execute mode, its
      command returns and its success check holds if it asks anything. */
  lemma ActionSucceedsIff(cfg: Setting, w: World, step: Step, used: nat, h: History)
    requires step.SystemAction?
    ensures var succeeds :=
        && Admissible(cfg, step)
        && AllHold(w, step, step.preConditions, h + Taken(step, step.before))
        && (cfg.mode == Execute ==>
              && w.runs(h + Prelude(step), step.command)
              && (AsksBackend(step.successCheck) ==> w.checks(Done(step, h), step.successCheck) == Holds));
      && (G.SystemActionNode(cfg, w, step, used, h).end == G.Yields(G.Plain(step, Success)) <==> succeeds)
      && (L.ActionRun(cfg, w, step, h).end == L.Returned(Success) <==> succeeds)
  {
    hide BlastRadiusValid, ProvidersResolved, AllHold, AskAll, Ask, Passed;
    var captured := h + Taken(step, step.before);
    R.ActionsAlike(cfg, w, step, used, h);
    AskAllIff(w, step, step.preConditions, captured);
    assert captured + Passed(step, step.preConditions) == h + Prelude(step);
    RequiredCapturesAreTaken(step.before);
    AskIff(w, step, step.successCheck, Done(step, h));
  }

  // ---- the sequential engine ----

  lemma LegacyConditionalKeepsGuarded(cfg: Setting, w: World, step: Step, h: History)
    requires step.Conditional? && Guarded(cfg, h)
    ensures Guarded(cfg, L.ConditionalRun(cfg, w, step, h).history)
  {
    var asked := Ask(w, step, step.condition, h);
    QuietKeepsGuarded(cfg, h, asked.history);
    if asked.reply == Holds && step.thenStep.SystemAction? {
      ActionKeepsGuarded(cfg, w, step.thenStep, asked.history);
    } else if asked.reply == Fails && step.elseStep.Some? && step.elseStep.value.SystemAction? {
      ActionKeepsGuarded(cfg, w, step.elseStep.value, asked.history);
    }
  }

  lemma {:induction false} LegacyStepKeepsGuarded(cfg: Setting, w: World, step: Step, plan: Plan, current: nat,
                                                  h: History, completed: seq<StepResult>, fuel: nat)
    requires Guarded(cfg, h)
    ensures Guarded(cfg, L.RunStep(cfg, w, step, plan, current, h, completed, fuel).history)
    decreases fuel, 0, 0
  {
    match step
    case DiagnosisAction(_, _, _, command, _) => CommandKeepsGuarded(cfg, h, step, w.runs(h, command));
    case SystemAction(_, _, _, _, _, _, _, _, _, _, _, _, _) => ActionKeepsGuarded(cfg, w, step, h);
    case Conditional(_, _, _, _) => LegacyConditionalKeepsGuarded(cfg, w, step, h);
    case ReplanningCheckpoint(_, _, captures) =>
      var asked := h + Taken(step, captures);
      var reply := w.replans(asked, ExecutionState(completed, current));
      QuietKeepsGuarded(cfg, h, asked + [AgentAsked(step)]);
      if reply.Revise? && fuel > 0 {
        LegacyRevisedKeepsGuarded(cfg, w, reply.plan, 0, current, asked + [AgentAsked(step)], completed, fuel - 1);
      }
    case _ =>
      QuietKeepsGuarded(cfg, h, L.RunStep(cfg, w, step, plan, current, h, completed, fuel).history);
  }

  lemma {:induction false} LegacyRevisedKeepsGuarded(cfg: Setting, w: World, plan: Plan, i: nat, current: nat,
                                                     h: History, completed: seq<StepResult>, fuel: nat)
    requires i <= |plan.steps| && Guarded(cfg, h)
    ensures Guarded(cfg, L.RunRevised(cfg, w, plan, i, current, h, completed, fuel).history)
    decreases fuel, 1, |plan.steps| - i
  {
    if i < |plan.steps| {
      LegacyStepKeepsGuarded(cfg, w, plan.steps[i], plan, current, h, completed, fuel);
      var run := L.RunStep(cfg, w, plan.steps[i], plan, current, h, completed, fuel);
      if run.end.Returned? && run.end.status != Failed {
        LegacyRevisedKeepsGuarded(cfg, w, plan, i + 1, current, run.history,
                                  run.completed + [StepResult(plan.steps[i], run.end.status)], fuel);
      }
    }
  }

  lemma {:induction false} LegacyRunIsGuarded(cfg: Setting, w: World, plan: Plan, i: nat, h: History, completed: seq<StepResult>, fuel: nat)
    requires i <= |plan.steps| && Guarded(cfg, h)
    ensures Guarded(cfg, L.RunFrom(cfg, w, plan, i, h, completed, fuel).history)
    decreases |plan.steps| - i
  {
    if i < |plan.steps| {
      LegacyStepKeepsGuarded(cfg, w, plan.steps[i], plan, i, h, completed, fuel);
      var run := L.RunStep(cfg, w, plan.steps[i], plan, i, h, completed, fuel);
      if run.end.Returned? {
        var h' := run.history + [StepDone(i, plan.steps[i], run.end.status)];
        QuietKeepsGuarded(cfg, run.history, h');
        if !Halts(plan.steps[i], run.end.status) {
          LegacyRunIsGuarded(cfg, w, plan, i + 1, h', run.completed + [StepResult(plan.steps[i], run.end.status)], fuel);
        }
      }
    }
  }

  // ---- the graph engine ----

  lemma {:induction false} NodeKeepsGuarded(cfg: Setting, w: World, step: Step, state: G.GraphState, answers: seq<string>, used: nat,
                                            h: History, fuel: nat)
    requires used <= |answers| && Guarded(cfg, h)
    ensures Guarded(cfg, G.Node(cfg, w, step, state, answers, used, h, fuel).history)
    decreases fuel, 0, step
  {
    match step
    case DiagnosisAction(_, _, _, command, _) => CommandKeepsGuarded(cfg, h, step, w.runs(h, command));
    case SystemAction(_, _, _, _, _, _, _, _, _, _, _, _, _) => ActionNodeKeepsGuarded(cfg, w, step, used, h);
    case Conditional(_, condition, thenStep, elseStep) =>
      var asked := Ask(w, step, condition, h);
      QuietKeepsGuarded(cfg, h, asked.history);
      if asked.reply == Holds {
        NodeKeepsGuarded(cfg, w, thenStep, state, answers, used, asked.history, fuel);
      } else if asked.reply == Fails && elseStep.Some? {
        NodeKeepsGuarded(cfg, w, elseStep.value, state, answers, used, asked.history, fuel);
      }
    case ReplanningCheckpoint(_, _, captures) =>
      var asked := h + Taken(step, captures);
      var reply := w.replans(asked, ExecutionState(state.completedSteps, |state.completedSteps|));
      QuietKeepsGuarded(cfg, h, asked + [AgentAsked(step)]);
      if reply.Revise? && fuel > 0 {
        RevisedNodesKeepGuarded(cfg, w, step, reply.plan.steps, state, answers, used, asked + [AgentAsked(step)], fuel - 1);
      }
    case _ =>
      QuietKeepsGuarded(cfg, h, G.Node(cfg, w, step, state, answers, used, h, fuel).history);
  }

  lemma {:induction false} RevisedNodesKeepGuarded(cfg: Setting, w: World, step: Step, steps: seq<Step>, state: G.GraphState,
                                                   answers: seq<string>, used: nat, h: History, fuel: nat)
    requires used <= |answers| && Guarded(cfg, h)
    ensures Guarded(cfg, G.RevisedNodes(cfg, w, step, steps, state, answers, used, h, fuel).history)
    decreases fuel, 1, |steps|
  {
    if steps != [] {
      NodeKeepsGuarded(cfg, w, steps[0], state, answers, used, h, fuel);
      var run := G.Node(cfg, w, steps[0], state, answers, used, h, fuel);
      if run.end.Yields? {
        RevisedNodesKeepGuarded(cfg, w, step, steps[1..], state, answers, run.used, run.history, fuel);
      }
    }
  }

  lemma AdvanceKeepsGuarded(cfg: Setting, w: World, c: G.Config, fuel: nat)
    requires Guarded(cfg, c.history)
    ensures Guarded(cfg, G.Advance(cfg, w, fuel, c).history)
  {
    if c.position.At? && c.position.node < |c.state.plan.steps| {
      var step := c.state.plan.steps[c.position.node];
      NodeKeepsGuarded(cfg, w, step, c.state, c.answers, 0, c.history, fuel);
      var run := G.Node(cfg, w, step, c.state, c.answers, 0, c.history, fuel);
      QuietKeepsGuarded(cfg, run.history, G.RunNode(cfg, w, fuel, c, c.position.node).history);
    }
  }

  lemma {:induction false} GraphRunIsGuarded(cfg: Setting, w: World, plan: Plan, moves: nat, fuel: nat)
    ensures Guarded(cfg, G.After(cfg, w, G.Start(plan), moves, fuel).history)
  {
    hide G.Advance;
    if moves > 0 {
      GraphRunIsGuarded(cfg, w, plan, moves - 1, fuel);
      AdvanceKeepsGuarded(cfg, w, G.After(cfg, w, G.Start(plan), moves - 1, fuel), fuel);
    }
  }

  /** Every run of either engine, whatever the plan, the agent's revisions and the outside world. */
  lemma EveryRunIsGuarded(cfg: Setting, w: World, plan: Plan, fuel: nat)
    ensures Guarded(cfg, L.RunPlan(cfg, w, plan, fuel).history)
    ensures forall c :: G.Reachable(cfg, w, plan, fuel, c) ==> Guarded(cfg, c.history)
  {
    LegacyRunIsGuarded(cfg, w, plan, 0, [], [], fuel);
    forall c | G.Reachable(cfg, w, plan, fuel, c)
      ensures Guarded(cfg, c.history)
    {
      var moves: nat :| c == G.After(cfg, w, G.Start(plan), moves, fuel);
      GraphRunIsGuarded(cfg, w, plan, moves, fuel);
    }
  }

  ghost predicate OnlyDiagnoses(h: History) {
    forall k :: 0 <= k < |h| && h[k].CommandRun? ==> h[k].issuer.DiagnosisAction?
  }

  /** A dry run sends the backend no command but a diagnosis. */
  lemma DryRunOnlyDiagnoses(cfg: Setting, w: World, plan: Plan, fuel: nat)
    requires cfg.mode == DryRun
    ensures OnlyDiagnoses(L.RunPlan(cfg, w, plan, fuel).history)
    ensures forall c :: G.Reachable(cfg, w, plan, fuel, c) ==> OnlyDiagnoses(c.history)
  {
    EveryRunIsGuarded(cfg, w, plan, fuel);
    forall h: History | Guarded(cfg, h)
      ensures OnlyDiagnoses(h)
    {
      forall k | 0 <= k < |h| && h[k].CommandRun?
        ensures h[k].issuer.DiagnosisAction?
      {
        assert GuardedAt(cfg, h, k);
      }
    }
  }
}
