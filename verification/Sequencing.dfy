/** The order of a run: nothing belonging to a top-level step happens before every earlier step of the
    plan has returned a result that lets the run go on. Proved for both engines, so that what a plan's
    structure promises can be turned into what its runs keep. */
module Sequencing {
  import opened Plans
  import opened Text
  import opened Safety
  import opened Runs
  import opened Checks
  import L = LegacyEngine
  import G = GraphEngine
  import R = Refinement

  /** The steps a step may execute: itself and the branches its condition can lead to. A condition that
      asserts nothing holds, so the other branch is dead. */
  ghost function Live(step: Step): (live: set<Step>)
    ensures step in live
    decreases step
  {
    {step} +
    if step.Conditional? then
      Live(step.thenStep) + (if step.elseStep.Some? && !IsNoOpCheck(step.condition) then Live(step.elseStep.value) else {})
    else {}
  }

  lemma LiveIsWithin(step: Step)
    ensures Live(step) <= Within(step)
    decreases step
  {
    if step.Conditional? {
      LiveIsWithin(step.thenStep);
      if step.elseStep.Some? {
        LiveIsWithin(step.elseStep.value);
      }
    }
  }

  /** The step cannot hand over to the agent. */
  ghost predicate Settled(step: Step) {
    forall s :: s in Live(step) ==> !s.ReplanningCheckpoint?
  }

  /** A system action without a target is refused before it leaves any event. */
  predicate NamesTarget(issuer: Step) {
    issuer.SystemAction? ==> !Blank(issuer.target)
  }

  /** The backend is only asked checks that assert something. */
  predicate AsksSomething(e: Event) {
    e.CheckAsked? ==> AsksBackend(e.check)
  }

  /** The history grew without closing a top-level step, and only by events of the step itself (and of
      its live branches) unless the agent could add steps of its own. */
  ghost predicate Grows(step: Step, h: History, later: History) {
    && h <= later
    && forall k :: |h| <= k < |later| ==>
         && !later[k].StepDone? && NamesTarget(later[k].issuer) && AsksSomething(later[k])
         && (Settled(step) ==> later[k].issuer in Live(step))
  }

  lemma GrowsOn(step: Step, h: History, middle: History, later: History)
    requires Grows(step, h, middle) && Grows(step, middle, later)
    ensures Grows(step, h, later)
  {
  }

  lemma GrowsBy(step: Step, h: History, later: History, tail: History)
    requires Grows(step, h, later)
    requires forall k :: 0 <= k < |tail| ==> !tail[k].StepDone? && tail[k].issuer == step && AsksSomething(tail[k])
    requires NamesTarget(step)
    ensures Grows(step, h, later + tail)
  {
  }

  ghost predicate LiveBranch(step: Step, branch: Step) {
    step.Conditional? && (branch == step.thenStep || (step.elseStep == Some(branch) && !IsNoOpCheck(step.condition)))
  }

  lemma BranchGrows(step: Step, branch: Step, h: History, later: History)
    requires LiveBranch(step, branch) && Grows(branch, h, later)
    ensures Grows(step, h, later)
  {
    assert Live(branch) <= Live(step);
  }

  lemma AskGrows(w: World, step: Step, check: Check, h: History)
    requires NamesTarget(step)
    ensures Grows(step, h, Ask(w, step, check, h).history)
  {
    AskIff(w, step, check, h);
  }

  lemma {:induction false} AskAllGrows(w: World, step: Step, checks: seq<Check>, h: History)
    requires NamesTarget(step)
    ensures Grows(step, h, AskAll(w, step, checks, h).history)
  {
    if checks != [] {
      var first := Ask(w, step, checks[0], h);
      AskGrows(w, step, checks[0], h);
      if first.reply == Holds {
        AskAllGrows(w, step, checks[1..], first.history);
        GrowsOn(step, h, first.history, AskAll(w, step, checks[1..], first.history).history);
      }
    }
  }

  lemma ActionNodeGrows(cfg: Setting, w: World, step: Step, used: nat, h: History)
    requires step.SystemAction?
    ensures Grows(step, h, G.SystemActionNode(cfg, w, step, used, h).history)
  {
    hide AsksBackend;
    hide ProvidersResolved, RequiredCaptureFailed, Live, Settled;
    NormalizesToEmpty(step.target);
    if Blank(step.target) {
      return;
    }
    hide BlastRadiusValid;
    var captured := h + Taken(step, step.before);
    GrowsBy(step, h, h, Taken(step, step.before));
    AskAllGrows(w, step, step.preConditions, captured);
    var asked := AskAll(w, step, step.preConditions, captured);
    GrowsOn(step, h, captured, asked.history);
    GrowsBy(step, h, asked.history, Moves(step));
    var command := [CommandRun(step, step.command, w.runs(asked.history, step.command))];
    GrowsBy(step, h, asked.history, command);
    GrowsBy(step, h, asked.history + command, Moves(step));
    var judged := Ask(w, step, step.successCheck, asked.history + command + Moves(step));
    AskGrows(w, step, step.successCheck, asked.history + command + Moves(step));
    GrowsOn(step, h, asked.history + command + Moves(step), judged.history);
    GrowsBy(step, h, judged.history, Taken(step, step.after));
  }

  lemma ActionGrows(cfg: Setting, w: World, step: Step, h: History)
    requires step.SystemAction?
    ensures Grows(step, h, L.ActionRun(cfg, w, step, h).history)
  {
    R.ActionsAlike(cfg, w, step, 0, h);
    ActionNodeGrows(cfg, w, step, 0, h);
  }

  lemma LegacyBranchGrows(cfg: Setting, w: World, step: Step, branch: Step, h: History)
    requires LiveBranch(step, branch)
    ensures Grows(step, h, L.BranchRun(cfg, w, branch, h).history)
  {
    if branch.SystemAction? {
      ActionGrows(cfg, w, branch, h);
      BranchGrows(step, branch, h, L.BranchRun(cfg, w, branch, h).history);
    }
  }

  lemma LegacyConditionalGrows(cfg: Setting, w: World, step: Step, h: History)
    requires step.Conditional?
    ensures Grows(step, h, L.ConditionalRun(cfg, w, step, h).history)
  {
    hide Grows, L.BranchRun;
    var asked := Ask(w, step, step.condition, h);
    AskGrows(w, step, step.condition, h);
    if asked.reply == Holds {
      LegacyBranchGrows(cfg, w, step, step.thenStep, asked.history);
      GrowsOn(step, h, asked.history, L.BranchRun(cfg, w, step.thenStep, asked.history).history);
    } else if asked.reply == Fails && step.elseStep.Some? {
      LegacyBranchGrows(cfg, w, step, step.elseStep.value, asked.history);
      GrowsOn(step, h, asked.history, L.BranchRun(cfg, w, step.elseStep.value, asked.history).history);
    }
  }

  lemma {:induction false} LegacyStepGrows(cfg: Setting, w: World, step: Step, plan: Plan, current: nat,
                                           h: History, completed: seq<StepResult>, fuel: nat)
    ensures Grows(step, h, L.RunStep(cfg, w, step, plan, current, h, completed, fuel).history)
    decreases fuel, 0, 0
  {
    hide AsksBackend;
    hide BlastRadiusValid, ProvidersResolved, RequiredCaptureFailed, AutoApproves, L.ActionRun, L.ConditionalRun;
    match step
    case SystemAction(_, _, _, _, _, _, _, _, _, _, _, _, _) => ActionGrows(cfg, w, step, h);
    case Conditional(_, _, _, _) => LegacyConditionalGrows(cfg, w, step, h);
    case ReplanningCheckpoint(_, _, captures) =>
      var asked := h + Taken(step, captures);
      var replied := asked + [AgentAsked(step)];
      var reply := w.replans(asked, ExecutionState(completed, current));
      assert step in Live(step) && !Settled(step);
      if reply.Revise? && fuel > 0 {
        LegacyRevisedGrows(cfg, w, step, reply.plan, 0, current, replied, completed, fuel - 1);
        GrowsOn(step, h, replied, L.RunRevised(cfg, w, reply.plan, 0, current, replied, completed, fuel - 1).history);
      }
    case _ =>
  }

  lemma {:induction false} LegacyRevisedGrows(cfg: Setting, w: World, step: Step, plan: Plan, i: nat, current: nat,
                                              h: History, completed: seq<StepResult>, fuel: nat)
    requires step.ReplanningCheckpoint? && i <= |plan.steps|
    ensures Grows(step, h, L.RunRevised(cfg, w, plan, i, current, h, completed, fuel).history)
    decreases fuel, 1, |plan.steps| - i
  {
    hide L.RunStep;
    assert step in Live(step) && !Settled(step);
    if i < |plan.steps| {
      LegacyStepGrows(cfg, w, plan.steps[i], plan, current, h, completed, fuel);
      var run := L.RunStep(cfg, w, plan.steps[i], plan, current, h, completed, fuel);
      if run.end.Returned? && run.end.status != Failed {
        var done := run.completed + [StepResult(plan.steps[i], run.end.status)];
        LegacyRevisedGrows(cfg, w, step, plan, i + 1, current, run.history, done, fuel);
      }
    }
  }

  lemma {:induction false} NodeGrows(cfg: Setting, w: World, step: Step, state: G.GraphState, answers: seq<string>, used: nat,
                                     h: History, fuel: nat)
    requires used <= |answers|
    ensures Grows(step, h, G.Node(cfg, w, step, state, answers, used, h, fuel).history)
    decreases fuel, 0, step, 1
  {
    hide AsksBackend;
    hide BlastRadiusValid, ProvidersResolved, RequiredCaptureFailed, AutoApproves, G.SystemActionNode;
    match step
    case SystemAction(_, _, _, _, _, _, _, _, _, _, _, _, _) => ActionNodeGrows(cfg, w, step, used, h);
    case Conditional(_, condition, thenStep, elseStep) =>
      var asked := Ask(w, step, condition, h);
      AskGrows(w, step, condition, h);
      if asked.reply == Holds {
        NodeBranchGrows(cfg, w, step, thenStep, state, answers, used, h, asked.history, fuel);
      } else if asked.reply == Fails && elseStep.Some? {
        NodeBranchGrows(cfg, w, step, elseStep.value, state, answers, used, h, asked.history, fuel);
      }
    case ReplanningCheckpoint(_, _, captures) =>
      var asked := h + Taken(step, captures);
      var replied := asked + [AgentAsked(step)];
      var reply := w.replans(asked, ExecutionState(state.completedSteps, |state.completedSteps|));
      assert step in Live(step) && !Settled(step);
      if reply.Revise? && fuel > 0 {
        RevisedNodesGrow(cfg, w, step, reply.plan.steps, state, answers, used, replied, fuel - 1);
        GrowsOn(step, h, replied, G.RevisedNodes(cfg, w, step, reply.plan.steps, state, answers, used, replied, fuel - 1).history);
      }
    case _ =>
  }

  lemma {:induction false} NodeBranchGrows(cfg: Setting, w: World, step: Step, branch: Step, state: G.GraphState,
                                           answers: seq<string>, used: nat, h: History, asked: History, fuel: nat)
    requires used <= |answers| && Grows(step, h, asked)
    requires LiveBranch(step, branch)
    ensures Grows(step, h, G.Node(cfg, w, branch, state, answers, used, asked, fuel).history)
    decreases fuel, 0, step, 0
  {
    hide Grows, G.Node;
    NodeGrows(cfg, w, branch, state, answers, used, asked, fuel);
    BranchGrows(step, branch, asked, G.Node(cfg, w, branch, state, answers, used, asked, fuel).history);
    GrowsOn(step, h, asked, G.Node(cfg, w, branch, state, answers, used, asked, fuel).history);
  }

  lemma {:induction false} RevisedNodesGrow(cfg: Setting, w: World, step: Step, steps: seq<Step>, state: G.GraphState,
                                            answers: seq<string>, used: nat, h: History, fuel: nat)
    requires step.ReplanningCheckpoint? && used <= |answers|
    ensures Grows(step, h, G.RevisedNodes(cfg, w, step, steps, state, answers, used, h, fuel).history)
    decreases fuel, 1, |steps|
  {
    hide G.Node;
    assert step in Live(step) && !Settled(step);
    if steps != [] {
      NodeGrows(cfg, w, steps[0], state, answers, used, h, fuel);
      var run := G.Node(cfg, w, steps[0], state, answers, used, h, fuel);
      if run.end.Yields? {
        RevisedNodesGrow(cfg, w, step, steps[1..], state, answers, run.used, run.history, fuel);
      }
    }
  }

  // ---- whole runs ----

  /** Step `i` of the plan had returned, without halting the run, before position `k`. */
  ghost predicate DoneBefore(plan: Plan, h: History, k: nat, i: nat)
    requires i < |plan.steps|
  {
    exists m :: 0 <= m < k && m < |h| && h[m].StepDone? && h[m].index == i && h[m].step == plan.steps[i]
                && !Halts(h[m].step, h[m].status) && h[m].status != RolledBack
  }

  ghost predicate AllDoneBefore(plan: Plan, h: History, k: nat, j: nat)
    requires j <= |plan.steps|
  {
    forall i :: 0 <= i < j ==> DoneBefore(plan, h, k, i)
  }

  /** The event at `k` belongs to step `j` of the plan (a replanning checkpoint owns whatever its
      revised plans do), and every earlier step was done by then. */
  ghost predicate Owned(plan: Plan, h: History, k: nat, j: nat)
    requires k < |h| && j < |plan.steps|
  {
    && (if h[k].StepDone? then h[k].index == j && h[k].step == plan.steps[j] && h[k].status != RolledBack
        else NamesTarget(h[k].issuer) && AsksSomething(h[k]) && (Settled(plan.steps[j]) ==> h[k].issuer in Live(plan.steps[j])))
    && AllDoneBefore(plan, h, k, j)
  }

  ghost predicate InSequence(plan: Plan, h: History, k: nat)
    requires k < |h|
  {
    exists j :: 0 <= j < |plan.steps| && Owned(plan, h, k, j)
  }

  ghost predicate Sequenced(plan: Plan, h: History) {
    forall k :: 0 <= k < |h| ==> InSequence(plan, h, k)
  }

  lemma OwnedLater(plan: Plan, h: History, later: History, k: nat, j: nat)
    requires h <= later && k < |h| && j < |plan.steps|
    requires Owned(plan, h, k, j)
    ensures Owned(plan, later, k, j)
  {
    forall i | 0 <= i < j
      ensures DoneBefore(plan, later, k, i)
    {
      assert DoneBefore(plan, h, k, i);
      var m :| 0 <= m < k && m < |h| && h[m].StepDone? && h[m].index == i && h[m].step == plan.steps[i]
               && !Halts(h[m].step, h[m].status) && h[m].status != RolledBack;
      assert later[m] == h[m];
    }
  }

  lemma AllDoneLater(plan: Plan, h: History, later: History, k: nat, j: nat)
    requires h <= later && |h| <= k && j <= |plan.steps|
    requires AllDoneBefore(plan, h, |h|, j)
    ensures AllDoneBefore(plan, later, k, j)
  {
    forall i | 0 <= i < j
      ensures DoneBefore(plan, later, k, i)
    {
      assert DoneBefore(plan, h, |h|, i);
      var m :| 0 <= m < |h| && h[m].StepDone? && h[m].index == i && h[m].step == plan.steps[i]
               && !Halts(h[m].step, h[m].status) && h[m].status != RolledBack;
      assert later[m] == h[m];
    }
  }

  /** Running step `j` after all earlier ones keeps the order. */
  lemma StepKeepsSequence(plan: Plan, j: nat, h: History, later: History)
    requires j < |plan.steps|
    requires Sequenced(plan, h) && AllDoneBefore(plan, h, |h|, j) && Grows(plan.steps[j], h, later)
    ensures Sequenced(plan, later) && AllDoneBefore(plan, later, |later|, j)
  {
    AllDoneLater(plan, h, later, |later|, j);
    forall k | 0 <= k < |later|
      ensures InSequence(plan, later, k)
    {
      if k < |h| {
        assert InSequence(plan, h, k);
        var i :| 0 <= i < |plan.steps| && Owned(plan, h, k, i);
        OwnedLater(plan, h, later, k, i);
      } else {
        AllDoneLater(plan, h, later, k, j);
        assert Owned(plan, later, k, j);
      }
    }
  }

  /** Closing it does too, and a result that does not halt the run lets the next step start. */
  lemma ClosingKeepsSequence(plan: Plan, j: nat, h: History, status: Status)
    requires j < |plan.steps| && status != RolledBack
    requires Sequenced(plan, h) && AllDoneBefore(plan, h, |h|, j)
    ensures var later := h + [StepDone(j, plan.steps[j], status)];
      && Sequenced(plan, later)
      && (!Halts(plan.steps[j], status) ==> AllDoneBefore(plan, later, |later|, j + 1))
  {
    var later := h + [StepDone(j, plan.steps[j], status)];
    AllDoneLater(plan, h, later, |h|, j);
    AllDoneLater(plan, h, later, |later|, j);
    assert later[|h|] == StepDone(j, plan.steps[j], status);
    forall k | 0 <= k < |later|
      ensures InSequence(plan, later, k)
    {
      if k < |h| {
        assert InSequence(plan, h, k);
        var i :| 0 <= i < |plan.steps| && Owned(plan, h, k, i);
        OwnedLater(plan, h, later, k, i);
      } else {
        assert Owned(plan, later, k, j);
      }
    }
    if !Halts(plan.steps[j], status) {
      assert DoneBefore(plan, later, |later|, j);
    }
  }

  lemma {:induction false} LegacyRunSequenced(cfg: Setting, w: World, plan: Plan, i: nat, h: History, completed: seq<StepResult>, fuel: nat)
    requires i <= |plan.steps|
    requires Sequenced(plan, h) && AllDoneBefore(plan, h, |h|, i)
    ensures Sequenced(plan, L.RunFrom(cfg, w, plan, i, h, completed, fuel).history)
    decreases |plan.steps| - i
  {
    hide L.RunStep, Sequenced, AllDoneBefore, Grows;
    if i < |plan.steps| {
      var run := L.RunStep(cfg, w, plan.steps[i], plan, i, h, completed, fuel);
      LegacyStepGrows(cfg, w, plan.steps[i], plan, i, h, completed, fuel);
      StepKeepsSequence(plan, i, h, run.history);
      if run.end.Returned? {
        LegacyNeverRollsBack(cfg, w, plan.steps[i], plan, i, h, completed, fuel);
        ClosingKeepsSequence(plan, i, run.history, run.end.status);
        if !Halts(plan.steps[i], run.end.status) {
          LegacyRunSequenced(cfg, w, plan, i + 1, run.history + [StepDone(i, plan.steps[i], run.end.status)],
                             run.completed + [StepResult(plan.steps[i], run.end.status)], fuel);
        }
      }
    }
  }

  lemma LegacyNeverRollsBack(cfg: Setting, w: World, step: Step, plan: Plan, current: nat, h: History, completed: seq<StepResult>, fuel: nat)
    ensures L.RunStep(cfg, w, step, plan, current, h, completed, fuel).end != L.Returned(RolledBack)
  {
    hide BlastRadiusValid, ProvidersResolved, RequiredCaptureFailed, AutoApproves, AskAll, Ask, Taken;
    if step.ReplanningCheckpoint? {
      var asked := h + Taken(step, step.captures);
      var reply := w.replans(asked, ExecutionState(completed, current));
      if reply.Revise? && fuel > 0 {
        RevisedEndsPlainly(cfg, w, reply.plan, 0, current, asked + [AgentAsked(step)], completed, fuel - 1);
      }
    }
  }

  lemma {:induction false} RevisedEndsPlainly(cfg: Setting, w: World, plan: Plan, i: nat, current: nat, h: History,
                                              completed: seq<StepResult>, fuel: nat)
    requires i <= |plan.steps|
    ensures var end := L.RunRevised(cfg, w, plan, i, current, h, completed, fuel).end;
      end.Returned? ==> end.status == Success || end.status == Failed
    decreases |plan.steps| - i
  {
    hide L.RunStep;
    if i < |plan.steps| {
      var run := L.RunStep(cfg, w, plan.steps[i], plan, current, h, completed, fuel);
      if run.end.Returned? {
        RevisedEndsPlainly(cfg, w, plan, i + 1, current, run.history, run.completed + [StepResult(plan.steps[i], run.end.status)], fuel);
      }
    }
  }

  ghost predicate ConfigSequenced(c: G.Config) {
    && Sequenced(c.state.plan, c.history)
    && (c.position.At? ==> c.position.node < |c.state.plan.steps| && AllDoneBefore(c.state.plan, c.history, |c.history|, c.position.node))
    && (c.position.Awaiting? ==> c.position.node < |c.state.plan.steps| && AllDoneBefore(c.state.plan, c.history, |c.history|, c.position.node))
  }

  lemma NodeKeepsSequence(cfg: Setting, w: World, c: G.Config, i: nat, fuel: nat)
    requires ConfigSequenced(c) && G.StateInvariant(c) && c.position == G.At(i)
    ensures ConfigSequenced(G.RunNode(cfg, w, fuel, c, i))
  {
    hide G.Node, Sequenced, AllDoneBefore, Grows;
    var step := c.state.plan.steps[i];
    var run := G.Node(cfg, w, step, c.state, c.answers, 0, c.history, fuel);
    NodeGrows(cfg, w, step, c.state, c.answers, 0, c.history, fuel);
    G.NodeIsFaithful(cfg, w, step, c.state, c.answers, 0, c.history, fuel);
    StepKeepsSequence(c.state.plan, i, c.history, run.history);
    if run.end.Yields? {
      ClosingKeepsSequence(c.state.plan, i, run.history, run.end.update.completedSteps[0].status);
    }
  }

  lemma {:induction false} GraphRunSequenced(cfg: Setting, w: World, plan: Plan, moves: nat, fuel: nat)
    ensures ConfigSequenced(G.After(cfg, w, G.Start(plan), moves, fuel))
  {
    hide G.RunNode, G.StateInvariant, Sequenced, AllDoneBefore;
    if moves > 0 {
      GraphRunSequenced(cfg, w, plan, moves - 1, fuel);
      G.ReachableKeepsInvariant(cfg, w, plan, moves - 1, fuel);
      var c := G.After(cfg, w, G.Start(plan), moves - 1, fuel);
      if c.position.At? {
        NodeKeepsSequence(cfg, w, c, c.position.node, fuel);
      }
      PlanStays(cfg, w, plan, moves, fuel);
    } else {
      StartSequenced(plan);
    }
  }

  lemma StartSequenced(plan: Plan)
    ensures ConfigSequenced(G.Start(plan))
  {
  }

  lemma PlanStays(cfg: Setting, w: World, plan: Plan, moves: nat, fuel: nat)
    ensures G.After(cfg, w, G.Start(plan), moves, fuel).state.plan == plan
  {
    G.ReachableKeepsInvariant(cfg, w, plan, moves, fuel);
  }

  /** Every history a run of either engine can show. */
  ghost predicate Shown(cfg: Setting, w: World, plan: Plan, fuel: nat, h: History) {
    || h == L.RunPlan(cfg, w, plan, fuel).history
    || exists c :: G.Reachable(cfg, w, plan, fuel, c) && h == c.history
  }

  lemma EveryRunIsSequenced(cfg: Setting, w: World, plan: Plan, fuel: nat, h: History)
    requires Shown(cfg, w, plan, fuel, h)
    ensures Sequenced(plan, h)
  {
    LegacyRunSequenced(cfg, w, plan, 0, [], [], fuel);
    if c :| G.Reachable(cfg, w, plan, fuel, c) && h == c.history {
      var moves: nat :| c == G.After(cfg, w, G.Start(plan), moves, fuel);
      GraphRunSequenced(cfg, w, plan, moves, fuel);
      PlanStays(cfg, w, plan, moves, fuel);
    }
  }

  /** No run of either engine asks the backend a check that asserts nothing. */
  lemma OnlyAssertingChecksAreAsked(cfg: Setting, w: World, plan: Plan, fuel: nat, h: History, k: nat)
    requires Shown(cfg, w, plan, fuel, h) && k < |h| && h[k].CheckAsked?
    ensures AsksBackend(h[k].check)
  {
    hide Shown;
    EveryRunIsSequenced(cfg, w, plan, fuel, h);
    assert InSequence(plan, h, k);
  }
}
