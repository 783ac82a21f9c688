/** The graph without an approval handler: whether some run of a plan gets as far as an approval, which the
    graph then passes by itself (src/framework/graph-nodes.ts). */
module Unattended {
  import opened Plans
  import opened Safety
  import opened Runs
  import opened HumanGate
  import opened GateExactness
  import G = GraphEngine
  import S = Sequencing

  /** Nothing in the setting refuses the step, unless it is a conditional. */
  ghost predicate Admitted(cfg: Setting, step: Step) {
    step.SystemAction? ==> BlastRadiusValid(step, cfg.manifest, cfg.context) && (cfg.mode == Execute ==> ProvidersResolved(cfg, step))
  }

  /** The checks can turn out so that the step is passed. */
  ghost predicate PassesIn(cfg: Setting, step: Step) {
    if step.Conditional? then
      Admitted(cfg, step.thenStep) ||
      (!IsNoOpCheck(step.condition) && (step.elseStep.None? || Admitted(cfg, step.elseStep.value)))
    else Admitted(cfg, step)
  }

  ghost predicate OpenUpTo(cfg: Setting, steps: seq<Step>, j: nat)
    requires j <= |steps|
  {
    forall i :: 0 <= i < j ==> PassesIn(cfg, steps[i])
  }

  /** The steps before an approval can all be passed. */
  ghost predicate ApprovalInReach(cfg: Setting, steps: seq<Step>) {
    exists j :: 0 <= j < |steps| && steps[j].HumanApproval? && OpenUpTo(cfg, steps, j)
  }

  // ---- a step that returned could be passed ----

  ghost predicate PassedOnly(cfg: Setting, h: History) {
    forall k :: 0 <= k < |h| && h[k].StepDone? && h[k].status != Failed ==> PassesIn(cfg, h[k].step)
  }

  lemma RefusedActionFails(cfg: Setting, w: World, step: Step, used: nat, h: History)
    requires step.SystemAction? && !Admitted(cfg, step)
    ensures G.SystemActionNode(cfg, w, step, used, h).end == G.Yields(G.FailedMutation(step))
  {
  }

  lemma PassedInNode(cfg: Setting, w: World, step: Step, state: G.GraphState, answers: seq<string>, h: History, fuel: nat)
    requires step.WellTyped()
    ensures var end := G.Node(cfg, w, step, state, answers, 0, h, fuel).end;
      end.Yields? && end.update.completedSteps != [] && end.update.completedSteps[0].status != Failed ==> PassesIn(cfg, step)
  {
    hide G.SystemActionNode, G.ApprovalNode, G.RevisedNodes, BlastRadiusValid, ProvidersResolved;
    if step.SystemAction? && !Admitted(cfg, step) {
      RefusedActionFails(cfg, w, step, 0, h);
    }
    if step.Conditional? {
      var asked := Ask(w, step, step.condition, h);
      RefusedBranchFails(cfg, w, step.thenStep, state, answers, asked.history, fuel);
      if step.elseStep.Some? {
        RefusedBranchFails(cfg, w, step.elseStep.value, state, answers, asked.history, fuel);
      }
    }
  }

  lemma RefusedBranchFails(cfg: Setting, w: World, branch: Step, state: G.GraphState, answers: seq<string>, h: History, fuel: nat)
    requires !branch.Conditional?
    ensures !Admitted(cfg, branch) ==> G.Node(cfg, w, branch, state, answers, 0, h, fuel).end == G.Yields(G.FailedMutation(branch))
  {
    if !Admitted(cfg, branch) {
      RefusedActionFails(cfg, w, branch, 0, h);
    }
  }

  lemma NodeKeepsPassed(cfg: Setting, w: World, c: G.Config, i: nat, fuel: nat)
    requires WellTypedSteps(c.state.plan.steps) && i < |c.state.plan.steps| && PassedOnly(cfg, c.history)
    ensures PassedOnly(cfg, G.RunNode(cfg, w, fuel, c, i).history)
  {
    hide G.Node, PassesIn;
    var step := c.state.plan.steps[i];
    S.NodeGrows(cfg, w, step, c.state, c.answers, 0, c.history, fuel);
    PassedInNode(cfg, w, step, c.state, c.answers, c.history, fuel);
    G.NodeIsFaithful(cfg, w, step, c.state, c.answers, 0, c.history, fuel);
  }

  lemma {:induction false} RunKeepsPassed(cfg: Setting, w: World, plan: Plan, moves: nat, fuel: nat)
    requires WellTypedSteps(plan.steps)
    ensures PassedOnly(cfg, G.After(cfg, w, G.Start(plan), moves, fuel).history)
  {
    hide G.RunNode, PassesIn;
    if moves > 0 {
      RunKeepsPassed(cfg, w, plan, moves - 1, fuel);
      var c := G.After(cfg, w, G.Start(plan), moves - 1, fuel);
      S.PlanStays(cfg, w, plan, moves - 1, fuel);
      if c.position.At? && c.position.node < |c.state.plan.steps| {
        NodeKeepsPassed(cfg, w, c, c.position.node, fuel);
      }
    }
  }

  /** An approval that was passed was in reach. */
  lemma PassedApprovalWasInReach(cfg: Setting, w: World, plan: Plan, fuel: nat, c: G.Config, k: nat)
    requires WellTypedSteps(plan.steps) && G.Reachable(cfg, w, plan, fuel, c)
    requires k < |c.history| && IsSuccessfulApproval(c.history[k])
    ensures ApprovalInReach(cfg, plan.steps)
  {
    hide PassesIn, G.After;
    var moves: nat :| c == G.After(cfg, w, G.Start(plan), moves, fuel);
    RunKeepsPassed(cfg, w, plan, moves, fuel);
    S.EveryRunIsSequenced(cfg, w, plan, fuel, c.history);
    assert S.InSequence(plan, c.history, k);
    var j :| 0 <= j < |plan.steps| && S.Owned(plan, c.history, k, j);
    forall i | 0 <= i < j
      ensures PassesIn(cfg, plan.steps[i])
    {
      var m := DoneEvent(plan, c.history, k, j, i);
    }
    assert OpenUpTo(cfg, plan.steps, j);
  }

  // ---- a world that lets the plan through ----

  predicate AtStepStart(h: History) {
    h == [] || h[|h| - 1].StepDone?
  }

  /** Every command runs, the agent lets the plan be, and every check holds, except that a conditional
      whose first branch would be refused takes the other way. */
  function Benign(bits: seq<bool>): World {
    World(
      (h, command) => true,
      (h, check) => if AtStepStart(h) && Closed(h) < |bits| && !bits[Closed(h)] then Fails else Holds,
      (h, step) => None,
      (h, step) => "approved",
      (h, state) => Continue)
  }

  ghost predicate TakesFirst(cfg: Setting, step: Step) {
    step.Conditional? ==> Admitted(cfg, step.thenStep)
  }

  ghost function Through(cfg: Setting, steps: seq<Step>): World {
    Benign(seq(|steps|, i requires 0 <= i < |steps| => TakesFirst(cfg, steps[i])))
  }

  /** The history goes on without closing a step. */
  ghost predicate SameStep(h: History, later: History) {
    h <= later && forall k :: |h| <= k < |later| ==> !later[k].StepDone?
  }

  /** From here to the end of the step every check holds. */
  ghost predicate Smooth(w: World, h: History) {
    forall g: History, check :: SameStep(h, g) ==> w.checks(g, check) == Holds
  }

  lemma SmoothOn(w: World, h: History, later: History)
    requires Smooth(w, h) && SameStep(h, later)
    ensures Smooth(w, later)
  {
    assert forall g :: SameStep(later, g) ==> SameStep(h, g);
  }

  lemma StartIsSmooth(cfg: Setting, steps: seq<Step>, i: nat, h: History)
    requires i < |steps| && Closed(h) == i && TakesFirst(cfg, steps[i])
    ensures Smooth(Through(cfg, steps), h)
  {
    hide TakesFirst;
    var w := Through(cfg, steps);
    forall g: History, check | SameStep(h, g)
      ensures w.checks(g, check) == Holds
    {
      ClosedExtends(h, g);
    }
  }

  lemma InsideIsSmooth(cfg: Setting, steps: seq<Step>, h: History)
    requires h != [] && !h[|h| - 1].StepDone?
    ensures Smooth(Through(cfg, steps), h)
  {
    forall g: History | SameStep(h, g)
      ensures !AtStepStart(g)
    {
      assert g[|g| - 1] == h[|h| - 1] || |g| > |h|;
    }
  }

  lemma {:induction false} SmoothChecksHold(w: World, issuer: Step, checks: seq<Check>, h: History)
    requires Smooth(w, h)
    ensures AskAll(w, issuer, checks, h).reply == Holds && Smooth(w, AskAll(w, issuer, checks, h).history)
  {
    if checks != [] {
      var first := Ask(w, issuer, checks[0], h);
      SmoothAskHolds(w, issuer, checks[0], h);
      SmoothOn(w, h, first.history);
      SmoothChecksHold(w, issuer, checks[1..], first.history);
    }
  }

  lemma AdmittedActionPasses(cfg: Setting, w: World, step: Step, h: History)
    requires step.SystemAction? && Admitted(cfg, step) && Smooth(w, h) && forall g, command :: w.runs(g, command)
    ensures G.SystemActionNode(cfg, w, step, 0, h).end == G.Yields(G.Plain(step, Success))
  {
    hide BlastRadiusValid, ProvidersResolved, AskAll, Smooth;
    RequiredCapturesAreTaken(step.before);
    hide RequiredCaptureFailed;
    var captured := h + Taken(step, step.before);
    SmoothOn(w, h, captured);
    SmoothChecksHold(w, step, step.preConditions, captured);
    var pre := AskAll(w, step, step.preConditions, captured);
    var moved := pre.history + [CommandRun(step, step.command, true)] + Moves(step);
    SmoothOn(w, pre.history, moved);
    SmoothAskHolds(w, step, step.successCheck, moved);
  }

  lemma SmoothAskHolds(w: World, issuer: Step, check: Check, h: History)
    requires Smooth(w, h)
    ensures Ask(w, issuer, check, h).reply == Holds
  {
    assert SameStep(h, h);
  }

  /** Every other step but a conditional passes as well. */
  lemma AdmittedStepPasses(cfg: Setting, w: World, step: Step, state: G.GraphState, h: History, fuel: nat)
    requires !step.Conditional? && Admitted(cfg, step) && !cfg.hasHandler
    requires Smooth(w, h) && (forall g, command :: w.runs(g, command)) && forall g, s :: w.replans(g, s) == Continue
    ensures G.Node(cfg, w, step, state, [], 0, h, fuel).end == G.Yields(G.Plain(step, Success))
  {
    hide Admitted, Smooth, Quiet, G.SystemActionNode, G.RevisedNodes;
    if step.SystemAction? {
      AdmittedActionPasses(cfg, w, step, h);
    } else if !step.ReplanningCheckpoint? {
      assert Quiet(step) by { IsQuiet(step); }
      QuietNodePasses(cfg, w, step, state, h, fuel);
    }
  }

  lemma IsQuiet(step: Step)
    requires !step.SystemAction? && !step.ReplanningCheckpoint? && !step.Conditional?
    ensures Quiet(step)
  {
  }

  lemma OpenConditionalPasses(cfg: Setting, steps: seq<Step>, i: nat, state: G.GraphState, h: History, fuel: nat)
    requires i < |steps| && steps[i].Conditional? && steps[i].WellTyped() && PassesIn(cfg, steps[i]) && !cfg.hasHandler
    requires Closed(h) == i && AtStepStart(h)
    ensures Passes(steps[i], G.Node(cfg, Through(cfg, steps), steps[i], state, [], 0, h, fuel))
  {
    hide Through, Smooth, Admitted, G.Node, G.Branch;
    var step, w := steps[i], Through(cfg, steps);
    ThroughAnswers(cfg, steps, i, h, step.condition);
    ConditionalNode(cfg, w, step, state, h, fuel);
    var asked := Ask(w, step, step.condition, h);
    if asked.reply == Holds {
      if IsNoOpCheck(step.condition) {
        StartIsSmooth(cfg, steps, i, h);
      } else {
        InsideIsSmooth(cfg, steps, asked.history);
      }
      AdmittedStepPasses(cfg, w, step.thenStep, state, asked.history, fuel);
      BranchPasses(step, G.Node(cfg, w, step.thenStep, state, [], 0, asked.history, fuel), step.thenStep);
    } else if step.elseStep.Some? {
      InsideIsSmooth(cfg, steps, asked.history);
      AdmittedStepPasses(cfg, w, step.elseStep.value, state, asked.history, fuel);
      BranchPasses(step, G.Node(cfg, w, step.elseStep.value, state, [], 0, asked.history, fuel), step.elseStep.value);
    }
  }

  lemma ThroughAnswers(cfg: Setting, steps: seq<Step>, i: nat, h: History, check: Check)
    requires i < |steps| && Closed(h) == i && AtStepStart(h)
    ensures var w := Through(cfg, steps);
      && w.checks(h, check) == (if TakesFirst(cfg, steps[i]) then Holds else Fails)
      && (forall g, command :: w.runs(g, command)) && (forall g, s :: w.replans(g, s) == Continue)
  {
    hide TakesFirst;
  }

  lemma OpenStepPasses(cfg: Setting, steps: seq<Step>, i: nat, state: G.GraphState, h: History, fuel: nat)
    requires i < |steps| && steps[i].WellTyped() && PassesIn(cfg, steps[i]) && !cfg.hasHandler
    requires Closed(h) == i && AtStepStart(h)
    ensures Passes(steps[i], G.Node(cfg, Through(cfg, steps), steps[i], state, [], 0, h, fuel))
  {
    hide Through, Smooth, Admitted, G.Node;
    var step, w := steps[i], Through(cfg, steps);
    if step.Conditional? {
      OpenConditionalPasses(cfg, steps, i, state, h, fuel);
    } else {
      ThroughAnswers(cfg, steps, i, h, NOOP);
      StartIsSmooth(cfg, steps, i, h);
      AdmittedStepPasses(cfg, w, step, state, h, fuel);
    }
  }

  const NOOP: Check := Check("kind", None, None, "")

  lemma NextOpen(cfg: Setting, plan: Plan, i: nat, c: G.Config, fuel: nat)
    requires i + 1 < |plan.steps| && !cfg.hasHandler && Standing(plan, c, i) && AtStepStart(c.history)
    requires plan.steps[i].WellTyped() && PassesIn(cfg, plan.steps[i])
    ensures var next := G.Advance(cfg, Through(cfg, plan.steps), fuel, c); Standing(plan, next, i + 1) && AtStepStart(next.history)
  {
    hide G.Node, PassesIn, Through;
    var step, w := plan.steps[i], Through(cfg, plan.steps);
    OpenStepPasses(cfg, plan.steps, i, c.state, c.history, fuel);
    S.NodeGrows(cfg, w, step, c.state, [], 0, c.history, fuel);
    var run := G.Node(cfg, w, step, c.state, [], 0, c.history, fuel);
    var status := run.end.update.completedSteps[0].status;
    var state := G.Reduce(c.state, run.end.update);
    assert state.completedSteps[|state.completedSteps| - 1] == run.end.update.completedSteps[0];
    ClosedExtends(c.history, run.history);
    var later := run.history + [StepDone(i, step, status)];
    assert later[..|later| - 1] == run.history;
  }

  lemma {:induction false} ReachesOpen(cfg: Setting, plan: Plan, i: nat, fuel: nat)
    requires i < |plan.steps| && !cfg.hasHandler && WellTypedSteps(plan.steps) && OpenUpTo(cfg, plan.steps, i)
    ensures var c := G.After(cfg, Through(cfg, plan.steps), G.Start(plan), i, fuel); Standing(plan, c, i) && AtStepStart(c.history)
  {
    hide PassesIn, G.Advance, Through;
    if i > 0 {
      ReachesOpen(cfg, plan, i - 1, fuel);
      NextOpen(cfg, plan, i - 1, G.After(cfg, Through(cfg, plan.steps), G.Start(plan), i - 1, fuel), fuel);
    }
  }

  /** In some run of the graph an approval in reach is passed without a human. */
  lemma ApprovalInReachIsPassed(cfg: Setting, plan: Plan, fuel: nat) returns (w: World, c: G.Config)
    requires !cfg.hasHandler && WellTypedSteps(plan.steps) && ApprovalInReach(cfg, plan.steps)
    ensures G.Reachable(cfg, w, plan, fuel, c) && !EveryApprovalResumed(w, c.history)
  {
    hide PassesIn, Through, G.Node;
    w := Through(cfg, plan.steps);
    var j :| 0 <= j < |plan.steps| && plan.steps[j].HumanApproval? && OpenUpTo(cfg, plan.steps, j);
    ReachesOpen(cfg, plan, j, fuel);
    var before := G.After(cfg, w, G.Start(plan), j, fuel);
    c := G.After(cfg, w, G.Start(plan), j + 1, fuel);
    assert c == G.Advance(cfg, w, fuel, before);
    HandlerlessApproval(cfg, w, plan.steps[j], before.state, [], 0, before.history, fuel);
    var k := |before.history| + 1;
    assert IsSuccessfulApproval(c.history[k]) && !DecidedJustBefore(c.history, k);
    assert !ResumeApproved(w, c.history, k);
  }

  /** For a high-risk plan the graph has every approval decided by a human, in every world, exactly when it
      has a handler or the setting refuses a step before each approval. */
  lemma PromiseIsKeptIff(cfg: Setting, plan: Plan)
    requires WellTypedSteps(plan.steps) && HoldsHighRisk(plan.steps)
    ensures (forall w, fuel: nat, c :: G.Reachable(cfg, w, plan, fuel, c) ==> EveryApprovalResumed(w, c.history))
       <==> cfg.hasHandler || !ApprovalInReach(cfg, plan.steps)
  {
    hide G.Reachable, ApprovalInReach, HoldsHighRisk, EveryApprovalResumed;
    if cfg.hasHandler || !ApprovalInReach(cfg, plan.steps) {
      forall w, fuel: nat, c | G.Reachable(cfg, w, plan, fuel, c)
        ensures EveryApprovalResumed(w, c.history)
      {
        if exists k :: 0 <= k < |c.history| && IsSuccessfulApproval(c.history[k]) && !cfg.hasHandler {
          var k :| 0 <= k < |c.history| && IsSuccessfulApproval(c.history[k]);
          PassedApprovalWasInReach(cfg, w, plan, fuel, c, k);
        }
        GraphKeepsThePromiseIff(cfg, w, plan, fuel, c);
      }
    } else {
      var w, c := ApprovalInReachIsPassed(cfg, plan, 0);
    }
  }
}
