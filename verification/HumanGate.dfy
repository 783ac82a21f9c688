/** High-risk plans reach a human: no trust level, catalog or policy approves them. */
module HumanGate {
  import opened Plans
  import opened Risk
  import opened Coordinator
  import opened Runs
  import L = LegacyEngine
  import G = GraphEngine
  import S = Sequencing

  /** Some system action, at top level or in a branch, is of high or critical risk. */
  ghost predicate HoldsHighRisk(steps: seq<Step>) {
    exists i, action :: 0 <= i < |steps| && action in Within(steps[i]) && action.SystemAction? && Rank(action.riskLevel) >= Rank(High)
  }

  lemma HighRiskIsNeverAutomatic(cfg: Setting, plan: Plan)
    requires WellTypedSteps(plan.steps) && HoldsHighRisk(plan.steps)
    ensures !AutoApproves(cfg, plan)
  {
    var i, action :| 0 <= i < |plan.steps| && action in Within(plan.steps[i]) && action.SystemAction? && Rank(action.riskLevel) >= Rank(High);
    PlanRiskCoversEveryAction(plan.steps, i, action);
  }

  /** The trust that counts for a plan: its scenario's override if there is one, else the general level. */
  ghost predicate Trusts(cfg: Setting, plan: Plan, level: TrustLevel) {
    || (plan.scenario in cfg.context.trustOverrides && cfg.context.trustOverrides[plan.scenario] == level)
    || (plan.scenario !in cfg.context.trustOverrides && cfg.context.trustLevel == level)
  }

  /** The whole decision on a plan's fields: a routine plan is approved automatically if its risk is covered or
      trust is more than observing, an elevated one if the policy does not want it decided live and its risk is
      covered or trust is at least autopilot, and no other. */
  lemma AutomaticApprovalIff(cfg: Setting, plan: Plan)
    ensures var risk := PlanRisk(plan.steps);
      AutoApproves(cfg, plan) <==>
        || (risk == Routine && (Routine in cfg.coveredLevels || !Trusts(cfg, plan, Observe)))
        || (risk == Elevated && !cfg.context.requireApprovalForAllElevated
            && (Elevated in cfg.coveredLevels || Trusts(cfg, plan, Autopilot) || Trusts(cfg, plan, FullAutonomy)))
  {
    hide PlanRisk;
  }

  /** Automatic approval is for routine and elevated plans only, and an organisation that wants every
      elevated action decided live gets that whatever the catalog covers. */
  lemma AutomaticApprovalIsBounded(cfg: Setting, plan: Plan)
    requires AutoApproves(cfg, plan)
    ensures Rank(PlanRisk(plan.steps)) <= Rank(Elevated)
    ensures PlanRisk(plan.steps) == Elevated ==> !cfg.context.requireApprovalForAllElevated
  {
  }

  ghost predicate IsSuccessfulApproval(e: Event) {
    e.StepDone? && e.step.HumanApproval? && e.status == Success
  }

  /** The event before `k` records the human's decision on the same step. */
  ghost predicate DecidedJustBefore(h: History, k: nat)
    requires k < |h| && h[k].StepDone?
  {
    k > 0 && h[k - 1].Decided? && h[k - 1].issuer == h[k].step && h[k - 1].byHuman
  }

  ghost predicate PromptApproved(w: World, h: History, k: nat)
    requires k < |h| && h[k].StepDone?
  {
    && DecidedJustBefore(h, k)
    && var answer := w.answers(h[..k - 1], h[k].step);
       answer.Some? && SaysApprove(answer.value)
  }

  ghost predicate ResumeApproved(w: World, h: History, k: nat)
    requires k < |h| && h[k].StepDone?
  {
    && DecidedJustBefore(h, k)
    && h[k - 1].text == w.resumes(h[..k - 1], h[k].step)
    && h[k - 1].text != "rejected" && h[k - 1].text != "skipped"
  }

  ghost predicate EveryApprovalPrompted(w: World, h: History) {
    forall k :: 0 <= k < |h| && IsSuccessfulApproval(h[k]) ==> PromptApproved(w, h, k)
  }

  ghost predicate EveryApprovalResumed(w: World, h: History) {
    forall k :: 0 <= k < |h| && IsSuccessfulApproval(h[k]) ==> ResumeApproved(w, h, k)
  }

  /** Events inside a step leave the claim alone: they close no top-level step. */
  lemma GrowthKeepsPrompted(w: World, step: Step, h: History, later: History)
    requires EveryApprovalPrompted(w, h) && S.Grows(step, h, later)
    ensures EveryApprovalPrompted(w, later)
  {
    forall k | 0 <= k < |later| && IsSuccessfulApproval(later[k])
      ensures PromptApproved(w, later, k)
    {
      assert PromptApproved(w, h, k);
      assert later[..k - 1] == h[..k - 1];
    }
  }

  lemma GrowthKeepsResumed(w: World, step: Step, h: History, later: History)
    requires EveryApprovalResumed(w, h) && S.Grows(step, h, later)
    ensures EveryApprovalResumed(w, later)
  {
    forall k | 0 <= k < |later| && IsSuccessfulApproval(later[k])
      ensures ResumeApproved(w, later, k)
    {
      assert ResumeApproved(w, h, k);
      assert later[..k - 1] == h[..k - 1];
    }
  }

  lemma CloseKeepsPrompted(w: World, h: History, done: Event)
    requires EveryApprovalPrompted(w, h) && done.StepDone?
    requires IsSuccessfulApproval(done) ==> PromptApproved(w, h + [done], |h|)
    ensures EveryApprovalPrompted(w, h + [done])
  {
    var later := h + [done];
    forall k | 0 <= k < |later| && IsSuccessfulApproval(later[k])
      ensures PromptApproved(w, later, k)
    {
      if k < |h| {
        assert PromptApproved(w, h, k);
        assert later[..k - 1] == h[..k - 1];
      }
    }
  }

  lemma CloseKeepsResumed(w: World, h: History, done: Event)
    requires EveryApprovalResumed(w, h) && done.StepDone?
    requires IsSuccessfulApproval(done) ==> ResumeApproved(w, h + [done], |h|)
    ensures EveryApprovalResumed(w, h + [done])
  {
    var later := h + [done];
    forall k | 0 <= k < |later| && IsSuccessfulApproval(later[k])
      ensures ResumeApproved(w, later, k)
    {
      if k < |h| {
        assert ResumeApproved(w, h, k);
        assert later[..k - 1] == h[..k - 1];
      }
    }
  }

  /** What a prompted approval comes to: success if and only if the typed text says approve, a skip if and
      only if it says skip, and failure on everything else, an unanswered prompt included. */
  lemma PromptOutcomeIff(cfg: Setting, w: World, step: Step, plan: Plan, i: nat, h: History, completed: seq<StepResult>, fuel: nat)
    requires !AutoApproves(cfg, plan) && step.HumanApproval?
    ensures var answer, end := w.answers(h, step), L.RunStep(cfg, w, step, plan, i, h, completed, fuel).end;
      && end.Returned? && end.status in {Success, Skipped, Failed}
      && (end.status == Success <==> answer.Some? && SaysApprove(answer.value))
      && (end.status == Skipped <==> answer.Some? && SaysSkip(answer.value))
  {
    hide SaysApprove, SaysSkip, ParseAnswer;
    if w.answers(h, step).Some? {
      AnswerIff(w.answers(h, step).value);
    }
  }

  lemma PromptBacksSuccess(cfg: Setting, w: World, step: Step, plan: Plan, i: nat, h: History, completed: seq<StepResult>, fuel: nat)
    requires !AutoApproves(cfg, plan) && step.HumanApproval?
    ensures var run := L.RunStep(cfg, w, step, plan, i, h, completed, fuel);
      run.end == L.Returned(Success) ==> PromptApproved(w, run.history + [StepDone(i, step, Success)], |run.history|)
  {
    var run := L.RunStep(cfg, w, step, plan, i, h, completed, fuel);
    if run.end == L.Returned(Success) {
      AnswerIff(w.answers(h, step).value);
      var later := run.history + [StepDone(i, step, Success)];
      assert |run.history| == |h| + 1;
      assert later[..|run.history| - 1] == h;
    }
  }

  lemma {:induction false} LegacyRunPrompted(cfg: Setting, w: World, plan: Plan, i: nat, h: History, completed: seq<StepResult>, fuel: nat)
    requires !AutoApproves(cfg, plan) && i <= |plan.steps|
    requires EveryApprovalPrompted(w, h)
    ensures EveryApprovalPrompted(w, L.RunFrom(cfg, w, plan, i, h, completed, fuel).history)
    decreases |plan.steps| - i
  {
    hide L.RunStep, AutoApproves, EveryApprovalPrompted, S.Grows, PromptApproved;
    if i < |plan.steps| {
      var step := plan.steps[i];
      var run := L.RunStep(cfg, w, step, plan, i, h, completed, fuel);
      S.LegacyStepGrows(cfg, w, step, plan, i, h, completed, fuel);
      GrowthKeepsPrompted(w, step, h, run.history);
      if run.end.Returned? {
        if step.HumanApproval? {
          PromptBacksSuccess(cfg, w, step, plan, i, h, completed, fuel);
        }
        var done := StepDone(i, step, run.end.status);
        CloseKeepsPrompted(w, run.history, done);
        if !Halts(step, run.end.status) {
          LegacyRunPrompted(cfg, w, plan, i + 1, run.history + [done], run.completed + [StepResult(step, run.end.status)], fuel);
        }
      }
    }
  }

  /** The decisions a graph position holds for its approval node come from the history it stands at. */
  ghost predicate AnswersFresh(w: World, c: G.Config) {
    && (c.position.At? && c.position.node < |c.state.plan.steps| && c.state.plan.steps[c.position.node].HumanApproval? ==>
          c.answers == [] || c.answers == [w.resumes(c.history, c.state.plan.steps[c.position.node])])
    && (c.position.Awaiting? && c.position.node < |c.state.plan.steps| && c.state.plan.steps[c.position.node].HumanApproval? ==>
          c.answers == [])
  }

  lemma ApprovalNodeResumed(cfg: Setting, w: World, c: G.Config, i: nat, fuel: nat)
    requires cfg.hasHandler && !AutoApproves(cfg, c.state.plan)
    requires c.position == G.At(i) && i < |c.state.plan.steps| && c.state.plan.steps[i].HumanApproval?
    requires EveryApprovalResumed(w, c.history) && AnswersFresh(w, c)
    ensures var next := G.RunNode(cfg, w, fuel, c, i); EveryApprovalResumed(w, next.history) && AnswersFresh(w, next)
  {
    hide AutoApproves, EveryApprovalResumed, S.Grows;
    var step := c.state.plan.steps[i];
    var next := G.RunNode(cfg, w, fuel, c, i);
    if c.answers != [] {
      var decided := c.history + [Decided(step, true, c.answers[0])];
      S.NodeGrows(cfg, w, step, c.state, c.answers, 0, c.history, fuel);
      GrowthKeepsResumed(w, step, c.history, decided);
      var done := StepDone(i, step, G.StatusOfText(c.answers[0]));
      assert next.history == decided + [done];
      assert (decided + [done])[..|decided| - 1] == c.history;
      CloseKeepsResumed(w, decided, done);
    } else {
      assert next.history == c.history && next.position == G.Awaiting(i);
    }
  }

  lemma OtherNodeResumed(cfg: Setting, w: World, c: G.Config, i: nat, fuel: nat)
    requires c.position == G.At(i) && i < |c.state.plan.steps| && !c.state.plan.steps[i].HumanApproval?
    requires EveryApprovalResumed(w, c.history) && AnswersFresh(w, c)
    ensures var next := G.RunNode(cfg, w, fuel, c, i); EveryApprovalResumed(w, next.history) && AnswersFresh(w, next)
  {
    hide G.Node, EveryApprovalResumed, S.Grows;
    var step := c.state.plan.steps[i];
    var run := G.Node(cfg, w, step, c.state, c.answers, 0, c.history, fuel);
    S.NodeGrows(cfg, w, step, c.state, c.answers, 0, c.history, fuel);
    GrowthKeepsResumed(w, step, c.history, run.history);
    if run.end.Yields? {
      var results := run.end.update.completedSteps;
      CloseKeepsResumed(w, run.history, StepDone(i, step, if results == [] then Success else results[0].status));
    }
  }

  lemma {:induction false} GraphRunResumed(cfg: Setting, w: World, plan: Plan, moves: nat, fuel: nat)
    requires cfg.hasHandler && !AutoApproves(cfg, plan)
    ensures var c := G.After(cfg, w, G.Start(plan), moves, fuel); EveryApprovalResumed(w, c.history) && AnswersFresh(w, c)
  {
    hide G.RunNode, AutoApproves, G.StateInvariant;
    if moves > 0 {
      GraphRunResumed(cfg, w, plan, moves - 1, fuel);
      var c := G.After(cfg, w, G.Start(plan), moves - 1, fuel);
      G.ReachableKeepsInvariant(cfg, w, plan, moves - 1, fuel);
      if c.position.At? && c.position.node < |c.state.plan.steps| {
        if c.state.plan.steps[c.position.node].HumanApproval? {
          ApprovalNodeResumed(cfg, w, c, c.position.node, fuel);
        } else {
          OtherNodeResumed(cfg, w, c, c.position.node, fuel);
        }
      }
    }
  }

  /** In every run of a plan that holds a high or critical action, each top-level approval that
      succeeds was answered by a human just before it closed: "approve" at the prompt of the
      sequential engine, and in the graph engine, when it has a handler, a resume string that is
      neither "rejected" nor "skipped". Revised plans may run in between. */
  lemma HumanDecidesHighRisk(cfg: Setting, w: World, plan: Plan, fuel: nat)
    requires WellTypedSteps(plan.steps) && HoldsHighRisk(plan.steps)
    ensures EveryApprovalPrompted(w, L.RunPlan(cfg, w, plan, fuel).history)
    ensures cfg.hasHandler ==> forall c :: G.Reachable(cfg, w, plan, fuel, c) ==> EveryApprovalResumed(w, c.history)
  {
    HighRiskIsNeverAutomatic(cfg, plan);
    LegacyRunPrompted(cfg, w, plan, 0, [], [], fuel);
    if cfg.hasHandler {
      forall c | G.Reachable(cfg, w, plan, fuel, c)
        ensures EveryApprovalResumed(w, c.history)
      {
        var moves: nat :| c == G.After(cfg, w, G.Start(plan), moves, fuel);
        GraphRunResumed(cfg, w, plan, moves, fuel);
      }
    }
  }

  /** The graph reads any unknown string as approval; success means "approved" exactly when the host
      only resumes with the three decision texts or the string happens to be that one. */
  lemma ResumedSuccessIffNotARefusal(cfg: Setting, w: World, step: Step, state: G.GraphState, answer: string, h: History, fuel: nat)
    requires step.HumanApproval? && cfg.hasHandler && !AutoApproves(cfg, state.plan)
    ensures var end := G.Node(cfg, w, step, state, [answer], 0, h, fuel).end;
      end == G.Yields(G.Plain(step, Success)) <==> answer != "rejected" && answer != "skipped"
  {
  }

  /** An approval that asks takes the next decision not yet taken in this node, records it, and leaves the
      others; one that does not ask takes none. */
  lemma EachApprovalTakesOneDecision(cfg: Setting, w: World, step: Step, state: G.GraphState, answers: seq<string>, used: nat,
                                     h: History, fuel: nat)
    requires step.HumanApproval? && used <= |answers|
    ensures var run := G.Node(cfg, w, step, state, answers, used, h, fuel);
      var asks := cfg.hasHandler && !AutoApproves(cfg, state.plan);
      && (!asks ==> run.used == used && run.history == h + [Decided(step, false, "approved")])
      && (asks && used < |answers| ==> run.used == used + 1 && run.history == h + [Decided(step, true, answers[used])])
      && (asks && used == |answers| ==> run.used == used && run.history == h && run.end.Suspends?)
  {
    hide AutoApproves;
  }

  // ---- without a handler ----

  /** Every approval of the plan that closed was approved by the engine itself, just before. */
  ghost predicate AutoClosed(h: History) {
    forall k :: 0 <= k < |h| && h[k].StepDone? && h[k].step.HumanApproval? ==> ClosedByEngine(h, k)
  }

  ghost predicate ClosedByEngine(h: History, k: nat)
    requires k < |h| && h[k].StepDone?
  {
    h[k].status == Success && k > 0 && h[k - 1] == Decided(h[k].step, false, "approved")
  }

  lemma GrowthKeepsAutoClosed(step: Step, h: History, later: History)
    requires AutoClosed(h) && S.Grows(step, h, later)
    ensures AutoClosed(later)
  {
    forall k | 0 <= k < |later| && later[k].StepDone? && later[k].step.HumanApproval?
      ensures ClosedByEngine(later, k)
    {
      assert ClosedByEngine(h, k);
    }
  }

  lemma CloseKeepsAutoClosed(h: History, done: Event)
    requires AutoClosed(h) && done.StepDone?
    requires done.step.HumanApproval? ==> ClosedByEngine(h + [done], |h|)
    ensures AutoClosed(h + [done])
  {
    var later := h + [done];
    forall k | 0 <= k < |later| && later[k].StepDone? && later[k].step.HumanApproval?
      ensures ClosedByEngine(later, k)
    {
      if k < |h| {
        assert ClosedByEngine(h, k);
      }
    }
  }

  lemma HandlerlessNode(cfg: Setting, w: World, c: G.Config, i: nat, fuel: nat)
    requires !cfg.hasHandler && AutoClosed(c.history)
    requires c.position == G.At(i) && i < |c.state.plan.steps|
    ensures AutoClosed(G.RunNode(cfg, w, fuel, c, i).history)
  {
    hide AutoApproves, AutoClosed, S.Grows, G.Node;
    var step := c.state.plan.steps[i];
    var run := G.Node(cfg, w, step, c.state, c.answers, 0, c.history, fuel);
    S.NodeGrows(cfg, w, step, c.state, c.answers, 0, c.history, fuel);
    GrowthKeepsAutoClosed(step, c.history, run.history);
    if run.end.Yields? {
      var results := run.end.update.completedSteps;
      var done := StepDone(i, step, if results == [] then Success else results[0].status);
      if step.HumanApproval? {
        HandlerlessApproval(cfg, w, step, c.state, c.answers, 0, c.history, fuel);
      }
      CloseKeepsAutoClosed(run.history, done);
    }
  }

  /** An approval node without a handler approves, at any depth of nesting. */
  lemma HandlerlessApproval(cfg: Setting, w: World, step: Step, state: G.GraphState, answers: seq<string>, used: nat, h: History, fuel: nat)
    requires !cfg.hasHandler && step.HumanApproval? && used <= |answers|
    ensures G.Node(cfg, w, step, state, answers, used, h, fuel)
         == G.NodeRun(h + [Decided(step, false, "approved")], used, G.Yields(G.Plain(step, Success)))
  {
  }

  lemma {:induction false} HandlerlessRun(cfg: Setting, w: World, plan: Plan, moves: nat, fuel: nat)
    requires !cfg.hasHandler
    ensures AutoClosed(G.After(cfg, w, G.Start(plan), moves, fuel).history)
  {
    hide G.RunNode, AutoClosed;
    if moves > 0 {
      HandlerlessRun(cfg, w, plan, moves - 1, fuel);
      var c := G.After(cfg, w, G.Start(plan), moves - 1, fuel);
      if c.position.At? && c.position.node < |c.state.plan.steps| {
        HandlerlessNode(cfg, w, c, c.position.node, fuel);
      }
    } else {
      assert AutoClosed([]) by { NothingClosed(); }
    }
  }

  lemma NothingClosed()
    ensures AutoClosed([])
  {
  }

  /** Without a handler the graph approves every approval of every plan by itself: in no state it can
      reach has a human decided one. */
  lemma HandlerlessGraphApprovesHighRisk(cfg: Setting, w: World, plan: Plan, fuel: nat, c: G.Config)
    requires !cfg.hasHandler && G.Reachable(cfg, w, plan, fuel, c)
    ensures AutoClosed(c.history)
    ensures forall k :: 0 <= k < |c.history| && IsSuccessfulApproval(c.history[k]) ==> !DecidedJustBefore(c.history, k)
  {
    var moves: nat :| c == G.After(cfg, w, G.Start(plan), moves, fuel);
    HandlerlessRun(cfg, w, plan, moves, fuel);
    forall k | 0 <= k < |c.history| && IsSuccessfulApproval(c.history[k])
      ensures !DecidedJustBefore(c.history, k)
    {
      assert ClosedByEngine(c.history, k);
    }
  }

  ghost predicate NoSuccessfulApproval(h: History) {
    forall k :: 0 <= k < |h| ==> !IsSuccessfulApproval(h[k])
  }

  /** Exactly when the graph keeps the promise for a high-risk plan: with a handler always, without one
      only as long as no approval has been passed. */
  lemma GraphKeepsThePromiseIff(cfg: Setting, w: World, plan: Plan, fuel: nat, c: G.Config)
    requires WellTypedSteps(plan.steps) && HoldsHighRisk(plan.steps) && G.Reachable(cfg, w, plan, fuel, c)
    ensures EveryApprovalResumed(w, c.history) <==> cfg.hasHandler || NoSuccessfulApproval(c.history)
  {
    hide G.Reachable;
    if cfg.hasHandler {
      HumanDecidesHighRisk(cfg, w, plan, fuel);
    } else {
      HandlerlessGraphApprovesHighRisk(cfg, w, plan, fuel, c);
      if k :| 0 <= k < |c.history| && IsSuccessfulApproval(c.history[k]) {
        assert !ResumeApproved(w, c.history, k);
      }
    }
  }

  // ---- approvals inside revised plans ----

  /** The sequential engine judges an approval of a revised plan by the revised plan: if that holds a
      high-risk action, the human is asked, and without an answer the step fails. */
  lemma RevisedApprovalIsPrompted(cfg: Setting, w: World, step: Step, revised: Plan, current: nat, h: History,
                                  completed: seq<StepResult>, fuel: nat)
    requires step.HumanApproval? && WellTypedSteps(revised.steps) && HoldsHighRisk(revised.steps)
    ensures var run := L.RunStep(cfg, w, step, revised, current, h, completed, fuel);
      if w.answers(h, step).None? then run.history == h && run.end == L.Returned(Failed)
      else run.history == h + [Decided(step, true, Recorded(w.answers(h, step).value))]
  {
    hide AutoApproves;
    HighRiskIsNeverAutomatic(cfg, revised);
    if w.answers(h, step).Some? {
      RecordedIff(w.answers(h, step).value);
    }
  }

  /** The node waits for a decision or has just recorded one. */
  ghost predicate AsksHuman(node: G.NodeRun, h: History) {
    node.end.Suspends? || (|node.history| > |h| && node.history[|h|].Decided? && node.history[|h|].byHuman)
  }

  /** The graph judges it by the plan in its state, the outer one: with a handler a human is asked
      exactly when the outer plan is not approved automatically, whatever the revised plan holds. */
  lemma RevisedApprovalAsksIff(cfg: Setting, w: World, step: Step, state: G.GraphState, answers: seq<string>, used: nat, h: History, fuel: nat)
    requires step.HumanApproval? && cfg.hasHandler && used <= |answers|
    ensures AsksHuman(G.Node(cfg, w, step, state, answers, used, h, fuel), h) <==> !AutoApproves(cfg, state.plan)
  {
  }
}
