/** Exactly which plans have a step kind done before any mutation in every run: the gate's promise, its
    limits, and the runs that show them. */
module GateExactness {
  import opened Plans
  import opened Text
  import opened Safety
  import opened Providers
  import opened Runs
  import opened Catalog
  import opened CatalogGate
  import L = LegacyEngine
  import G = GraphEngine
  import S = Sequencing

  /** Whether some run can see a system action act in the step: it is one, it holds a live one with a
      target, or it can hand over to the agent. */
  ghost predicate Acts(step: Step) {
    step.SystemAction? || exists s :: s in S.Live(step) && ActsAlone(s)
  }

  predicate ActsAlone(step: Step) {
    step.ReplanningCheckpoint? || (step.SystemAction? && !Blank(step.target))
  }

  /** Whether some run gets past the step: an action without a target always fails, and so does a
      conditional that cannot avoid one. */
  predicate CanPass(step: Step) {
    if step.Conditional? then
      S.NamesTarget(step.thenStep) ||
      (!IsNoOpCheck(step.condition) && (step.elseStep.None? || S.NamesTarget(step.elseStep.value)))
    else S.NamesTarget(step)
  }

  ghost predicate PassableBefore(steps: seq<Step>, j: nat)
    requires j <= |steps|
  {
    forall i :: 0 <= i < j ==> CanPass(steps[i])
  }

  ghost predicate KindBefore(steps: seq<Step>, kind: string, j: nat)
    requires j <= |steps|
  {
    exists i :: 0 <= i < j && KindOf(steps[i]) == kind
  }

  /** Before every step that can be reached and can act there is a step of the kind. */
  ghost predicate GuardStands(steps: seq<Step>, kind: string) {
    forall j :: 0 <= j < |steps| && Acts(steps[j]) && PassableBefore(steps, j) ==> KindBefore(steps, kind, j)
  }

  ghost predicate Guarded(plan: Plan, h: History, kind: string) {
    forall k :: 0 <= k < |h| && ConcernsMutation(h[k]) ==> KindDoneBefore(plan, h, k, kind)
  }

  /** In every run of either engine, whatever the setting and the world. */
  ghost predicate EveryRunGuarded(plan: Plan, kind: string) {
    forall cfg: Setting, w: World, fuel: nat, h: History :: S.Shown(cfg, w, plan, fuel, h) ==> Guarded(plan, h, kind)
  }

  // ---- a step that returned could be passed ----

  ghost predicate PassesOnly(h: History) {
    forall k :: 0 <= k < |h| && h[k].StepDone? && h[k].status != Failed ==> CanPass(h[k].step)
  }

  lemma ActionFailsWithoutTarget(cfg: Setting, w: World, step: Step, h: History)
    requires step.SystemAction? && Blank(step.target)
    ensures L.ActionRun(cfg, w, step, h).end == L.Returned(Failed)
    ensures forall used :: G.SystemActionNode(cfg, w, step, used, h).end == G.Yields(G.FailedMutation(step))
  {
    NormalizesToEmpty(step.target);
  }

  lemma LegacyPassed(cfg: Setting, w: World, step: Step, plan: Plan, current: nat, h: History, completed: seq<StepResult>, fuel: nat)
    requires step.WellTyped()
    ensures var end := L.RunStep(cfg, w, step, plan, current, h, completed, fuel).end;
      end.Returned? && end.status != Failed ==> CanPass(step)
  {
    hide L.ActionRun, L.ApprovalRun, L.RunRevised;
    if step.SystemAction? && Blank(step.target) {
      ActionFailsWithoutTarget(cfg, w, step, h);
    }
    if step.Conditional? {
      var asked := Ask(w, step, step.condition, h);
      if step.thenStep.SystemAction? && Blank(step.thenStep.target) {
        ActionFailsWithoutTarget(cfg, w, step.thenStep, asked.history);
      }
      if step.elseStep.Some? && step.elseStep.value.SystemAction? && Blank(step.elseStep.value.target) {
        ActionFailsWithoutTarget(cfg, w, step.elseStep.value, asked.history);
      }
    }
  }

  lemma NodePassed(cfg: Setting, w: World, step: Step, state: G.GraphState, answers: seq<string>, h: History, fuel: nat)
    requires step.WellTyped()
    ensures var end := G.Node(cfg, w, step, state, answers, 0, h, fuel).end;
      end.Yields? && end.update.completedSteps != [] && end.update.completedSteps[0].status != Failed ==> CanPass(step)
  {
    hide G.SystemActionNode, G.ApprovalNode, G.RevisedNodes;
    if step.SystemAction? && Blank(step.target) {
      ActionFailsWithoutTarget(cfg, w, step, h);
    }
    if step.Conditional? {
      var asked := Ask(w, step, step.condition, h);
      if step.thenStep.SystemAction? && Blank(step.thenStep.target) {
        ActionFailsWithoutTarget(cfg, w, step.thenStep, asked.history);
      }
      if step.elseStep.Some? && step.elseStep.value.SystemAction? && Blank(step.elseStep.value.target) {
        ActionFailsWithoutTarget(cfg, w, step.elseStep.value, asked.history);
      }
    }
  }

  lemma GrowthKeepsPasses(step: Step, h: History, later: History)
    requires PassesOnly(h) && S.Grows(step, h, later)
    ensures PassesOnly(later)
  {
  }

  lemma {:induction false} LegacyRunPasses(cfg: Setting, w: World, plan: Plan, i: nat, h: History, completed: seq<StepResult>, fuel: nat)
    requires WellTypedSteps(plan.steps) && i <= |plan.steps| && PassesOnly(h)
    ensures PassesOnly(L.RunFrom(cfg, w, plan, i, h, completed, fuel).history)
    decreases |plan.steps| - i
  {
    hide L.RunStep, S.Grows, CanPass;
    if i < |plan.steps| {
      var step := plan.steps[i];
      var run := L.RunStep(cfg, w, step, plan, i, h, completed, fuel);
      S.LegacyStepGrows(cfg, w, step, plan, i, h, completed, fuel);
      GrowthKeepsPasses(step, h, run.history);
      LegacyPassed(cfg, w, step, plan, i, h, completed, fuel);
      if run.end.Returned? && !Halts(step, run.end.status) {
        LegacyRunPasses(cfg, w, plan, i + 1, run.history + [StepDone(i, step, run.end.status)],
                        run.completed + [StepResult(step, run.end.status)], fuel);
      }
    }
  }

  lemma NodeRunPasses(cfg: Setting, w: World, c: G.Config, i: nat, fuel: nat)
    requires WellTypedSteps(c.state.plan.steps) && i < |c.state.plan.steps| && PassesOnly(c.history)
    ensures PassesOnly(G.RunNode(cfg, w, fuel, c, i).history)
  {
    hide G.Node, S.Grows, CanPass;
    var step := c.state.plan.steps[i];
    S.NodeGrows(cfg, w, step, c.state, c.answers, 0, c.history, fuel);
    GrowthKeepsPasses(step, c.history, G.Node(cfg, w, step, c.state, c.answers, 0, c.history, fuel).history);
    NodePassed(cfg, w, step, c.state, c.answers, c.history, fuel);
    G.NodeIsFaithful(cfg, w, step, c.state, c.answers, 0, c.history, fuel);
  }

  lemma {:induction false} GraphRunPasses(cfg: Setting, w: World, plan: Plan, moves: nat, fuel: nat)
    requires WellTypedSteps(plan.steps)
    ensures PassesOnly(G.After(cfg, w, G.Start(plan), moves, fuel).history)
  {
    hide G.RunNode, PassesOnly;
    if moves > 0 {
      GraphRunPasses(cfg, w, plan, moves - 1, fuel);
      var c := G.After(cfg, w, G.Start(plan), moves - 1, fuel);
      S.PlanStays(cfg, w, plan, moves - 1, fuel);
      if c.position.At? && c.position.node < |c.state.plan.steps| {
        NodeRunPasses(cfg, w, c, c.position.node, fuel);
      }
    } else {
      NothingPassed();
    }
  }

  lemma NothingPassed()
    ensures PassesOnly([])
  {
  }

  lemma EveryRunPasses(cfg: Setting, w: World, plan: Plan, fuel: nat, h: History)
    requires WellTypedSteps(plan.steps) && S.Shown(cfg, w, plan, fuel, h)
    ensures PassesOnly(h)
  {
    hide PassesOnly;
    NothingPassed();
    LegacyRunPasses(cfg, w, plan, 0, [], [], fuel);
    if c :| G.Reachable(cfg, w, plan, fuel, c) && h == c.history {
      var moves: nat :| c == G.After(cfg, w, G.Start(plan), moves, fuel);
      GraphRunPasses(cfg, w, plan, moves, fuel);
    }
  }

  // ---- where the guard stands, every run is guarded ----

  lemma ActingStepOwns(plan: Plan, h: History, k: nat, j: nat)
    requires k < |h| && j < |plan.steps| && S.Owned(plan, h, k, j) && ConcernsMutation(h[k])
    ensures Acts(plan.steps[j])
  {
    if !h[k].StepDone? {
      if S.Settled(plan.steps[j]) {
        assert h[k].issuer in S.Live(plan.steps[j]) && ActsAlone(h[k].issuer);
      } else {
        var s :| s in S.Live(plan.steps[j]) && s.ReplanningCheckpoint?;
        assert ActsAlone(s);
      }
    }
  }

  lemma StandingGuardGuards(cfg: Setting, w: World, plan: Plan, kind: string, fuel: nat, h: History)
    requires WellTypedSteps(plan.steps) && GuardStands(plan.steps, kind) && S.Shown(cfg, w, plan, fuel, h)
    ensures Guarded(plan, h, kind)
  {
    hide S.Shown, Acts, CanPass;
    S.EveryRunIsSequenced(cfg, w, plan, fuel, h);
    EveryRunPasses(cfg, w, plan, fuel, h);
    forall k | 0 <= k < |h| && ConcernsMutation(h[k])
      ensures KindDoneBefore(plan, h, k, kind)
    {
      assert S.InSequence(plan, h, k);
      var j :| 0 <= j < |plan.steps| && S.Owned(plan, h, k, j);
      ActingStepOwns(plan, h, k, j);
      forall i | 0 <= i < j
        ensures CanPass(plan.steps[i])
      {
        var _ := DoneEvent(plan, h, k, j, i);
      }
      assert PassableBefore(plan.steps, j);
      assert KindBefore(plan.steps, kind, j);
      var i :| 0 <= i < j && KindOf(plan.steps[i]) == kind;
      var m := DoneEvent(plan, h, k, j, i);
    }
  }

  /** The event that closed an earlier step. */
  lemma DoneEvent(plan: Plan, h: History, k: nat, j: nat, i: nat) returns (m: nat)
    requires k < |h| && i < j < |plan.steps| && S.Owned(plan, h, k, j)
    ensures m < k && h[m].StepDone? && h[m].index == i && h[m].step == plan.steps[i] && h[m].status != Failed
  {
    assert S.DoneBefore(plan, h, k, i);
    m :| 0 <= m < k && m < |h| && h[m].StepDone? && h[m].index == i && h[m].step == plan.steps[i]
         && !Halts(h[m].step, h[m].status) && h[m].status != RolledBack;
  }

  // ---- where it does not, some run is not ----

  /** The setting in which nothing stands in an action's way: its context is declared with its own
      target, one provider serves all it asks for, and no approval handler is installed. */
  function Welcoming(a: Step): Setting
    requires a.SystemAction?
  {
    var context := ContextDeclaration(a.executionContext, a.target, a.requiredCapabilities);
    Setting(
      Execute, Manifest([context], []), AgentContext(None, [], Observe, map[], false), [],
      map capability | capability in a.requiredCapabilities :: [a.target],
      [Provider("provider", a.requiredCapabilities, [a.executionContext], [a.target], [a.command.kind], true, true)],
      false)
  }

  lemma WelcomingResolves(a: Step)
    requires a.SystemAction?
    ensures ProvidersResolved(Welcoming(a), a)
  {
    var cfg := Welcoming(a);
    var context := FindContext(cfg.manifest.executionContexts, a.executionContext);
    forall i | 0 <= i < |a.requiredCapabilities|
      ensures ResolveStep(a, cfg.manifest, cfg.registry, cfg.providers, cfg.mode)[i].Resolved?
    {
      var capability := a.requiredCapabilities[i];
      ResolutionIsFirstSuited(capability, a, context, cfg.registry, cfg.providers, cfg.mode);
      assert capability in a.requiredCapabilities;
      assert Suits(cfg.providers[0], capability, a, a.target, cfg.mode);
    }
  }

  lemma WelcomingAccepts(a: Step)
    requires a.SystemAction? && !Blank(a.target)
    ensures BlastRadiusValid(a, Welcoming(a).manifest, Welcoming(a).context)
  {
    hide Normalize, Contains;
    var cfg := Welcoming(a);
    NormalizesToEmpty(a.target);
    assert DeclaredReference(a, cfg.manifest, a.target, a.target);
    assert KnownReference(a, cfg.manifest, cfg.context, a.target, Normalize(a.target));
  }

  /** An action in its own setting leaves an event, whatever the world answers. */
  lemma WelcomeActionActs(w: World, a: Step, used: nat, h: History)
    requires a.SystemAction? && !Blank(a.target)
    ensures ShowsMutation(h, G.SystemActionNode(Welcoming(a), w, a, used, h).history)
  {
    hide BlastRadiusValid, ProvidersResolved, AskAll, Welcoming;
    var cfg := Welcoming(a);
    WelcomingAccepts(a);
    WelcomingResolves(a);
    RequiredCapturesAreTaken(a.before);
    hide RequiredCaptureFailed;
    assert cfg.mode == Execute by { WelcomingExecutes(a); }
    var captured := h + Taken(a, a.before);
    var pre := AskAll(w, a, a.preConditions, captured);
    AskAllStopsWithAnEvent(w, a, a.preConditions, captured);
    var later := G.SystemActionNode(cfg, w, a, used, h).history;
    assert |later| > |h|;
    S.ActionNodeGrows(cfg, w, a, used, h);
    assert S.Live(a) == {a} && S.Settled(a);
    assert later[|h|].issuer in S.Live(a);
    assert ConcernsMutation(later[|h|]);
  }

  lemma WelcomingExecutes(a: Step)
    requires a.SystemAction?
    ensures Welcoming(a).mode == Execute && !Welcoming(a).hasHandler
  {
  }

  lemma {:induction false} AskAllStopsWithAnEvent(w: World, issuer: Step, checks: seq<Check>, h: History)
    ensures |AskAll(w, issuer, checks, h).history| >= |h|
    ensures AskAll(w, issuer, checks, h).reply != Holds ==> |AskAll(w, issuer, checks, h).history| > |h|
  {
    if checks != [] {
      var first := Ask(w, issuer, checks[0], h);
      if first.reply == Holds {
        AskAllStopsWithAnEvent(w, issuer, checks[1..], first.history);
      }
    }
  }

  /** The action the agent is made to propose. */
  const PROBE: Step := SystemAction(
    "probe", "context", "target", Routine, [], Command("kind", None, None, None, None), [], [], [],
    Check("kind", None, None, ""), None, BlastRadius([], []), None)

  function Closed(h: History): nat {
    if h == [] then 0 else Closed(h[..|h| - 1]) + if h[|h| - 1].StepDone? then 1 else 0
  }

  lemma {:induction false} ClosedExtends(h: History, later: History)
    requires h <= later && forall k :: |h| <= k < |later| ==> !later[k].StepDone?
    ensures Closed(later) == Closed(h)
    decreases |later|
  {
    if |later| > |h| {
      ClosedExtends(h, later[..|later| - 1]);
    } else {
      assert later == h;
    }
  }

  /** The world that answers the checks of the i-th step by the i-th bit, runs every command, and has an
      agent that always wants the probe. */
  function Scripted(bits: seq<bool>, revised: Plan): World {
    World(
      (h, command) => true,
      (h, check) => if Closed(h) < |bits| && bits[Closed(h)] then Holds else Fails,
      (h, step) => None,
      (h, step) => "approved",
      (h, state) => Revise(revised))
  }

  predicate BitOf(step: Step, acting: bool) {
    step.Conditional? ==> if acting then ActsAlone(step.thenStep) else S.NamesTarget(step.thenStep)
  }

  function BitsFor(steps: seq<Step>, j: nat): seq<bool>
    requires j < |steps|
  {
    seq(j + 1, i requires 0 <= i <= j => BitOf(steps[i], i == j))
  }

  function Escape(plan: Plan, j: nat): World
    requires j < |plan.steps|
  {
    Scripted(BitsFor(plan.steps, j), plan.(steps := [PROBE]))
  }

  /** Standing before node `i` with nothing closed but the steps before it. */
  ghost predicate Standing(plan: Plan, c: G.Config, i: nat) {
    && c.position == G.At(i) && i < |plan.steps| && c.state.plan == plan && c.answers == []
    && Closed(c.history) == i
    && forall m :: 0 <= m < |c.history| && c.history[m].StepDone? ==> c.history[m].index < i
  }

  predicate Quiet(step: Step) {
    step.DiagnosisAction? || step.HumanNotification? || step.HumanApproval? || step.Checkpoint?
  }

  lemma QuietNodePasses(cfg: Setting, w: World, step: Step, state: G.GraphState, h: History, fuel: nat)
    requires Quiet(step) && !cfg.hasHandler && forall g, c :: w.runs(g, c)
    ensures G.Node(cfg, w, step, state, [], 0, h, fuel).end == G.Yields(G.Plain(step, Success))
  {
    hide AutoApproves;
    if step.Checkpoint? {
      RequiredCapturesAreTaken(step.captures);
    }
  }

  /** The branch the bit selects. */
  lemma AskedByBit(plan: Plan, j: nat, i: nat, step: Step, h: History)
    requires i <= j < |plan.steps| && plan.steps[i] == step && step.Conditional? && Closed(h) == i
    ensures var asked := Ask(Escape(plan, j), step, step.condition, h);
      && asked.reply == (if IsNoOpCheck(step.condition) || BitOf(step, i == j) then Holds else Fails)
      && h <= asked.history && Closed(asked.history) == i
  {
    ClosedExtends(h, Ask(Escape(plan, j), step, step.condition, h).history);
  }

  lemma QuietBranch(branch: Step)
    requires !branch.Conditional? && !ActsAlone(branch) && S.NamesTarget(branch)
    ensures Quiet(branch)
  {
  }

  /** The node yields one result for the step, and it does not stop the graph. */
  ghost predicate Passes(step: Step, run: G.NodeRun) {
    && run.end.Yields? && |run.end.update.completedSteps| == 1
    && run.end.update.completedSteps[0].step == step
    && !Halts(step, run.end.update.completedSteps[0].status)
  }

  lemma BranchPasses(step: Step, run: G.NodeRun, branch: Step)
    requires step.Conditional? && run.end == G.Yields(G.Plain(branch, Success))
    ensures Passes(step, G.Branch(step, run))
  {
  }

  /** The conditional is its taken branch, relabelled, or a skip. */
  lemma ConditionalNode(cfg: Setting, w: World, step: Step, state: G.GraphState, h: History, fuel: nat)
    requires step.Conditional?
    ensures var asked := Ask(w, step, step.condition, h);
      var run := G.Node(cfg, w, step, state, [], 0, h, fuel);
      && (asked.reply == Holds ==> run == G.Branch(step, G.Node(cfg, w, step.thenStep, state, [], 0, asked.history, fuel)))
      && (asked.reply == Fails && step.elseStep.Some? ==>
            run == G.Branch(step, G.Node(cfg, w, step.elseStep.value, state, [], 0, asked.history, fuel)))
      && (asked.reply == Fails && step.elseStep.None? ==> run.end == G.Yields(G.Plain(step, Skipped)))
  {
    hide Ask, G.Branch, G.SystemActionNode, G.ApprovalNode, G.RevisedNodes;
  }

  lemma QuietBranchPasses(cfg: Setting, plan: Plan, j: nat, step: Step, branch: Step, state: G.GraphState, h: History)
    requires j < |plan.steps| && !cfg.hasHandler && step.Conditional? && Quiet(branch)
    ensures Passes(step, G.Branch(step, G.Node(cfg, Escape(plan, j), branch, state, [], 0, h, 1)))
  {
    hide G.Node, Escape, Quiet;
    EscapeRuns(plan, j);
    QuietNodePasses(cfg, Escape(plan, j), branch, state, h, 1);
    BranchPasses(step, G.Node(cfg, Escape(plan, j), branch, state, [], 0, h, 1), branch);
  }

  lemma PassableConditionalPasses(cfg: Setting, plan: Plan, j: nat, i: nat, state: G.GraphState, h: History)
    requires i < j < |plan.steps| && !cfg.hasHandler && Closed(h) == i && plan.steps[i].Conditional?
    requires plan.steps[i].WellTyped() && !Acts(plan.steps[i]) && CanPass(plan.steps[i])
    ensures Passes(plan.steps[i], G.Node(cfg, Escape(plan, j), plan.steps[i], state, [], 0, h, 1))
  {
    hide Escape, Quiet, G.Branch, G.Node;
    var step, w := plan.steps[i], Escape(plan, j);
    AskedByBit(plan, j, i, step, h);
    ConditionalNode(cfg, w, step, state, h, 1);
    var asked := Ask(w, step, step.condition, h);
    hide Ask;
    assert step.thenStep in S.Live(step);
    if asked.reply == Holds {
      QuietBranch(step.thenStep);
      QuietBranchPasses(cfg, plan, j, step, step.thenStep, state, asked.history);
    } else if step.elseStep.Some? {
      assert step.elseStep.value in S.Live(step);
      QuietBranch(step.elseStep.value);
      QuietBranchPasses(cfg, plan, j, step, step.elseStep.value, state, asked.history);
    }
  }

  lemma EscapeRuns(plan: Plan, j: nat)
    requires j < |plan.steps|
    ensures forall h, command :: Escape(plan, j).runs(h, command)
  {
  }

  /** A step that cannot act and can be passed is passed. */
  lemma PassableStepPasses(cfg: Setting, plan: Plan, j: nat, i: nat, state: G.GraphState, h: History)
    requires i < j < |plan.steps| && !cfg.hasHandler && Closed(h) == i
    requires plan.steps[i].WellTyped() && !Acts(plan.steps[i]) && CanPass(plan.steps[i])
    ensures Passes(plan.steps[i], G.Node(cfg, Escape(plan, j), plan.steps[i], state, [], 0, h, 1))
  {
    hide G.Node, Escape;
    var step := plan.steps[i];
    if step.Conditional? {
      PassableConditionalPasses(cfg, plan, j, i, state, h);
    } else {
      assert step in S.Live(step) && !ActsAlone(step);
      QuietBranch(step);
      EscapeRuns(plan, j);
      QuietNodePasses(cfg, Escape(plan, j), step, state, h, 1);
    }
  }

  lemma NextStanding(cfg: Setting, plan: Plan, j: nat, i: nat, c: G.Config)
    requires i < j < |plan.steps| && !cfg.hasHandler && Standing(plan, c, i)
    requires plan.steps[i].WellTyped() && !Acts(plan.steps[i]) && CanPass(plan.steps[i])
    ensures Standing(plan, G.Advance(cfg, Escape(plan, j), 1, c), i + 1)
  {
    hide G.Node, Acts, CanPass;
    var step, w := plan.steps[i], Escape(plan, j);
    PassableStepPasses(cfg, plan, j, i, c.state, c.history);
    S.NodeGrows(cfg, w, step, c.state, [], 0, c.history, 1);
    var run := G.Node(cfg, w, step, c.state, [], 0, c.history, 1);
    var status := run.end.update.completedSteps[0].status;
    var state := G.Reduce(c.state, run.end.update);
    assert state.completedSteps[|state.completedSteps| - 1] == run.end.update.completedSteps[0];
    ClosedExtends(c.history, run.history);
    var later := run.history + [StepDone(i, step, status)];
    assert later[..|later| - 1] == run.history;
  }

  lemma {:induction false} ReachesStep(cfg: Setting, plan: Plan, j: nat, i: nat)
    requires i <= j < |plan.steps| && !cfg.hasHandler && WellTypedSteps(plan.steps)
    requires PassableBefore(plan.steps, j) && forall m :: 0 <= m < j ==> !Acts(plan.steps[m])
    ensures Standing(plan, G.After(cfg, Escape(plan, j), G.Start(plan), i, 1), i)
  {
    hide Acts, CanPass, G.Advance, Escape;
    if i > 0 {
      ReachesStep(cfg, plan, j, i - 1);
      NextStanding(cfg, plan, j, i - 1, G.After(cfg, Escape(plan, j), G.Start(plan), i - 1, 1));
    }
  }

  /** The action that shows the step acting: the step itself, its live branch, or the probe. */
  function Actor(step: Step): Step {
    if step.SystemAction? then step
    else if step.Conditional? && ActsAlone(step.thenStep) && step.thenStep.SystemAction? then step.thenStep
    else if step.Conditional? && !ActsAlone(step.thenStep) && step.elseStep.Some? && step.elseStep.value.SystemAction? then step.elseStep.value
    else PROBE
  }

  lemma ProbeHasATarget()
    ensures PROBE.SystemAction? && !Blank(PROBE.target)
  {
    assert PROBE.target[0] == 't' && !IsSpace('t');
  }

  ghost predicate ShowsMutation(h: History, later: History) {
    exists k :: |h| <= k < |later| && ConcernsMutation(later[k])
  }

  lemma ShownEarlier(h: History, middle: History, later: History)
    requires |h| <= |middle| && ShowsMutation(middle, later)
    ensures ShowsMutation(h, later)
  {
  }

  /** An alone-acting step leaves an event of a system action. */
  lemma AloneActs(plan: Plan, j: nat, actor: Step, step: Step, state: G.GraphState, h: History)
    requires j < |plan.steps| && ActsAlone(step)
    requires actor == if step.SystemAction? then step else PROBE
    ensures actor.SystemAction?
    ensures ShowsMutation(h, G.Node(Welcoming(actor), Escape(plan, j), step, state, [], 0, h, 1).history)
  {
    hide G.SystemActionNode, G.RevisedNodes, Welcoming, ShowsMutation;
    var w := Escape(plan, j);
    ProbeHasATarget();
    if step.SystemAction? {
      WelcomeActionActs(w, step, 0, h);
    } else {
      var replied := h + Taken(step, step.captures) + [AgentAsked(step)];
      ProbeRuns(w, step, state, replied);
      ShownEarlier(h, replied, G.RevisedNodes(Welcoming(PROBE), w, step, [PROBE], state, [], 0, replied, 0).history);
    }
  }

  lemma ProbeRuns(w: World, step: Step, state: G.GraphState, replied: History)
    requires step.ReplanningCheckpoint?
    ensures PROBE.SystemAction?
    ensures ShowsMutation(replied, G.RevisedNodes(Welcoming(PROBE), w, step, [PROBE], state, [], 0, replied, 0).history)
  {
    hide G.SystemActionNode, Welcoming;
    ProbeHasATarget();
    WelcomeActionActs(w, PROBE, 0, replied);
    var run := G.Node(Welcoming(PROBE), w, PROBE, state, [], 0, replied, 0);
    assert run == G.SystemActionNode(Welcoming(PROBE), w, PROBE, 0, replied);
    assert [PROBE][1..] == [];
    if run.end.Yields? {
      assert G.RevisedNodes(Welcoming(PROBE), w, step, [], state, [], run.used, run.history, 0).history == run.history;
    }
  }

  lemma ActingBranch(step: Step)
    requires step.Conditional? && step.WellTyped() && Acts(step)
    ensures ActsAlone(step.thenStep) || (step.elseStep.Some? && !IsNoOpCheck(step.condition) && ActsAlone(step.elseStep.value))
  {
    assert S.Live(step.thenStep) == {step.thenStep};
    assert step.elseStep.Some? ==> S.Live(step.elseStep.value) == {step.elseStep.value};
  }

  lemma ActingConditionalActs(plan: Plan, j: nat, state: G.GraphState, h: History)
    requires j < |plan.steps| && Closed(h) == j && plan.steps[j].Conditional?
    requires plan.steps[j].WellTyped() && Acts(plan.steps[j])
    ensures Actor(plan.steps[j]).SystemAction?
    ensures ShowsMutation(h, G.Node(Welcoming(Actor(plan.steps[j])), Escape(plan, j), plan.steps[j], state, [], 0, h, 1).history)
  {
    hide Welcoming, Escape, ShowsMutation, G.SystemActionNode, G.ApprovalNode, G.RevisedNodes;
    var step, w := plan.steps[j], Escape(plan, j);
    ActingBranch(step);
    hide Acts;
    AskedByBit(plan, j, j, step, h);
    var asked := Ask(w, step, step.condition, h);
    hide Ask;
    var branch := if ActsAlone(step.thenStep) then step.thenStep else step.elseStep.value;
    AloneActs(plan, j, Actor(step), branch, state, asked.history);
    ConditionalNode(Welcoming(Actor(step)), w, step, state, h, 1);
    ShownEarlier(h, asked.history, G.Node(Welcoming(Actor(step)), w, branch, state, [], 0, asked.history, 1).history);
  }

  lemma ActingStepActs(plan: Plan, j: nat, state: G.GraphState, h: History)
    requires j < |plan.steps| && Closed(h) == j
    requires plan.steps[j].WellTyped() && Acts(plan.steps[j]) && !plan.steps[j].SystemAction?
    ensures Actor(plan.steps[j]).SystemAction?
    ensures ShowsMutation(h, G.Node(Welcoming(Actor(plan.steps[j])), Escape(plan, j), plan.steps[j], state, [], 0, h, 1).history)
  {
    hide Welcoming, Escape, ShowsMutation, G.Node;
    var step := plan.steps[j];
    if step.Conditional? {
      ActingConditionalActs(plan, j, state, h);
    } else {
      AloneActs(plan, j, Actor(step), step, state, h);
    }
  }

  /** A top-level action is closed, or stops the graph with an event of its own. */
  lemma TopActionShows(cfg: Setting, w: World, step: Step, h: History)
    requires step.SystemAction?
    ensures var run := G.SystemActionNode(cfg, w, step, 0, h);
      run.end.Yields? || |run.history| > |h|
  {
    hide BlastRadiusValid, ProvidersResolved, RequiredCaptureFailed, AskAll;
    AskAllStopsWithAnEvent(w, step, step.preConditions, h + Taken(step, step.before));
  }

  lemma NodeOfAction(cfg: Setting, w: World, step: Step, state: G.GraphState, h: History, fuel: nat)
    requires step.SystemAction?
    ensures G.Node(cfg, w, step, state, [], 0, h, fuel) == G.SystemActionNode(cfg, w, step, 0, h)
  {
  }

  lemma ReachedStepShows(plan: Plan, j: nat, c: G.Config)
    requires j < |plan.steps| && WellTypedSteps(plan.steps) && Standing(plan, c, j) && Acts(plan.steps[j])
    ensures Actor(plan.steps[j]).SystemAction?
    ensures ShowsMutation(c.history, G.Advance(Welcoming(Actor(plan.steps[j])), Escape(plan, j), 1, c).history)
  {
    hide Acts, Welcoming, Escape, G.Node;
    var step, cfg, w := plan.steps[j], Welcoming(Actor(plan.steps[j])), Escape(plan, j);
    var run := G.Node(cfg, w, step, c.state, [], 0, c.history, 1);
    var later := G.Advance(cfg, w, 1, c).history;
    assert run.history <= later;
    if step.SystemAction? {
      NodeOfAction(cfg, w, step, c.state, c.history, 1);
      TopActionShows(cfg, w, step, c.history);
      if run.end.Yields? {
        assert ConcernsMutation(later[|later| - 1]);
        S.NodeGrows(cfg, w, step, c.state, [], 0, c.history, 1);
      } else {
        S.ActionNodeGrows(cfg, w, step, 0, c.history);
        assert S.Live(step) == {step} && S.Settled(step);
        assert ConcernsMutation(later[|c.history|]);
      }
    } else {
      ActingStepActs(plan, j, c.state, c.history);
      var k :| |c.history| <= k < |run.history| && ConcernsMutation(run.history[k]);
      assert ConcernsMutation(later[k]);
    }
  }

  /** The first step that can act, with no step of the kind before it, acts unguarded in some run. */
  lemma SomeRunEscapes(plan: Plan, kind: string, j: nat)
    requires j < |plan.steps| && WellTypedSteps(plan.steps)
    requires Acts(plan.steps[j]) && PassableBefore(plan.steps, j) && !KindBefore(plan.steps, kind, j)
    requires forall m :: 0 <= m < j ==> !Acts(plan.steps[m])
    ensures !EveryRunGuarded(plan, kind)
  {
    hide Acts, CanPass, Welcoming, Escape, G.Node, EveryRunGuarded, S.Shown, Guarded;
    var cfg, w := Welcoming(Actor(plan.steps[j])), Escape(plan, j);
    WelcomingExecutes(Actor(plan.steps[j]));
    ReachesStep(cfg, plan, j, j);
    var c := G.After(cfg, w, G.Start(plan), j, 1);
    ReachedStepShows(plan, j, c);
    ReachedStepIsUnguarded(cfg, w, plan, kind, j, c);
    OneMoreMove(cfg, w, plan, j, 1);
    UnguardedRunRefutes(cfg, w, plan, kind, 1, G.Advance(cfg, w, 1, c).history);
  }

  lemma OneMoreMove(cfg: Setting, w: World, plan: Plan, moves: nat, fuel: nat)
    ensures S.Shown(cfg, w, plan, fuel, G.Advance(cfg, w, fuel, G.After(cfg, w, G.Start(plan), moves, fuel)).history)
  {
    hide G.Advance;
    var later := G.After(cfg, w, G.Start(plan), moves + 1, fuel);
    assert later == G.Advance(cfg, w, fuel, G.After(cfg, w, G.Start(plan), moves, fuel));
    assert G.Reachable(cfg, w, plan, fuel, later);
  }

  lemma ReachedStepIsUnguarded(cfg: Setting, w: World, plan: Plan, kind: string, j: nat, c: G.Config)
    requires Standing(plan, c, j) && !KindBefore(plan.steps, kind, j)
    requires ShowsMutation(c.history, G.Advance(cfg, w, 1, c).history)
    ensures !Guarded(plan, G.Advance(cfg, w, 1, c).history, kind)
  {
    hide G.Node, S.Grows;
    var later := G.Advance(cfg, w, 1, c).history;
    var run := G.Node(cfg, w, plan.steps[j], c.state, [], 0, c.history, 1);
    S.NodeGrows(cfg, w, plan.steps[j], c.state, [], 0, c.history, 1);
    var k :| |c.history| <= k < |later| && ConcernsMutation(later[k]);
    NothingClosedBetween(plan, j, kind, c.history, run.history, later, k);
  }

  lemma UnguardedRunRefutes(cfg: Setting, w: World, plan: Plan, kind: string, fuel: nat, h: History)
    requires S.Shown(cfg, w, plan, fuel, h) && !Guarded(plan, h, kind)
    ensures !EveryRunGuarded(plan, kind)
  {
  }

  lemma NothingClosedBetween(plan: Plan, j: nat, kind: string, h: History, run: History, later: History, k: nat)
    requires j < |plan.steps| && !KindBefore(plan.steps, kind, j)
    requires S.Grows(plan.steps[j], h, run) && run <= later && |later| <= |run| + 1
    requires forall m :: 0 <= m < |h| && h[m].StepDone? ==> h[m].index < j
    requires |h| <= k < |later|
    ensures !KindDoneBefore(plan, later, k, kind)
  {
    assert forall m :: 0 <= m < |run| ==> later[m] == run[m];
    assert forall m :: 0 <= m < |h| ==> run[m] == h[m];
  }

  lemma {:induction false} FirstActing(steps: seq<Step>, j: nat) returns (i: nat)
    requires j < |steps| && Acts(steps[j])
    ensures i <= j && Acts(steps[i]) && forall m :: 0 <= m < i ==> !Acts(steps[m])
  {
    hide Acts;
    if m :| 0 <= m < j && Acts(steps[m]) {
      i := FirstActing(steps, m);
    } else {
      i := j;
    }
  }

  /** The gate is exact: in every run of either engine, in every setting and world, a step of the kind is
      done before any system action starts, if and only if before each step that can be reached and can
      act there stands a step of the kind. */
  lemma GateIsExact(plan: Plan, kind: string)
    requires WellTypedSteps(plan.steps)
    ensures EveryRunGuarded(plan, kind) <==> GuardStands(plan.steps, kind)
  {
    hide S.Shown, Acts, CanPass, Guarded;
    if GuardStands(plan.steps, kind) {
      forall cfg: Setting, w: World, fuel: nat, h: History | S.Shown(cfg, w, plan, fuel, h)
        ensures Guarded(plan, h, kind)
      {
        StandingGuardGuards(cfg, w, plan, kind, fuel, h);
      }
    } else {
      var j :| 0 <= j < |plan.steps| && Acts(plan.steps[j]) && PassableBefore(plan.steps, j) && !KindBefore(plan.steps, kind, j);
      var i := FirstActing(plan.steps, j);
      SomeRunEscapes(plan, kind, i);
    }
  }

  // ---- the condition in the plan's own terms ----

  ghost predicate NothingHappens(steps: seq<Step>) {
    forall j :: 0 <= j < |steps| ==> !MayMutate(steps[j]) && S.Settled(steps[j])
  }

  /** Every action names a target and no branch is dead. */
  ghost predicate Alive(steps: seq<Step>) {
    forall i, s :: 0 <= i < |steps| && s in Within(steps[i]) ==>
      S.NamesTarget(s) && (s.Conditional? && s.elseStep.Some? ==> !IsNoOpCheck(s.condition))
  }

  lemma AliveStep(steps: seq<Step>, i: nat)
    requires Alive(steps) && i < |steps| && steps[i].WellTyped()
    ensures Acts(steps[i]) <==> MayMutate(steps[i]) || !S.Settled(steps[i])
    ensures CanPass(steps[i])
  {
    var step := steps[i];
    LiveIsAll(step, steps, i);
    if MayMutate(step) {
      var s :| s in Within(step) && s.SystemAction?;
      assert ActsAlone(s);
    }
    if Acts(step) && !step.SystemAction? {
      var s :| s in S.Live(step) && ActsAlone(s);
    }
    if !S.Settled(step) {
      var s :| s in S.Live(step) && s.ReplanningCheckpoint?;
      assert ActsAlone(s);
    }
    if step.Conditional? {
      assert step.thenStep in Within(step);
    }
  }

  lemma LiveIsAll(step: Step, steps: seq<Step>, i: nat)
    requires Alive(steps) && i < |steps| && step in Within(steps[i]) && step.WellTyped()
    ensures S.Live(step) == Within(step)
  {
  }

  /** On such plans the guard stands exactly where a step of the kind stands before everything that may
      mutate or hand over to the agent, or nothing does. */
  lemma GuardInLivePlans(steps: seq<Step>, kind: string)
    requires WellTypedSteps(steps) && Alive(steps)
    ensures GuardStands(steps, kind) <==> (exists i: nat :: StandsFirst(steps, kind, i)) || NothingHappens(steps)
  {
    hide Acts, CanPass, MayMutate, S.Settled, Alive;
    forall i | 0 <= i < |steps|
      ensures (Acts(steps[i]) <==> MayMutate(steps[i]) || !S.Settled(steps[i])) && CanPass(steps[i])
    {
      AliveStep(steps, i);
    }
    if GuardStands(steps, kind) && !NothingHappens(steps) {
      var j :| 0 <= j < |steps| && Acts(steps[j]);
      var first := FirstActing(steps, j);
      assert PassableBefore(steps, first);
      assert KindBefore(steps, kind, first);
      var i :| 0 <= i < first && KindOf(steps[i]) == kind;
      assert StandsFirst(steps, kind, i);
    }
    if i: nat :| StandsFirst(steps, kind, i) {
      forall j | 0 <= j < |steps| && Acts(steps[j])
        ensures KindBefore(steps, kind, j)
      {
        assert i < j;
      }
    }
  }

  // ---- the escape in the sequential engine ----

  /** An action nothing stands in the way of: a declared context whose target it names, no required
      capability, no capture and no precondition. */
  ghost predicate Unhindered(cfg: Setting, action: Step)
    requires action.SystemAction?
  {
    var declared := FindContext(cfg.manifest.executionContexts, action.executionContext);
    && cfg.mode == Execute
    && declared.Some? && declared.value.target == action.target && !Blank(action.target)
    && action.requiredCapabilities == [] && action.before == [] && action.preConditions == []
  }

  lemma UnhinderedIsAdmitted(cfg: Setting, action: Step)
    requires action.SystemAction? && Unhindered(cfg, action)
    ensures BlastRadiusValid(action, cfg.manifest, cfg.context) && ProvidersResolved(cfg, action)
  {
    hide Normalize, Contains;
    NormalizesToEmpty(action.target);
    assert DeclaredReference(action, cfg.manifest, action.target, action.target);
    assert KnownReference(action, cfg.manifest, cfg.context, action.target, Normalize(action.target));
  }

  lemma UnhinderedActionRuns(cfg: Setting, w: World, action: Step, h: History)
    requires action.SystemAction? && Unhindered(cfg, action)
    ensures h + [CommandRun(action, action.command, w.runs(h, action.command))] <= L.ActionRun(cfg, w, action, h).history
  {
    hide BlastRadiusValid, ProvidersResolved;
    UnhinderedIsAdmitted(cfg, action);
    assert h + Taken(action, action.before) == h;
  }

  /** Wherever the sequential engine reaches a replanning checkpoint, the agent can have a system action's
      command be the next thing that happens, whatever steps the plan still requires. */
  lemma ReplanningEscapesTheGate(cfg: Setting, w: World, plan: Plan, revised: Plan, action: Step, j: nat, h: History,
                                 completed: seq<StepResult>, fuel: nat)
    requires j < |plan.steps| && plan.steps[j].ReplanningCheckpoint? && fuel > 0
    requires action.SystemAction? && Unhindered(cfg, action) && revised.steps == [action]
    requires w.replans(h + Taken(plan.steps[j], plan.steps[j].captures), ExecutionState(completed, j)) == Revise(revised)
    ensures var replied := h + Taken(plan.steps[j], plan.steps[j].captures) + [AgentAsked(plan.steps[j])];
      replied + [CommandRun(action, action.command, w.runs(replied, action.command))] <= L.RunFrom(cfg, w, plan, j, h, completed, fuel).history
  {
    hide L.ActionRun, L.RunRevised, Unhindered;
    var replied := h + Taken(plan.steps[j], plan.steps[j].captures) + [AgentAsked(plan.steps[j])];
    RevisedActionRuns(cfg, w, revised, action, j, replied, completed, fuel - 1);
    UnhinderedActionRuns(cfg, w, action, replied);
    var run := L.RunStep(cfg, w, plan.steps[j], plan, j, h, completed, fuel);
    assert run.history == L.RunRevised(cfg, w, revised, 0, j, replied, completed, fuel - 1).history;
    RunFromExtends(cfg, w, plan, j, h, completed, fuel);
  }

  lemma RevisedActionRuns(cfg: Setting, w: World, revised: Plan, action: Step, current: nat, h: History, completed: seq<StepResult>, fuel: nat)
    requires action.SystemAction? && revised.steps == [action]
    ensures L.RunRevised(cfg, w, revised, 0, current, h, completed, fuel).history == L.ActionRun(cfg, w, action, h).history
  {
    hide L.ActionRun;
    var run := L.RunStep(cfg, w, action, revised, current, h, completed, fuel);
    assert run.history == L.ActionRun(cfg, w, action, h).history;
    if run.end.Returned? && run.end.status != Failed {
      assert L.RunRevised(cfg, w, revised, 1, current, run.history, run.completed + [StepResult(action, run.end.status)], fuel).history == run.history;
    }
  }

  /** The run goes on from the history its next step leaves. */
  lemma {:induction false} RunFromExtends(cfg: Setting, w: World, plan: Plan, i: nat, h: History, completed: seq<StepResult>, fuel: nat)
    requires i <= |plan.steps|
    ensures h <= L.RunFrom(cfg, w, plan, i, h, completed, fuel).history
    ensures i < |plan.steps| ==>
      L.RunStep(cfg, w, plan.steps[i], plan, i, h, completed, fuel).history <= L.RunFrom(cfg, w, plan, i, h, completed, fuel).history
    decreases |plan.steps| - i
  {
    hide L.RunStep;
    if i < |plan.steps| {
      var run := L.RunStep(cfg, w, plan.steps[i], plan, i, h, completed, fuel);
      S.LegacyStepGrows(cfg, w, plan.steps[i], plan, i, h, completed, fuel);
      if run.end.Returned? {
        var later := run.history + [StepDone(i, plan.steps[i], run.end.status)];
        RunFromExtends(cfg, w, plan, i + 1, later, run.completed + [StepResult(plan.steps[i], run.end.status)], fuel);
      }
    }
  }

  // ---- matched plans ----

  lemma HarmlessStepPasses(step: Step)
    requires !MayMutate(step)
    ensures CanPass(step)
  {
    assert step in Within(step);
    if step.Conditional? {
      assert step.thenStep in Within(step);
    }
  }

  /** For a plan the catalog matches, the pattern guards every run exactly when before each step that may
      hand over to the agent there is a step of the kind or one that may mutate. */
  lemma MatchedGateIsExact(readers: Readers, entries: seq<Entry>, plan: Plan, input: MatchInput, result: MatchResult, pattern: Pattern)
    requires WellTypedSteps(plan.steps)
    requires MatchOutcome(readers, entries, plan, input, result) && result.Matched?
    requires pattern in result.entry.requiredStepPatterns && pattern.position == "before_first_mutation"
    ensures EveryRunGuarded(plan, pattern.kind) <==> HandoversAreLate(plan.steps, pattern.kind)
  {
    hide S.Shown, MatchOutcome, Acts, CanPass, MayMutate, S.Settled;
    if HandoversAreLate(plan.steps, pattern.kind) {
      forall cfg: Setting, w: World, fuel: nat, h: History | S.Shown(cfg, w, plan, fuel, h)
        ensures Guarded(plan, h, pattern.kind)
      {
        forall k | 0 <= k < |h| && ConcernsMutation(h[k])
          ensures KindDoneBefore(plan, h, k, pattern.kind)
        {
          MatchedPatternGuardsEveryRun(readers, entries, plan, input, result, pattern, cfg, w, fuel, h, k);
        }
      }
    }
    if EveryRunGuarded(plan, pattern.kind) {
      GateIsExact(plan, pattern.kind);
      forall i | 0 <= i < |plan.steps| && !S.Settled(plan.steps[i])
        ensures MutationOrKindBefore(plan.steps, pattern.kind, i)
      {
        UnsettledNeedsCover(plan.steps, pattern.kind, i);
      }
    }
  }

  lemma UnsettledNeedsCover(steps: seq<Step>, kind: string, i: nat)
    requires GuardStands(steps, kind) && i < |steps| && !S.Settled(steps[i])
    ensures MutationOrKindBefore(steps, kind, i)
  {
    hide MayMutate, CanPass;
    if forall j :: 0 <= j < i ==> !MayMutate(steps[j]) {
      forall j | 0 <= j < i
        ensures CanPass(steps[j])
      {
        HarmlessStepPasses(steps[j]);
      }
      assert PassableBefore(steps, i);
      var s :| s in S.Live(steps[i]) && s.ReplanningCheckpoint?;
      assert ActsAlone(s);
      assert KindBefore(steps, kind, i);
    }
  }

  /** A plan the catalog admits and some run of which escapes: the required checkpoint stands before the
      only action, and a replanning checkpoint before both. */
  lemma AdmittedPlanEscapes(readers: Readers, plan: Plan, input: MatchInput, entry: Entry)
    requires plan.steps == [ReplanningCheckpoint("ask", false, []), Checkpoint("save", []), PROBE]
    requires entry.requiredStepPatterns == [Pattern("checkpoint", "before_first_mutation")] && entry.forbiddenOperations == []
    requires entry.catalogId in input.preAuthorized && entry.expiresAt == Some(input.now + 1) && input.environment == Some(entry.environment)
    requires entry.agentName == plan.agentName && entry.scenario == plan.scenario && entry.maxStepCount == 3 && entry.maxRiskLevel == Critical
    requires readers.versionAdmitted(plan.agentVersion, entry.versionConstraint)
    requires readers.durationSeconds(plan.estimatedDuration).Some? && entry.maxEstimatedDuration == plan.estimatedDuration
    ensures Admits(readers, entry, plan, input)
    ensures !EveryRunGuarded(plan, "checkpoint")
  {
    hide EveryRunGuarded;
    var ask := plan.steps[0];
    assert "checkpoint" != "replanning_checkpoint" by { assert "checkpoint"[0] != "replanning_checkpoint"[0]; }
    AdmittedByPattern(plan.steps);
    assert S.Live(ask) == {ask} && ActsAlone(ask);
    assert PassableBefore(plan.steps, 0) && !KindBefore(plan.steps, "checkpoint", 0);
    GateIsExact(plan, "checkpoint");
  }

  lemma AdmittedByPattern(steps: seq<Step>)
    requires steps == [ReplanningCheckpoint("ask", false, []), Checkpoint("save", []), PROBE]
    ensures PatternSatisfied(steps, Pattern("checkpoint", "before_first_mutation"))
  {
    assert steps[1] in Within(steps[1]) && KindOf(steps[1]) == "checkpoint";
    assert KindPresent(steps, "checkpoint");
    assert Within(steps[0]) == {steps[0]} && Within(steps[1]) == {steps[1]};
    assert UnconditionallyBefore(steps, "checkpoint");
  }
}
