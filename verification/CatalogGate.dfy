/** From the static catalog check to the runs: what a matched plan's structure guarantees about every
    run of either engine. */
module CatalogGate {
  import opened Plans
  import opened Risk
  import opened Runs
  import opened Catalog
  import S = Sequencing

  /** The event was caused by, or closes, a system action. */
  ghost predicate ConcernsMutation(e: Event) {
    if e.StepDone? then e.step.SystemAction? else e.issuer.SystemAction?
  }

  /** Some step of the kind had returned without failing before position `k`. */
  ghost predicate KindDoneBefore(plan: Plan, h: History, k: nat, kind: string) {
    exists m :: 0 <= m < k && m < |h| && h[m].StepDone? && h[m].index < |plan.steps|
      && h[m].step == plan.steps[h[m].index] && KindOf(h[m].step) == kind && h[m].status != Failed
  }

  /** The required step stands before everything that may mutate and everything that may hand over to
      the agent. */
  ghost predicate StandsFirst(steps: seq<Step>, kind: string, i: nat) {
    i < |steps| && KindOf(steps[i]) == kind && forall j :: 0 <= j <= i ==> !MayMutate(steps[j]) && S.Settled(steps[j])
  }

  lemma SettledMutationIsDeclared(plan: Plan, h: History, k: nat, j: nat)
    requires k < |h| && j < |plan.steps| && S.Owned(plan, h, k, j) && ConcernsMutation(h[k]) && S.Settled(plan.steps[j])
    ensures MayMutate(plan.steps[j])
  {
    S.LiveIsWithin(plan.steps[j]);
    assert plan.steps[j] in Within(plan.steps[j]);
  }

  /** Structure alone: where such a step stands, no run touches a system action before it is done. */
  lemma FirstStepGuardsEveryRun(cfg: Setting, w: World, plan: Plan, fuel: nat, h: History, k: nat, kind: string, i: nat)
    requires StandsFirst(plan.steps, kind, i)
    requires S.Shown(cfg, w, plan, fuel, h) && k < |h| && ConcernsMutation(h[k])
    ensures KindDoneBefore(plan, h, k, kind)
  {
    hide S.Shown, S.Settled, MayMutate;
    S.EveryRunIsSequenced(cfg, w, plan, fuel, h);
    assert S.InSequence(plan, h, k);
    var j :| 0 <= j < |plan.steps| && S.Owned(plan, h, k, j);
    if S.Settled(plan.steps[j]) {
      SettledMutationIsDeclared(plan, h, k, j);
    }
    assert i < j;
    assert S.DoneBefore(plan, h, k, i);
    var m :| 0 <= m < k && m < |h| && h[m].StepDone? && h[m].index == i && h[m].step == plan.steps[i]
             && !Halts(h[m].step, h[m].status) && h[m].status != RolledBack;
  }

  /** The first step that may hand over to the agent. */
  lemma {:induction false} FirstUnsettled(steps: seq<Step>, j: nat) returns (i: nat)
    requires j < |steps| && !S.Settled(steps[j])
    ensures i <= j && !S.Settled(steps[i]) && forall m :: 0 <= m < i ==> S.Settled(steps[m])
  {
    hide S.Settled;
    if m :| 0 <= m < j && !S.Settled(steps[m]) {
      i := FirstUnsettled(steps, m);
    } else {
      i := j;
    }
  }

  /** Before whatever may hand over to the agent stands something that may mutate, or a step of the kind. */
  ghost predicate HandoversAreLate(steps: seq<Step>, kind: string) {
    forall i :: 0 <= i < |steps| && !S.Settled(steps[i]) ==> MutationOrKindBefore(steps, kind, i)
  }

  ghost predicate MutationOrKindBefore(steps: seq<Step>, kind: string, i: nat)
    requires i <= |steps|
  {
    exists j :: 0 <= j < i && (MayMutate(steps[j]) || KindOf(steps[j]) == kind)
  }

  lemma UnsettledLeavesRoom(steps: seq<Step>, kind: string, j: nat) returns (i: nat)
    requires HandoversAreLate(steps, kind)
    requires j < |steps| && !S.Settled(steps[j]) && forall m :: 0 <= m < j ==> !MayMutate(steps[m])
    ensures StandsFirst(steps, kind, i)
  {
    hide S.Settled, MayMutate;
    var first := FirstUnsettled(steps, j);
    assert MutationOrKindBefore(steps, kind, first);
    i :| 0 <= i < first && (MayMutate(steps[i]) || KindOf(steps[i]) == kind);
  }

  /** A plan that satisfies the pattern has such a step, or no run of it touches a system action. */
  lemma SomethingStandsFirst(steps: seq<Step>, pattern: Pattern, j: nat) returns (i: nat)
    requires PatternSatisfied(steps, pattern) && pattern.position == "before_first_mutation"
    requires HandoversAreLate(steps, pattern.kind)
    requires j < |steps| && (MayMutate(steps[j]) || !S.Settled(steps[j]))
    ensures StandsFirst(steps, pattern.kind, i)
  {
    hide S.Settled, MayMutate, KindPresent;
    if NeverMutates(steps) {
      i := UnsettledLeavesRoom(steps, pattern.kind, j);
    } else {
      i :| 0 <= i < |steps| && KindOf(steps[i]) == pattern.kind && forall m :: 0 <= m <= i ==> !MayMutate(steps[m]);
      if m :| 0 <= m <= i && !S.Settled(steps[m]) {
        i := UnsettledLeavesRoom(steps, pattern.kind, m);
      }
    }
  }

  /** If the catalog matches a plan and its entry requires a step kind before the first mutation, then
      in every run of either engine, whatever the checks, commands and approvals answer, a top-level
      step of that kind has returned without failing before any system action starts, provided that
      before each replanning checkpoint there is a step of the kind or one that may mutate. */
  lemma MatchedPatternGuardsEveryRun(readers: Readers, entries: seq<Entry>, plan: Plan, input: MatchInput, result: MatchResult,
                                     pattern: Pattern, cfg: Setting, w: World, fuel: nat, h: History, k: nat)
    requires MatchOutcome(readers, entries, plan, input, result) && result.Matched?
    requires pattern in result.entry.requiredStepPatterns && pattern.position == "before_first_mutation"
    requires HandoversAreLate(plan.steps, pattern.kind)
    requires S.Shown(cfg, w, plan, fuel, h) && k < |h| && ConcernsMutation(h[k])
    ensures KindDoneBefore(plan, h, k, pattern.kind)
  {
    hide S.Shown, S.Settled, MayMutate, StandsFirst, HandoversAreLate;
    MatchSatisfiesPattern(readers, entries, plan, input, result, pattern);
    S.EveryRunIsSequenced(cfg, w, plan, fuel, h);
    assert S.InSequence(plan, h, k);
    var j :| 0 <= j < |plan.steps| && S.Owned(plan, h, k, j);
    if S.Settled(plan.steps[j]) {
      SettledMutationIsDeclared(plan, h, k, j);
    }
    var i := SomethingStandsFirst(plan.steps, pattern, j);
    FirstStepGuardsEveryRun(cfg, w, plan, fuel, h, k, pattern.kind, i);
  }

  lemma MatchSatisfiesPattern(readers: Readers, entries: seq<Entry>, plan: Plan, input: MatchInput, result: MatchResult, pattern: Pattern)
    requires MatchOutcome(readers, entries, plan, input, result) && result.Matched?
    requires pattern in result.entry.requiredStepPatterns
    ensures PatternSatisfied(plan.steps, pattern)
  {
    hide PlanRisk, DurationAllowed, OperationsAllowed, PatternSatisfied;
    var n: nat :| IsFirstAdmitting(readers, entries, plan, input, n) && result.entry == entries[n];
  }

  /** What installing a match's levels can approve: only plans within the entry's own maximum, and
      never above elevated. */
  lemma CoverageIsBounded(readers: Readers, entries: seq<Entry>, matchedPlan: Plan, input: MatchInput, result: MatchResult,
                          cfg: Setting, plan: Plan)
    requires MatchOutcome(readers, entries, matchedPlan, input, result) && result.Matched?
    requires cfg.coveredLevels == result.covered
    requires AutoApproves(cfg, plan) && !AutoApproves(cfg.(coveredLevels := []), plan)
    ensures Rank(PlanRisk(plan.steps)) <= Rank(result.entry.maxRiskLevel)
    ensures Rank(PlanRisk(plan.steps)) <= Rank(Elevated)
  {
    MatchIsSound(readers, entries, matchedPlan, input, result);
  }
}
