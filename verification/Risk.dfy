/** Risk levels of steps and plans (src/framework/risk.ts). */
module Risk {
  import opened Plans

  /** The position of a level in `RISK_ORDER`. */
  function Rank(level: RiskLevel): (r: nat)
    ensures r <= 3
  {
    match level
    case Routine => 0
    case Elevated => 1
    case High => 2
    case Critical => 3
  }

  function LevelAt(rank: nat): (level: RiskLevel)
    requires rank <= 3
    ensures Rank(level) == rank
  {
    if rank == 0 then Routine else if rank == 1 then Elevated else if rank == 2 then High else Critical
  }

  predicate RiskExceeds(a: RiskLevel, b: RiskLevel) {
    Rank(a) > Rank(b)
  }

  /** `getStepRisk`: recurses into conditional branches. */
  function StepRisk(step: Step): Option<RiskLevel> {
    match step
    case SystemAction(_, _, _, level, _, _, _, _, _, _, _, _, _) => Some(level)
    case Conditional(_, _, thenStep, elseStep) =>
      var thenRisk := StepRisk(thenStep);
      var elseRisk := if elseStep.None? then None else StepRisk(elseStep.value);
      if thenRisk.None? then elseRisk
      else if elseRisk.None? then thenRisk
      else if Rank(thenRisk.value) >= Rank(elseRisk.value) then thenRisk else elseRisk
    case _ => None
  }

  function Max(a: nat, b: nat): nat {
    if a >= b then a else b
  }

  function ActionRank(step: Step): (r: nat)
    ensures r <= 3
  {
    if step.SystemAction? then Rank(step.riskLevel) else 0
  }

  /** What one iteration of `getMaxRiskIndex` folds in: the step and one level of branches. */
  function ShallowRank(step: Step): (r: nat)
    ensures r <= 3
  {
    if step.Conditional? then
      Max(ActionRank(step.thenStep), if step.elseStep.Some? then ActionRank(step.elseStep.value) else 0)
    else ActionRank(step)
  }

  function MaxRank(steps: seq<Step>): (r: nat)
    ensures r <= 3
  {
    if steps == [] then 0 else Max(MaxRank(steps[..|steps| - 1]), ShallowRank(steps[|steps| - 1]))
  }

  /** `getMaxRiskIndex`. */
  method GetMaxRiskIndex(steps: seq<Step>) returns (max: nat)
    ensures max == MaxRank(steps)
  {
    max := 0;
    for i := 0 to |steps|
      invariant max == MaxRank(steps[..i])
    {
      var step := steps[i];
      if step.SystemAction? {
        max := Max(max, Rank(step.riskLevel));
      }
      if step.Conditional? {
        if step.thenStep.SystemAction? {
          max := Max(max, Rank(step.thenStep.riskLevel));
        }
        if step.elseStep.Some? && step.elseStep.value.SystemAction? {
          max := Max(max, Rank(step.elseStep.value.riskLevel));
        }
      }
      assert steps[..i + 1][..i] == steps[..i];
    }
    assert steps[..|steps|] == steps;
  }

  /** `derivePlanMaxRiskLevel`. */
  function PlanRisk(steps: seq<Step>): RiskLevel {
    LevelAt(MaxRank(steps))
  }

  /** The rank of the riskiest system action anywhere in the step; 0 when it holds none. */
  function DeepRank(step: Step): nat {
    var risk := StepRisk(step);
    if risk.None? then 0 else Rank(risk.value)
  }

  /** `getStepRisk` is the maximum over every action inside the step: it bounds each of them, and
      one of them attains it. */
  lemma StepRiskIsMaximum(step: Step)
    ensures forall s :: s in Within(step) && s.SystemAction? ==> StepRisk(step).Some? && Rank(s.riskLevel) <= DeepRank(step)
    ensures StepRisk(step).Some? ==> exists s :: s in Within(step) && s.SystemAction? && StepRisk(step) == Some(s.riskLevel)
  {
    if step.Conditional? {
      StepRiskIsMaximum(step.thenStep);
      if step.elseStep.Some? {
        StepRiskIsMaximum(step.elseStep.value);
      }
    }
  }

  ghost predicate IsMaximumOf(rank: nat, steps: seq<Step>) {
    && (forall i :: 0 <= i < |steps| ==> DeepRank(steps[i]) <= rank)
    && (rank == 0 || exists i :: 0 <= i < |steps| && DeepRank(steps[i]) == rank)
  }

  /** On plans the source's types allow, the one-level loop of `getMaxRiskIndex` computes the
      maximum of the recursive `getStepRisk`. */
  lemma MaxRankIsMaximumOfStepRisk(steps: seq<Step>)
    requires WellTypedSteps(steps)
    ensures IsMaximumOf(MaxRank(steps), steps)
  {
    if steps != [] {
      var init, last := steps[..|steps| - 1], steps[|steps| - 1];
      MaxRankIsMaximumOfStepRisk(init);
      ShallowIsDeep(last);
      if MaxRank(steps) != 0 {
        if MaxRank(steps) == ShallowRank(last) {
          assert DeepRank(steps[|steps| - 1]) == MaxRank(steps);
        } else {
          var i :| 0 <= i < |init| && DeepRank(init[i]) == MaxRank(init);
          assert DeepRank(steps[i]) == MaxRank(steps);
        }
      }
    }
  }

  lemma LeafRank(step: Step)
    requires !step.Conditional?
    ensures DeepRank(step) == ActionRank(step)
    ensures StepRisk(step).Some? <==> step.SystemAction?
  {
  }

  lemma ShallowIsDeep(step: Step)
    requires step.WellTyped()
    ensures ShallowRank(step) == DeepRank(step)
  {
    if step.Conditional? {
      LeafRank(step.thenStep);
      if step.elseStep.Some? {
        LeafRank(step.elseStep.value);
      }
    }
  }

  /** Off those plans it can only underestimate. */
  lemma ShallowNeverExceedsDeep(step: Step)
    ensures ShallowRank(step) <= DeepRank(step)
  {
    if step.Conditional? {
      var thenRisk := StepRisk(step.thenStep);
      assert ActionRank(step.thenStep) <= DeepRank(step.thenStep);
      if step.elseStep.Some? {
        assert ActionRank(step.elseStep.value) <= DeepRank(step.elseStep.value);
      }
    }
  }

  /** The actions the loop looks at: the step itself and one level of branches. */
  function Near(step: Step): set<Step> {
    {step} + if step.Conditional? then {step.thenStep} + (if step.elseStep.Some? then {step.elseStep.value} else {}) else {}
  }

  ghost predicate NearAction(steps: seq<Step>, rank: nat) {
    exists i, s :: 0 <= i < |steps| && s in Near(steps[i]) && s.SystemAction? && Rank(s.riskLevel) >= rank
  }

  lemma NearIsBounded(step: Step, s: Step)
    requires s in Near(step)
    ensures s.SystemAction? ==> Rank(s.riskLevel) <= ShallowRank(step)
  {
  }

  lemma SomeNearAttains(step: Step) returns (s: Step)
    requires ShallowRank(step) > 0
    ensures s in Near(step) && s.SystemAction? && Rank(s.riskLevel) == ShallowRank(step)
  {
    s := if !step.Conditional? then step
         else if ActionRank(step.thenStep) == ShallowRank(step) then step.thenStep else step.elseStep.value;
  }

  /** The loop's rank is reached exactly by what stands near the top. */
  lemma {:induction false} MaxRankIffNear(steps: seq<Step>, rank: nat)
    requires rank > 0
    ensures MaxRank(steps) >= rank <==> NearAction(steps, rank)
  {
    hide Near, ShallowRank;
    if steps != [] {
      var init, last := steps[..|steps| - 1], steps[|steps| - 1];
      MaxRankIffNear(init, rank);
      if ShallowRank(last) >= rank {
        var s := SomeNearAttains(last);
        assert s in Near(steps[|steps| - 1]);
      }
      if NearAction(init, rank) {
        var i, s :| 0 <= i < |init| && s in Near(init[i]) && s.SystemAction? && Rank(s.riskLevel) >= rank;
        assert s in Near(steps[i]);
      }
      if i, s :| 0 <= i < |steps| && s in Near(steps[i]) && s.SystemAction? && Rank(s.riskLevel) >= rank {
        NearIsBounded(steps[i], s);
        if i < |init| {
          assert s in Near(init[i]);
        }
      }
    }
  }

  /** On any plan the one-level loop finds the true maximum exactly when no action, however deeply
      nested, outranks every action near the top. */
  lemma ShallowIsExactIff(steps: seq<Step>)
    ensures IsMaximumOf(MaxRank(steps), steps) <==>
      forall i, s :: 0 <= i < |steps| && s in Within(steps[i]) && s.SystemAction? && Rank(s.riskLevel) > 0 ==>
        NearAction(steps, Rank(s.riskLevel))
  {
    hide NearAction, Near, Within, MaxRank;
    if IsMaximumOf(MaxRank(steps), steps) {
      forall i, s | 0 <= i < |steps| && s in Within(steps[i]) && s.SystemAction? && Rank(s.riskLevel) > 0
        ensures NearAction(steps, Rank(s.riskLevel))
      {
        StepRiskIsMaximum(steps[i]);
        MaxRankIffNear(steps, Rank(s.riskLevel));
      }
    } else {
      MaxRankIsReached(steps);
      var i :| 0 <= i < |steps| && DeepRank(steps[i]) > MaxRank(steps);
      StepRiskIsMaximum(steps[i]);
      var s :| s in Within(steps[i]) && s.SystemAction? && StepRisk(steps[i]) == Some(s.riskLevel);
      MaxRankIffNear(steps, Rank(s.riskLevel));
    }
  }

  /** The loop's rank is exceeded or attained by that of some step. */
  lemma {:induction false} MaxRankIsReached(steps: seq<Step>)
    ensures MaxRank(steps) == 0 || exists i :: 0 <= i < |steps| && DeepRank(steps[i]) >= MaxRank(steps)
  {
    hide ShallowRank, DeepRank;
    if steps != [] {
      var init, last := steps[..|steps| - 1], steps[|steps| - 1];
      MaxRankIsReached(init);
      ShallowNeverExceedsDeep(last);
      if MaxRank(steps) == ShallowRank(last) {
        assert DeepRank(steps[|steps| - 1]) >= MaxRank(steps);
      } else if MaxRank(init) > 0 {
        var i :| 0 <= i < |init| && DeepRank(init[i]) >= MaxRank(init);
        assert steps[i] == init[i];
      }
    }
  }

  lemma NestedBranchHidesRisk(action: Step, check: Check)
    requires action.SystemAction? && action.riskLevel == Critical
    ensures
      var inner := Conditional("inner", check, action, None);
      var outer := Conditional("outer", check, inner, None);
      PlanRisk([outer]) == Routine && StepRisk(outer) == Some(Critical)
  {
    var inner := Conditional("inner", check, action, None);
    var outer := Conditional("outer", check, inner, None);
    assert StepRisk(inner) == Some(Critical);
    assert [outer][..0] == [];
    assert MaxRank([outer]) == Max(MaxRank([]), ShallowRank(outer));
  }

  /** Every system action inside a well-typed plan is within the plan's risk level. */
  lemma PlanRiskCoversEveryAction(steps: seq<Step>, i: nat, action: Step)
    requires WellTypedSteps(steps)
    requires i < |steps| && action in Within(steps[i]) && action.SystemAction?
    ensures Rank(action.riskLevel) <= MaxRank(steps)
  {
    StepRiskIsMaximum(steps[i]);
    MaxRankIsMaximumOfStepRisk(steps);
  }
}
