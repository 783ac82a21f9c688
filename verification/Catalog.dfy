/** Standing approvals (src/framework/catalog.ts): which plans a catalog entry admits. */
module Catalog {
  import opened Plans
  import opened Text
  import opened Lists
  import opened Risk

  datatype Pattern = Pattern(kind: string, position: string)

  /** Durations are kept as text and the expiry as the parsed instant, `None` when it does not parse. */
  datatype Entry = Entry(
    catalogId: string,
    expiresAt: Option<int>,
    agentName: string,
    versionConstraint: string,
    scenario: string,
    environment: string,
    maxRiskLevel: RiskLevel,
    requiredStepPatterns: seq<Pattern>,
    forbiddenOperations: seq<string>,
    maxStepCount: int,
    maxEstimatedDuration: string,
    satisfiesApprovalFor: seq<RiskLevel>)

  datatype MatchInput = MatchInput(preAuthorized: seq<string>, environment: Option<string>, now: int)

  /** What the source leaves to other code: semver, the ISO-8601 duration pattern and the regular
      expressions that recognise operation classes in SQL text. */
  datatype Readers = Readers(
    versionAdmitted: (string, string) -> bool,
    durationSeconds: string -> Option<real>,
    sqlClasses: string -> set<string>)

  const EVALUABLE: set<string> := {"ddl", "admin_privilege"}

  function KindOf(step: Step): string {
    match step
    case SystemAction(_, _, _, _, _, _, _, _, _, _, _, _, _) => "system_action"
    case DiagnosisAction(_, _, _, _, _) => "diagnosis_action"
    case HumanNotification(_) => "human_notification"
    case HumanApproval(_, _) => "human_approval"
    case Checkpoint(_, _) => "checkpoint"
    case ReplanningCheckpoint(_, _, _) => "replanning_checkpoint"
    case Conditional(_, _, _, _) => "conditional"
  }

  /** The kinds under the names the patterns use. */
  lemma KindNames(step: Step)
    ensures KindOf(step) == "system_action" <==> step.SystemAction?
    ensures KindOf(step) == "diagnosis_action" <==> step.DiagnosisAction?
    ensures KindOf(step) == "human_notification" <==> step.HumanNotification?
    ensures KindOf(step) == "human_approval" <==> step.HumanApproval?
    ensures KindOf(step) == "checkpoint" <==> step.Checkpoint?
    ensures KindOf(step) == "replanning_checkpoint" <==> step.ReplanningCheckpoint?
    ensures KindOf(step) == "conditional" <==> step.Conditional?
  {
    assert |"system_action"| == 13 && |"diagnosis_action"| == 16 && |"human_notification"| == 18 && |"human_approval"| == 14;
    assert |"checkpoint"| == 10 && |"replanning_checkpoint"| == 21 && |"conditional"| == 11;
  }

  function NamedClass(text: Option<string>): set<string> {
    if text.Some? && text.value != "" then {Folded(text.value)} else {}
  }

  function ClassifyCommand(readers: Readers, command: Command): set<string> {
    NamedClass(command.subtype) + NamedClass(command.operation)
    + if command.statement.Some? && command.statement.value != "" then readers.sqlClasses(command.statement.value) else {}
  }

  function ClassesOf(readers: Readers, step: Step): set<string> {
    if step.SystemAction? || step.DiagnosisAction? then ClassifyCommand(readers, step.command) else {}
  }

  // ---- flattening ----

  datatype Flat = Flat(index: nat, step: Step, conditional: bool)

  /** The traversal of one top-level step: it recurses, so nothing hides in a nested branch. */
  function Visit(step: Step, index: nat, conditional: bool): seq<Flat>
    decreases step
  {
    [Flat(index, step, conditional)] +
    if step.Conditional? then
      Visit(step.thenStep, index, true) +
      if step.elseStep.Some? then Visit(step.elseStep.value, index, true) else []
    else []
  }

  function FlattenUpTo(steps: seq<Step>, n: nat): seq<Flat>
    requires n <= |steps|
  {
    if n == 0 then [] else FlattenUpTo(steps, n - 1) + Visit(steps[n - 1], n - 1, false)
  }

  method FlattenSteps(steps: seq<Step>) returns (flat: seq<Flat>)
    ensures flat == FlattenUpTo(steps, |steps|)
  {
    flat := [];
    for i := 0 to |steps|
      invariant flat == FlattenUpTo(steps, i)
    {
      flat := flat + Visit(steps[i], i, false);
    }
  }

  ghost predicate VisitedFrom(step: Step, index: nat, conditional: bool, f: Flat) {
    f.index == index && f.step in Within(step) && (!conditional && !f.conditional ==> f.step == step) && (conditional ==> f.conditional)
  }

  lemma VisitIsSound(step: Step, index: nat, conditional: bool)
    ensures forall f :: f in Visit(step, index, conditional) ==> VisitedFrom(step, index, conditional, f)
    decreases step
  {
    if step.Conditional? {
      VisitIsSound(step.thenStep, index, true);
      if step.elseStep.Some? {
        VisitIsSound(step.elseStep.value, index, true);
      }
    }
  }

  lemma VisitIsComplete(step: Step, index: nat, conditional: bool, inner: Step)
    requires inner in Within(step)
    ensures exists f :: f in Visit(step, index, conditional) && f.step == inner
    ensures Flat(index, step, conditional) in Visit(step, index, conditional)
    decreases step
  {
    assert Visit(step, index, conditional)[0] == Flat(index, step, conditional);
    if inner != step {
      if inner in Within(step.thenStep) {
        VisitIsComplete(step.thenStep, index, true, inner);
        var f :| f in Visit(step.thenStep, index, true) && f.step == inner;
        assert f in Visit(step, index, conditional);
      } else {
        VisitIsComplete(step.elseStep.value, index, true, inner);
        var f :| f in Visit(step.elseStep.value, index, true) && f.step == inner;
        assert f in Visit(step, index, conditional);
      }
    }
  }

  lemma FlatIsSound(steps: seq<Step>, n: nat, f: Flat)
    requires n <= |steps| && f in FlattenUpTo(steps, n)
    ensures f.index < n && f.step in Within(steps[f.index]) && (!f.conditional ==> f.step == steps[f.index])
  {
    VisitIsSound(steps[n - 1], n - 1, false);
    if f !in Visit(steps[n - 1], n - 1, false) {
      FlatIsSound(steps, n - 1, f);
    }
  }

  lemma FlatIsComplete(steps: seq<Step>, n: nat, i: nat, inner: Step)
    requires i < n <= |steps| && inner in Within(steps[i])
    ensures exists f :: f in FlattenUpTo(steps, n) && f.index == i && f.step == inner && (inner == steps[i] ==> !f.conditional)
  {
    if i < n - 1 {
      FlatIsComplete(steps, n - 1, i, inner);
      var f :| f in FlattenUpTo(steps, n - 1) && f.index == i && f.step == inner && (inner == steps[i] ==> !f.conditional);
      assert f in FlattenUpTo(steps, n);
    } else {
      VisitIsComplete(steps[i], i, false, inner);
      VisitIsSound(steps[i], i, false);
      var f :| f in Visit(steps[i], i, false) && f.step == inner;
      if inner == steps[i] {
        assert Flat(i, inner, false) in FlattenUpTo(steps, n);
      } else {
        assert f in FlattenUpTo(steps, n);
      }
    }
  }

  lemma {:induction false} FlatIsOrdered(steps: seq<Step>, n: nat, a: nat, b: nat)
    requires n <= |steps| && a <= b < |FlattenUpTo(steps, n)|
    ensures FlattenUpTo(steps, n)[a].index <= FlattenUpTo(steps, n)[b].index
  {
    var earlier := FlattenUpTo(steps, n - 1);
    VisitIsSound(steps[n - 1], n - 1, false);
    if b < |earlier| {
      FlatIsOrdered(steps, n - 1, a, b);
    } else {
      var fb := FlattenUpTo(steps, n)[b];
      assert fb == Visit(steps[n - 1], n - 1, false)[b - |earlier|];
      assert fb in Visit(steps[n - 1], n - 1, false);
      if a < |earlier| {
        assert earlier[a] in earlier;
        FlatIsSound(steps, n - 1, earlier[a]);
      } else {
        assert FlattenUpTo(steps, n)[a] in Visit(steps[n - 1], n - 1, false);
      }
    }
  }

  // ---- what the criteria mean, stated on the plan itself ----

  ghost predicate MayMutate(step: Step) {
    exists s :: s in Within(step) && s.SystemAction?
  }

  ghost predicate FirstMutation(steps: seq<Step>, i: nat) {
    && i < |steps|
    && MayMutate(steps[i])
    && forall j :: 0 <= j < i ==> !MayMutate(steps[j])
  }

  ghost predicate NeverMutates(steps: seq<Step>) {
    forall i :: 0 <= i < |steps| ==> !MayMutate(steps[i])
  }

  ghost predicate KindPresent(steps: seq<Step>, kind: string) {
    exists i, s :: 0 <= i < |steps| && s in Within(steps[i]) && KindOf(s) == kind
  }

  /** A step of the kind stands, outside any branch, before everything that may mutate. */
  ghost predicate UnconditionallyBefore(steps: seq<Step>, kind: string) {
    exists i :: 0 <= i < |steps| && KindOf(steps[i]) == kind && forall j :: 0 <= j <= i ==> !MayMutate(steps[j])
  }

  ghost predicate PatternSatisfied(steps: seq<Step>, p: Pattern) {
    && KindPresent(steps, p.kind)
    && (p.position == "any" || p.position == "before_first_mutation")
    && (p.position == "before_first_mutation" ==> NeverMutates(steps) || UnconditionallyBefore(steps, p.kind))
  }

  ghost predicate PatternsSatisfied(steps: seq<Step>, patterns: seq<Pattern>) {
    forall p :: p in patterns ==> PatternSatisfied(steps, p)
  }

  /** What a pattern asks, step by step: its kind occurs somewhere, and "before the first mutation" that the
      plan holds no system action at all or that one of the kind stands outside any branch, with no system
      action in it or before it. No other position is satisfied. */
  lemma PatternMeans(steps: seq<Step>, p: Pattern)
    ensures PatternSatisfied(steps, p) <==>
      && (exists i, s :: 0 <= i < |steps| && s in Within(steps[i]) && KindOf(s) == p.kind)
      && p.position in {"any", "before_first_mutation"}
      && (p.position == "any"
          || (forall i, s :: 0 <= i < |steps| && s in Within(steps[i]) ==> !s.SystemAction?)
          || exists i :: 0 <= i < |steps| && KindOf(steps[i]) == p.kind && ActionFreeUpTo(steps, i))
  {
    assert "any"[0] != "before_first_mutation"[0];
    forall i | 0 <= i < |steps|
      ensures ActionFreeUpTo(steps, i) <==> forall j :: 0 <= j <= i ==> !MayMutate(steps[j])
    {
    }
  }

  ghost predicate ActionFreeUpTo(steps: seq<Step>, i: nat)
    requires i < |steps|
  {
    forall j, s :: 0 <= j <= i && s in Within(steps[j]) ==> !s.SystemAction?
  }

  ghost predicate Performs(readers: Readers, steps: seq<Step>, operation: string) {
    exists i, s :: 0 <= i < |steps| && s in Within(steps[i]) && operation in ClassesOf(readers, s)
  }

  ghost predicate OperationsAllowed(readers: Readers, steps: seq<Step>, forbidden: seq<string>) {
    forall op :: op in forbidden ==> Folded(op) in EVALUABLE && !Performs(readers, steps, Folded(op))
  }

  /** The step sends a command that names the operation class, as its subtype or its operation, or whose
      statement is recognised as one of the class. */
  ghost predicate CarriesClass(readers: Readers, step: Step, word: string) {
    && (step.SystemAction? || step.DiagnosisAction?)
    && (|| (step.command.subtype.Some? && step.command.subtype.value != "" && Says(step.command.subtype.value, word))
        || (step.command.operation.Some? && step.command.operation.value != "" && Says(step.command.operation.value, word))
        || (step.command.statement.Some? && step.command.statement.value != "" && word in readers.sqlClasses(step.command.statement.value)))
  }

  predicate Evaluable(word: string) {
    word == "ddl" || word == "admin_privilege"
  }

  ghost predicate NobodyCarries(readers: Readers, steps: seq<Step>, word: string) {
    forall i, s :: 0 <= i < |steps| && s in Within(steps[i]) ==> !CarriesClass(readers, s, word)
  }

  /** Each forbidden operation is one of the two classes that can be told from a plan, up to white space at
      its ends and letter case, and no step at any depth carries it. */
  ghost predicate NothingForbiddenCarried(readers: Readers, steps: seq<Step>, forbidden: seq<string>) {
    forall op :: op in forbidden ==> exists word :: Evaluable(word) && Says(op, word) && NobodyCarries(readers, steps, word)
  }

  lemma EvaluableIsPlain(word: string)
    requires Evaluable(word)
    ensures IsPlain(word)
  {
    if word == "ddl" {
      LettersArePlain(word);
    } else {
      SpaceCodes('a');
      SpaceCodes('e');
    }
  }

  lemma CarriesIff(readers: Readers, step: Step, word: string)
    requires Evaluable(word)
    ensures word in ClassesOf(readers, step) <==> CarriesClass(readers, step, word)
  {
    hide Folded, Says;
    EvaluableIsPlain(word);
    hide Evaluable, IsPlain;
    if step.SystemAction? || step.DiagnosisAction? {
      if step.command.subtype.Some? {
        SaysIff(step.command.subtype.value, word);
      }
      if step.command.operation.Some? {
        SaysIff(step.command.operation.value, word);
      }
    }
  }

  /** What the class evaluation means, on the commands' own fields. */
  lemma AllowedIff(readers: Readers, steps: seq<Step>, forbidden: seq<string>)
    ensures OperationsAllowed(readers, steps, forbidden) <==> NothingForbiddenCarried(readers, steps, forbidden)
  {
    hide Folded, Says, ClassesOf, CarriesClass;
    forall op | op in forbidden
      ensures Folded(op) in EVALUABLE && !Performs(readers, steps, Folded(op)) <==>
        exists word :: Evaluable(word) && Says(op, word) && NobodyCarries(readers, steps, word)
    {
      OneAllowedIff(readers, steps, op);
    }
  }

  lemma OneAllowedIff(readers: Readers, steps: seq<Step>, op: string)
    ensures Folded(op) in EVALUABLE && !Performs(readers, steps, Folded(op)) <==>
      exists word :: Evaluable(word) && Says(op, word) && NobodyCarries(readers, steps, word)
  {
    hide Folded, Says, ClassesOf, CarriesClass;
    forall word | Evaluable(word)
      ensures Folded(op) == word <==> Says(op, word)
      ensures Performs(readers, steps, word) <==> !NobodyCarries(readers, steps, word)
    {
      EvaluableIsPlain(word);
      SaysIff(op, word);
      forall s
        ensures word in ClassesOf(readers, s) <==> CarriesClass(readers, s, word)
      {
        CarriesIff(readers, s, word);
      }
    }
  }

  ghost predicate DurationAllowed(readers: Readers, plan: Plan, limit: string) {
    && readers.durationSeconds(limit).Some?
    && readers.durationSeconds(plan.estimatedDuration).Some?
    && readers.durationSeconds(plan.estimatedDuration).value <= readers.durationSeconds(limit).value
  }

  ghost predicate Admits(readers: Readers, entry: Entry, plan: Plan, input: MatchInput) {
    && entry.catalogId in input.preAuthorized
    && entry.expiresAt.Some? && input.now < entry.expiresAt.value
    && plan.agentName == entry.agentName
    && plan.scenario == entry.scenario
    && input.environment == Some(entry.environment)
    && readers.versionAdmitted(plan.agentVersion, entry.versionConstraint)
    && !RiskExceeds(PlanRisk(plan.steps), entry.maxRiskLevel)
    && |plan.steps| <= entry.maxStepCount
    && PatternsSatisfied(plan.steps, entry.requiredStepPatterns)
    && OperationsAllowed(readers, plan.steps, entry.forbiddenOperations)
    && DurationAllowed(readers, plan, entry.maxEstimatedDuration)
  }

  // ---- the evaluation, reason by reason ----

  datatype Failure =
    | NotPreAuthorized | UnparseableExpiry | Expired | WrongAgent | WrongScenario
    | UnknownEnvironment | WrongEnvironment | VersionRejected | RiskTooHigh | TooManySteps
    | MissingPattern(kind: string) | PatternTooLate(kind: string) | UnsupportedPosition(position: string)
    | UnevaluableOperation(operation: string) | ForbiddenOperation(stepId: string, operation: string)
    | UnparseableLimit | UnparseableDuration | TooLong

  function Mutations(flat: seq<Flat>): (mutations: seq<Flat>)
    ensures forall f :: f in mutations <==> f in flat && f.step.SystemAction?
  {
    if flat == [] then []
    else (if flat[0].step.SystemAction? then [flat[0]] else []) + Mutations(flat[1..])
  }

  lemma {:induction false} FirstFlatMutation(flat: seq<Flat>)
    requires Mutations(flat) != []
    ensures exists b :: 0 <= b < |flat| && flat[b] == Mutations(flat)[0] && forall a :: 0 <= a < b ==> !flat[a].step.SystemAction?
  {
    if !flat[0].step.SystemAction? {
      FirstFlatMutation(flat[1..]);
      var b :| 0 <= b < |flat[1..]| && flat[1..][b] == Mutations(flat[1..])[0] && forall a :: 0 <= a < b ==> !flat[1..][a].step.SystemAction?;
      assert Mutations(flat) == Mutations(flat[1..]);
      assert flat[b + 1] == flat[1..][b];
      forall a | 0 <= a < b + 1 ensures !flat[a].step.SystemAction? {
        if a > 0 {
          assert flat[a] == flat[1..][a - 1];
        }
      }
    }
  }

  lemma FlatHoldsMutation(steps: seq<Step>, j: nat) returns (a: nat)
    requires j < |steps| && MayMutate(steps[j])
    ensures a < |FlattenUpTo(steps, |steps|)|
    ensures FlattenUpTo(steps, |steps|)[a].index == j && FlattenUpTo(steps, |steps|)[a].step.SystemAction?
  {
    hide FlattenUpTo;
    var flat := FlattenUpTo(steps, |steps|);
    var s :| s in Within(steps[j]) && s.SystemAction?;
    FlatIsComplete(steps, |steps|, j, s);
    var f :| f in flat && f.index == j && f.step == s;
    a :| 0 <= a < |flat| && flat[a] == f;
  }

  lemma NothingMutatesEarlier(steps: seq<Step>, b: nat, j: nat)
    requires b < |FlattenUpTo(steps, |steps|)| && j < FlattenUpTo(steps, |steps|)[b].index && j < |steps|
    requires forall a :: 0 <= a < b ==> !FlattenUpTo(steps, |steps|)[a].step.SystemAction?
    ensures !MayMutate(steps[j])
  {
    hide FlattenUpTo, MayMutate;
    if MayMutate(steps[j]) {
      var a := FlatHoldsMutation(steps, j);
      FlatIsOrdered(steps, |steps|, b, a);
    }
  }

  /** The index the source reads off the flattened list is that of the first step that may mutate. */
  lemma FirstMutationIndex(steps: seq<Step>)
    ensures var mutations := Mutations(FlattenUpTo(steps, |steps|));
      && (mutations == [] ==> NeverMutates(steps))
      && (mutations != [] ==> FirstMutation(steps, mutations[0].index))
  {
    hide FlattenUpTo, Mutations;
    var flat := FlattenUpTo(steps, |steps|);
    var mutations := Mutations(flat);
    if mutations == [] {
      forall i | 0 <= i < |steps| ensures !MayMutate(steps[i]) {
        if MayMutate(steps[i]) {
          var _ := FlatHoldsMutation(steps, i);
        }
      }
    } else {
      FirstFlatMutation(flat);
      var b :| 0 <= b < |flat| && flat[b] == mutations[0] && forall a :: 0 <= a < b ==> !flat[a].step.SystemAction?;
      assert mutations[0] in mutations;
      FlatIsSound(steps, |steps|, flat[b]);
      forall j | 0 <= j < flat[b].index ensures !MayMutate(steps[j]) {
        NothingMutatesEarlier(steps, b, j);
      }
    }
  }

  lemma KindPresentInFlat(steps: seq<Step>, kind: string)
    ensures KindPresent(steps, kind) <==> exists f :: f in FlattenUpTo(steps, |steps|) && KindOf(f.step) == kind
  {
    if KindPresent(steps, kind) {
      var i, s :| 0 <= i < |steps| && s in Within(steps[i]) && KindOf(s) == kind;
      FlatIsComplete(steps, |steps|, i, s);
    }
    if f :| f in FlattenUpTo(steps, |steps|) && KindOf(f.step) == kind {
      FlatIsSound(steps, |steps|, f);
    }
  }

  lemma BeforeFirstInFlat(steps: seq<Step>, kind: string, first: nat)
    requires FirstMutation(steps, first)
    ensures UnconditionallyBefore(steps, kind) <==>
            exists f :: f in FlattenUpTo(steps, |steps|) && KindOf(f.step) == kind && !f.conditional && f.index < first
  {
    if UnconditionallyBefore(steps, kind) {
      var i :| 0 <= i < |steps| && KindOf(steps[i]) == kind && forall j :: 0 <= j <= i ==> !MayMutate(steps[j]);
      FlatIsComplete(steps, |steps|, i, steps[i]);
    }
    if f :| f in FlattenUpTo(steps, |steps|) && KindOf(f.step) == kind && !f.conditional && f.index < first {
      FlatIsSound(steps, |steps|, f);
    }
  }

  lemma NextPattern(steps: seq<Step>, patterns: seq<Pattern>, n: nat)
    requires n < |patterns|
    ensures PatternsSatisfied(steps, patterns[..n + 1]) <==> PatternsSatisfied(steps, patterns[..n]) && PatternSatisfied(steps, patterns[n])
  {
    hide PatternSatisfied;
    assert patterns[..n + 1] == patterns[..n] + [patterns[n]];
  }

  /** `evaluateStepPatterns`: its list of reasons is empty exactly when every pattern is satisfied. */
  method EvaluateStepPatterns(steps: seq<Step>, patterns: seq<Pattern>) returns (reasons: seq<Failure>)
    ensures reasons == [] <==> PatternsSatisfied(steps, patterns)
  {
    hide FlattenUpTo, Mutations, PatternSatisfied, NeverMutates, FirstMutation;
    var flat := FlattenSteps(steps);
    var mutations := Mutations(flat);
    FirstMutationIndex(steps);
    reasons := [];
    assert PatternsSatisfied(steps, patterns[..0]);
    hide PatternsSatisfied;
    for n := 0 to |patterns|
      invariant reasons == [] <==> PatternsSatisfied(steps, patterns[..n])
    {
      var p := patterns[n];
      var reason := EvaluatePattern(steps, flat, mutations, p);
      NextPattern(steps, patterns, n);
      EmptyParts(reasons, reason);
      reasons := reasons + reason;
    }
    assert patterns[..|patterns|] == patterns;
  }

  method EvaluatePattern(steps: seq<Step>, flat: seq<Flat>, mutations: seq<Flat>, p: Pattern) returns (reason: seq<Failure>)
    requires flat == FlattenUpTo(steps, |steps|) && mutations == Mutations(flat)
    requires mutations == [] ==> NeverMutates(steps)
    requires mutations != [] ==> FirstMutation(steps, mutations[0].index)
    ensures |reason| <= 1 && (reason == [] <==> PatternSatisfied(steps, p))
  {
    KindPresentInFlat(steps, p.kind);
    if !exists f :: f in flat && KindOf(f.step) == p.kind {
      return [MissingPattern(p.kind)];
    }
    if p.position == "any" {
      return [];
    }
    if p.position == "before_first_mutation" {
      if mutations == [] {
        return [];
      }
      BeforeFirstInFlat(steps, p.kind, mutations[0].index);
      assert !NeverMutates(steps);
      if !exists f :: f in flat && KindOf(f.step) == p.kind && !f.conditional && f.index < mutations[0].index {
        return [PatternTooLate(p.kind)];
      }
      return [];
    }
    reason := [UnsupportedPosition(p.position)];
  }

  /** The forbidden operations a step performs, in the order they are declared. */
  function Offences(readers: Readers, step: Step, forbidden: seq<string>): (reasons: seq<Failure>)
    ensures reasons == [] <==> forall op :: op in forbidden ==> Folded(op) !in ClassesOf(readers, step)
  {
    if forbidden == [] then []
    else
      (if Folded(forbidden[0]) in ClassesOf(readers, step) then [ForbiddenOperation(step.id, Folded(forbidden[0]))] else [])
      + Offences(readers, step, forbidden[1..])
  }

  /** The reasons name the step and exactly the forbidden classes it performs. */
  lemma {:induction false} OffencesAreNamed(readers: Readers, step: Step, forbidden: seq<string>, reason: Failure)
    ensures reason in Offences(readers, step, forbidden) <==>
      exists op :: op in forbidden && Folded(op) in ClassesOf(readers, step) && reason == ForbiddenOperation(step.id, Folded(op))
  {
    hide Folded, ClassesOf;
    if forbidden != [] {
      OffencesAreNamed(readers, step, forbidden[1..], reason);
      assert forbidden == [forbidden[0]] + forbidden[1..];
    }
  }

  function Unevaluable(forbidden: seq<string>): (reasons: seq<Failure>)
    ensures reasons == [] <==> forall op :: op in forbidden ==> Folded(op) in EVALUABLE
  {
    if forbidden == [] then []
    else (if Folded(forbidden[0]) !in EVALUABLE then [UnevaluableOperation(Folded(forbidden[0]))] else []) + Unevaluable(forbidden[1..])
  }

  ghost predicate NoOffenceUpTo(readers: Readers, flat: seq<Flat>, forbidden: seq<string>, n: nat)
    requires n <= |flat|
  {
    forall m :: 0 <= m < n ==> Offences(readers, flat[m].step, forbidden) == []
  }

  lemma NextOffence(readers: Readers, flat: seq<Flat>, forbidden: seq<string>, n: nat)
    requires n < |flat|
    ensures NoOffenceUpTo(readers, flat, forbidden, n + 1) <==>
      NoOffenceUpTo(readers, flat, forbidden, n) && Offences(readers, flat[n].step, forbidden) == []
  {
  }

  lemma EmptyParts<T>(s: seq<T>, t: seq<T>)
    ensures s + t == [] <==> s == [] && t == []
  {
  }

  /** `evaluateForbiddenOperations`. */
  method EvaluateForbiddenOperations(readers: Readers, steps: seq<Step>, forbidden: seq<string>) returns (reasons: seq<Failure>)
    ensures reasons == [] <==> OperationsAllowed(readers, steps, forbidden)
    ensures reasons == [] <==> NothingForbiddenCarried(readers, steps, forbidden)
  {
    hide Unevaluable, Offences, FlattenUpTo, OperationsAllowed, NothingForbiddenCarried;
    reasons := Unevaluable(forbidden);
    var flat := FlattenSteps(steps);
    assert NoOffenceUpTo(readers, flat, forbidden, 0);
    hide NoOffenceUpTo;
    for n := 0 to |flat|
      invariant reasons == [] <==> Unevaluable(forbidden) == [] && NoOffenceUpTo(readers, flat, forbidden, n)
    {
      NextOffence(readers, flat, forbidden, n);
      EmptyParts(reasons, Offences(readers, flat[n].step, forbidden));
      reasons := reasons + Offences(readers, flat[n].step, forbidden);
    }
    OffencesAreComplete(readers, steps, forbidden, flat);
    AllowedIff(readers, steps, forbidden);
  }

  lemma OffencesAreComplete(readers: Readers, steps: seq<Step>, forbidden: seq<string>, flat: seq<Flat>)
    requires flat == FlattenUpTo(steps, |steps|)
    ensures Unevaluable(forbidden) == [] && NoOffenceUpTo(readers, flat, forbidden, |flat|) <==> OperationsAllowed(readers, steps, forbidden)
  {
    hide FlattenUpTo, Unevaluable, Offences;
    if Unevaluable(forbidden) == [] && NoOffenceUpTo(readers, flat, forbidden, |flat|) {
      forall op, i, s | op in forbidden && 0 <= i < |steps| && s in Within(steps[i])
        ensures Folded(op) !in ClassesOf(readers, s)
      {
        FlatIsComplete(steps, |steps|, i, s);
        var f :| f in flat && f.index == i && f.step == s;
        var m :| 0 <= m < |flat| && flat[m] == f;
        assert Offences(readers, flat[m].step, forbidden) == [];
      }
    }
    if OperationsAllowed(readers, steps, forbidden) {
      forall m | 0 <= m < |flat|
        ensures Offences(readers, flat[m].step, forbidden) == []
      {
        FlatIsSound(steps, |steps|, flat[m]);
        forall op | op in forbidden
          ensures Folded(op) !in ClassesOf(readers, flat[m].step)
        {
          assert !Performs(readers, steps, Folded(op));
        }
      }
    }
  }

  /** One criterion: a reason exactly when it is not met. */
  function Unless(met: bool, reason: Failure): (reasons: seq<Failure>)
    ensures reasons == [] <==> met
  {
    if met then [] else [reason]
  }

  function ExpiryReasons(expiresAt: Option<int>, now: int): (reasons: seq<Failure>)
    ensures reasons == [] <==> expiresAt.Some? && now < expiresAt.value
  {
    if expiresAt.None? then [UnparseableExpiry] else Unless(now < expiresAt.value, Expired)
  }

  function EnvironmentReasons(actual: Option<string>, approved: string): (reasons: seq<Failure>)
    ensures reasons == [] <==> actual == Some(approved)
  {
    if actual.None? then [UnknownEnvironment] else Unless(actual.value == approved, WrongEnvironment)
  }

  function DurationReasons(planned: Option<real>, limit: Option<real>): (reasons: seq<Failure>)
    ensures reasons == [] <==> limit.Some? && planned.Some? && planned.value <= limit.value
  {
    if limit.None? then [UnparseableLimit]
    else if planned.None? then [UnparseableDuration]
    else Unless(planned.value <= limit.value, TooLong)
  }

  /** `evaluateEntry`: all criteria are evaluated, and the entry applies when none failed. */
  method EvaluateEntry(readers: Readers, entry: Entry, plan: Plan, input: MatchInput) returns (failures: seq<Failure>)
    ensures failures == [] <==> Admits(readers, entry, plan, input)
  {
    hide PatternsSatisfied, OperationsAllowed, PlanRisk, RiskExceeds, Unless, ExpiryReasons, EnvironmentReasons, DurationReasons;
    failures := Unless(entry.catalogId in input.preAuthorized, NotPreAuthorized);
    failures := failures + ExpiryReasons(entry.expiresAt, input.now);
    failures := failures + Unless(plan.agentName == entry.agentName, WrongAgent);
    failures := failures + Unless(plan.scenario == entry.scenario, WrongScenario);
    failures := failures + EnvironmentReasons(input.environment, entry.environment);
    failures := failures + Unless(readers.versionAdmitted(plan.agentVersion, entry.versionConstraint), VersionRejected);
    failures := failures + Unless(!RiskExceeds(PlanRisk(plan.steps), entry.maxRiskLevel), RiskTooHigh);
    failures := failures + Unless(|plan.steps| <= entry.maxStepCount, TooManySteps);
    var patterns := EvaluateStepPatterns(plan.steps, entry.requiredStepPatterns);
    var operations := EvaluateForbiddenOperations(readers, plan.steps, entry.forbiddenOperations);
    failures := failures + patterns + operations;
    failures := failures + DurationReasons(readers.durationSeconds(plan.estimatedDuration), readers.durationSeconds(entry.maxEstimatedDuration));
  }

  /** The levels an entry grants, capped at its own maximum. */
  function CoveredLevels(levels: seq<RiskLevel>, max: RiskLevel): (covered: seq<RiskLevel>)
    ensures forall level :: level in covered <==> level in levels && !RiskExceeds(level, max)
  {
    if levels == [] then []
    else (if RiskExceeds(levels[0], max) then [] else [levels[0]]) + CoveredLevels(levels[1..], max)
  }

  /** They keep the order in which the entry grants them. */
  lemma {:induction false} CoveredKeepsOrder(levels: seq<RiskLevel>, max: RiskLevel)
    ensures CoveredLevels(levels, max) == Filter((level: RiskLevel) => Rank(level) <= Rank(max), levels)
  {
    if levels != [] {
      CoveredKeepsOrder(levels[1..], max);
    }
  }

  datatype MatchResult = NoMatch | Matched(entry: Entry, covered: seq<RiskLevel>)

  ghost predicate IsFirstAdmitting(readers: Readers, entries: seq<Entry>, plan: Plan, input: MatchInput, i: nat) {
    && i < |entries|
    && Admits(readers, entries[i], plan, input)
    && forall j :: 0 <= j < i ==> !Admits(readers, entries[j], plan, input)
  }

  /** The outcome of `matchCatalog` over a list of entries. */
  ghost predicate MatchOutcome(readers: Readers, entries: seq<Entry>, plan: Plan, input: MatchInput, result: MatchResult) {
    match result
    case NoMatch => forall j :: 0 <= j < |entries| ==> !Admits(readers, entries[j], plan, input)
    case Matched(entry, covered) =>
      exists i: nat :: IsFirstAdmitting(readers, entries, plan, input, i) && entry == entries[i]
        && covered == CoveredLevels(entry.satisfiesApprovalFor, entry.maxRiskLevel)
  }

  /** The process-wide catalog source. Until it is configured nothing is pre-authorized. */
  class CatalogSource {
    var configured: seq<Entry>

    constructor ()
      ensures configured == []
    {
      configured := [];
    }

    method Configure(entries: seq<Entry>)
      modifies this
      ensures configured == entries
    {
      configured := entries;
    }

    method Clear()
      modifies this
      ensures configured == []
    {
      configured := [];
    }

    method MatchCatalog(readers: Readers, plan: Plan, input: MatchInput) returns (result: MatchResult)
      ensures MatchOutcome(readers, configured, plan, input, result)
    {
      for i := 0 to |configured|
        invariant forall j :: 0 <= j < i ==> !Admits(readers, configured[j], plan, input)
      {
        var failures := EvaluateEntry(readers, configured[i], plan, input);
        if failures == [] {
          var entry := configured[i];
          assert IsFirstAdmitting(readers, configured, plan, input, i);
          return Matched(entry, CoveredLevels(entry.satisfiesApprovalFor, entry.maxRiskLevel));
        }
      }
      result := NoMatch;
    }
  }

  // ---- what a match means ----

  /** Both durations can be read, and the planned one does not exceed the limit. */
  ghost predicate WithinDuration(readers: Readers, planned: string, limit: string) {
    exists d, l :: readers.durationSeconds(planned) == Some(d) && readers.durationSeconds(limit) == Some(l) && d <= l
  }

  lemma DurationIff(readers: Readers, plan: Plan, limit: string)
    ensures DurationAllowed(readers, plan, limit) <==> WithinDuration(readers, plan.estimatedDuration, limit)
  {
  }

  /** A matched plan performs no forbidden operation at any depth, stays within the entry's risk, and
      is granted no level above it. Without a configured source nothing matches. */
  lemma MatchIsSound(readers: Readers, entries: seq<Entry>, plan: Plan, input: MatchInput, result: MatchResult)
    requires MatchOutcome(readers, entries, plan, input, result)
    ensures entries == [] ==> result == NoMatch
    ensures result.Matched? ==>
      && result.entry in entries
      && result.entry.catalogId in input.preAuthorized
      && (result.entry.expiresAt.Some? && result.entry.expiresAt.value > input.now)
      && result.entry.agentName == plan.agentName && result.entry.scenario == plan.scenario
      && input.environment.Some? && input.environment.value == result.entry.environment
      && readers.versionAdmitted(plan.agentVersion, result.entry.versionConstraint)
      && result.entry.maxStepCount >= |plan.steps|
      && WithinDuration(readers, plan.estimatedDuration, result.entry.maxEstimatedDuration)
      && (forall p :: p in result.entry.requiredStepPatterns ==> PatternSatisfied(plan.steps, p))
      && NothingForbiddenCarried(readers, plan.steps, result.entry.forbiddenOperations)
      && (forall level :: level in result.covered ==> Rank(level) <= Rank(result.entry.maxRiskLevel))
      && (WellTypedSteps(plan.steps) ==>
            forall i, s :: 0 <= i < |plan.steps| && s in Within(plan.steps[i]) && s.SystemAction?
              ==> Rank(s.riskLevel) <= Rank(result.entry.maxRiskLevel))
  {
    if result.Matched? {
      var i: nat :| IsFirstAdmitting(readers, entries, plan, input, i) && result.entry == entries[i]
        && result.covered == CoveredLevels(result.entry.satisfiesApprovalFor, result.entry.maxRiskLevel);
      AllowedIff(readers, plan.steps, result.entry.forbiddenOperations);
      DurationIff(readers, plan, result.entry.maxEstimatedDuration);
      if WellTypedSteps(plan.steps) {
        forall i, s | 0 <= i < |plan.steps| && s in Within(plan.steps[i]) && s.SystemAction?
          ensures Rank(s.riskLevel) <= Rank(result.entry.maxRiskLevel)
        {
          PlanRiskCoversEveryAction(plan.steps, i, s);
        }
      }
    }
  }

  /** Every criterion but the one on operations, in the entry's and the plan's own terms. */
  ghost predicate OtherwiseMet(readers: Readers, entry: Entry, plan: Plan, input: MatchInput) {
    && entry.catalogId in input.preAuthorized
    && (entry.expiresAt.Some? && entry.expiresAt.value > input.now)
    && entry.agentName == plan.agentName && entry.scenario == plan.scenario
    && input.environment.Some? && input.environment.value == entry.environment
    && readers.versionAdmitted(plan.agentVersion, entry.versionConstraint)
    && MaxRank(plan.steps) <= Rank(entry.maxRiskLevel)
    && entry.maxStepCount >= |plan.steps|
    && WithinDuration(readers, plan.estimatedDuration, entry.maxEstimatedDuration)
    && forall p :: p in entry.requiredStepPatterns ==> PatternSatisfied(plan.steps, p)
  }

  lemma AdmitsIff(readers: Readers, entry: Entry, plan: Plan, input: MatchInput)
    ensures Admits(readers, entry, plan, input) <==>
      OtherwiseMet(readers, entry, plan, input) && NothingForbiddenCarried(readers, plan.steps, entry.forbiddenOperations)
  {
    hide PatternSatisfied, OperationsAllowed, NothingForbiddenCarried, MaxRank;
    AllowedIff(readers, plan.steps, entry.forbiddenOperations);
    DurationIff(readers, plan, entry.maxEstimatedDuration);
  }

  /** A plan matches exactly when some entry's criteria are met and no step carries one of the classes that
      entry forbids. */
  lemma MatchesIff(readers: Readers, entries: seq<Entry>, plan: Plan, input: MatchInput, result: MatchResult)
    requires MatchOutcome(readers, entries, plan, input, result)
    ensures result.Matched? <==> exists entry :: entry in entries && OtherwiseMet(readers, entry, plan, input)
                                   && NothingForbiddenCarried(readers, plan.steps, entry.forbiddenOperations)
  {
    hide NothingForbiddenCarried, Admits, OtherwiseMet;
    forall entry
      ensures Admits(readers, entry, plan, input) <==>
        OtherwiseMet(readers, entry, plan, input) && NothingForbiddenCarried(readers, plan.steps, entry.forbiddenOperations)
    {
      AdmitsIff(readers, entry, plan, input);
    }
    if result.Matched? {
      var i: nat :| IsFirstAdmitting(readers, entries, plan, input, i);
    }
  }

  /** `b` is at least as strict as `a` in every criterion, and otherwise the same entry. */
  ghost predicate Tightened(readers: Readers, a: Entry, b: Entry) {
    && b.catalogId == a.catalogId && b.agentName == a.agentName && b.scenario == a.scenario && b.environment == a.environment
    && b.versionConstraint == a.versionConstraint
    && (forall op :: op in a.forbiddenOperations ==> op in b.forbiddenOperations)
    && (forall p :: p in a.requiredStepPatterns ==> p in b.requiredStepPatterns)
    && b.maxStepCount <= a.maxStepCount
    && Rank(b.maxRiskLevel) <= Rank(a.maxRiskLevel)
    && (b.expiresAt.Some? ==> a.expiresAt.Some? && b.expiresAt.value <= a.expiresAt.value)
    && (readers.durationSeconds(b.maxEstimatedDuration).Some? ==>
          readers.durationSeconds(a.maxEstimatedDuration).Some? &&
          readers.durationSeconds(b.maxEstimatedDuration).value <= readers.durationSeconds(a.maxEstimatedDuration).value)
  }

  /** Tightening entries never turns an unmatched plan into a matched one. */
  lemma TighteningNeverAdmits(readers: Readers, entries: seq<Entry>, tighter: seq<Entry>, plan: Plan, input: MatchInput,
                              result: MatchResult, later: MatchResult)
    requires |tighter| == |entries|
    requires forall i :: 0 <= i < |entries| ==> Tightened(readers, entries[i], tighter[i])
    requires MatchOutcome(readers, entries, plan, input, result) && MatchOutcome(readers, tighter, plan, input, later)
    ensures result.NoMatch? ==> later.NoMatch?
  {
    if later.Matched? {
      var i: nat :| IsFirstAdmitting(readers, tighter, plan, input, i);
      TighterAdmitsLess(readers, entries[i], tighter[i], plan, input);
      assert Admits(readers, entries[i], plan, input);
    }
  }

  lemma TighterAdmitsLess(readers: Readers, a: Entry, b: Entry, plan: Plan, input: MatchInput)
    requires Tightened(readers, a, b) && Admits(readers, b, plan, input)
    ensures Admits(readers, a, plan, input)
  {
  }
}
