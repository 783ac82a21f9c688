# CrisisMode in Dafny

CrisisMode turns a diagnosis into a recovery plan, decides whether the plan may go ahead without a
human, executes it, and undoes it when it fails. This project models that pipeline and a few
self-contained algorithms beside it, and proves what they promise. `dafny verify dfyconfig.toml` checks
all of it.

## How the model is built

* **Plans** (`Plans.dfy`) are values: steps, commands, checks, captures, rollback directives.
* **The outside world is a set of oracles** (`Runs.dfy`). What the backend answers to a command or a
  check, what a human types, what a host passes to `resume` and what the agent replies when it is asked
  to replan are functions of the whole history so far. A statement about every `World` is therefore a
  statement about every behaviour of all of them. A history records captures, checks, commands, state
  transitions, decisions, agent calls and the closing of each top-level step.
* **The sequential engine** (`LegacyEngine.dfy`) is a class that updates its state step by step; each of
  its methods is proved equal to a function of the history. **The checkpointed engine**
  (`GraphEngine.dfy`, `GraphRunner.dfy`) is a transition system: nodes return updates, reducers merge
  them, edges route on the merged state, an interrupted node is entered again from its start. Its
  streaming loop is proved to end and to stay on that transition system.
* `Refinement.dfy`, `Divergence.dfy`, `GuardedMutation.dfy`, `Sequencing.dfy`, `HumanGate.dfy`,
  `Unattended.dfy`, `Skipping.dfy`, `Replanning.dfy`, `CatalogGate.dfy`, `GateExactness.dfy`,
  `Approvals.dfy`, `Rollback.dfy` and `Saga.dfy` hold the properties of whole runs. Lemmas that compose a
  static gate with a run (`CatalogGate`, `GateExactness`, `Bundle`, `Approvals`) rest on
  `Sequencing.EveryRunIsSequenced`.
* `Catalog`, `Bundle`, `Contributions`, `Announcement`, `Templates`, `Checks`, `Risk`, `Safety` and
  `Providers` are the gates and checks; `Synthesis`, `Deduplication`, `Reporting`, `Sharing`, `Dropping`
  and `Permutation` the correlation of evidence; `EditDistance`, `JsonRepair`, `CaptureStore` and
  `CrashSafety`, `Checksum` and `Canonical` the compact algorithms. The four stable sorts share
  `Lists.SortBy`.
* Functions the whole model shares are pinned on their own: what folding, trimming and normalising keep
  (`Text`), which checks ask anything (`Checks`), what an answer at the prompt says (`Coordinator`), which
  classes a command carries (`Catalog`) and when an agent was last seen unhealthy (`Synthesis`) are each
  stated on characters, fields and positions.

## Where the code is not what one might assume

The model follows the code. Each of these is stated by a lemma, with the condition under which the
expected property does hold.

* The sequential engine returns some promises without awaiting them inside its `try`, so a check that
  throws rejects the whole run. The graph rejects on a throwing check as well, and the two part only on
  a throwing diagnosis command, which the graph turns into a failed step
  (`Divergence.DiagnosisAlikeIffItReturns`): over a whole run they agree exactly when none threw in it
  (`Refinement.EnginesAgree`).
* In a branch the sequential engine executes only system actions and notifications and reports anything
  else as a success (`Divergence.BranchAlikeIffExecuted`).
* The graph approves by itself when it has no handler: for a high-risk plan a human decides every approval
  in every world exactly when there is a handler or the setting refuses a step before each approval
  (`Unattended.PromiseIsKeptIff`, `Divergence.HandlerlessApprovalAlikeIffAutomatic`). It reads any resume string other than "rejected"
  and "skipped" as approval (`HumanGate.ResumedSuccessIffNotARefusal`).
* An approval inside a revised plan is judged by the revised plan in the sequential engine
  (`HumanGate.RevisedApprovalIsPrompted`) and by the outer plan in the graph
  (`HumanGate.RevisedApprovalAsksIff`). A skipped approval stops a plan and not a revised plan, in either
  engine: behind it the action runs unless the approval is rejected (`Skipping.RevisedActionRunsIff`,
  `Skipping.RevisedNodeRunsIff`; compare `Skipping.TopActionRunsIff`).
* The bundle translator inserts approvals by the template's mutation type. Every system action of every
  bundle plan awaits its approval exactly over registries whose system templates all declare a mutation
  (`Approvals.EveryActionAwaitsIff`); otherwise one of any risk can run without
  (`Approvals.UndeclaredActionRunsUnapproved`).
* `executionOutcome` never becomes `success`, and a failing mutation inside a branch does not set
  `rollbackNeeded` (`GraphEngine.ReachableKeepsInvariant`).
* A blank name in the trigger or the topology normalises to the empty reference, which overlaps every
  target: the blast-radius test is then off (`Safety.BlankContextNameAdmitsEveryTarget`).
* A failed required capture is a branch both engines test for and never enter
  (`Safety.RequiredCapturesAreTaken`).
* `getMaxRiskIndex` looks one level deep. It finds the true maximum exactly when no deeper action outranks
  every action it sees (`Risk.ShallowIsExactIff`), as on the steps the source's types allow; a nested
  conditional can hide a critical action from it (`Risk.NestedBranchHidesRisk`).
* The catalog's "before the first mutation" looks at the plan alone, and a replanning checkpoint can act
  earlier. Every run is guarded exactly when a step of the kind stands before each step that can be
  reached and can act (`GateExactness.GateIsExact`); for a matched plan that is: before each step that may
  hand over to the agent there is one of the kind or one that may mutate
  (`GateExactness.MatchedGateIsExact`). A plan the catalog admits can escape
  (`GateExactness.AdmittedPlanEscapes`). The levels a match covers also apply to revised plans that were
  never matched, within the bounds of `CatalogGate.CoverageIsBounded`.
* Rollback undoes successes only. A step whose command returned and whose success check failed keeps its
  whole effect (`Rollback.FailedActionEffect`, `Saga.RestoredIffFailedStepLeftNoTrace`), and so do branch
  actions and revised plans: the initial state comes back exactly when none of these has a net effect
  (`Saga.RestoredIffOnlySuccessesShow`).
* A rollback node can report a step as rolled back without having sent anything; that is so exactly for
  manual directives, command directives without a command, and automatic ones whose store yields nothing
  (`Rollback.SilentIffNothingToSend`, `Rollback.ReportedWithoutActingIff`). Rollback knows no dry run: what
  a dry run pretended to do is undone for real, unless nothing eligible has anything to send
  (`Rollback.DryRunIsUndoneForReal`).
* A registration of the built-in templates that was refused half-way is refused again until a reset
  (`Templates.PartialRegistrationSticks`).
* A bundle plan may announce routine-risk mutating steps and hold a riskier one, or announce a directive
  for each mutating step and lack one. The first never happens exactly over registries without an
  uncovered template above routine risk (`Announcement.ByHandIsTrueIff`), the second exactly where all
  system templates carry a directive or none does (`Announcement.PerStepIsTrueIff`).
* The uncorrelated list names agent kinds, so a target can be in no cluster and not in that list either:
  two silent instances beside two that are out of resources, under any table with the platform rule
  (`Dropping.SilentInstanceIsDropped`). A target is dropped exactly when no reporting rule matches it and
  one matches another of its kind (`Dropping.DroppedIff`; where rules do not compete, read off the rules
  that fire: `Dropping.DroppedWithoutContentionIff`). Evidence whose kinds all differ drops nothing
  (`Dropping.DistinctKindsDropNothing`), and only a table whose rules can never fire drops nothing of any
  evidence (`Dropping.TableDropsNothingIff`).
* A trimmed cluster may lose the shared entity its rule requires (`Sharing.TrimmingCanBreakSharing`). It
  still shares exactly when each agent left to it has a partner left as well (`Sharing.ReportedSharingIff`),
  and always when no other specific rule that fires matches its agents (`Sharing.UncontestedKeepsSharing`).
* A crash inside the capture store's clean-up leaves index entries whose files are gone, at every point
  but its two ends (`CrashSafety.CleanupBackedIffAtAnEnd`); no other crash does (`CrashSafety.CrashSafe`).
* A file name with a newline, a digest and two spaces in it can defeat the manifest checksum
  (`Checksum.BreakingNamesCollide`); names in which no newline is followed by a digest of something and two
  spaces never do (`Checksum.ChecksumBindsFiles`), so none without a newline does
  (`Checksum.NewlineFreeNamesBind`).

## Model

| member | source | states |
|---|---|---|
| Refinement.EnginesAgree | src/framework/graph-engine.ts:97-154 | For plans without replanning whose branches hold only actions and notifications, with the same human answers: the graph reaches an end, and every end it can reach has the sequential run's events, results and way of ending if and only if no diagnosis command rejected that run |
| Refinement.SimulateFrom | src/framework/engine.ts:96-143 | From corresponding states the graph takes the rest of the plan to where the sequential loop takes it, or, where a diagnosis command rejects that loop, to a failed diagnosis step |
| Refinement.SimulateStep | src/framework/engine.ts:156-202 | One step of the sequential loop is matched by one or, with a human decision, three moves of the graph |
| Refinement.ActionsAlike | src/framework/graph-nodes.ts:153-313 | A system action leaves the same events and ends the same way in both engines, for every answer of the backend |
| Refinement.ApprovalsAlike | src/framework/graph-nodes.ts:319-380 | A human-decided approval suspends without an event and, entered again with the decision, ends as the prompt does |
| Refinement.ConditionalsAlike | src/framework/graph-nodes.ts:457-515 | A conditional with executable branches is alike in both engines, throwing checks included |
| Divergence.DiagnosisAlikeIffItReturns | src/framework/graph-nodes.ts:54-81 | A diagnosis step is alike in the two engines exactly when its command does not throw |
| Divergence.BranchAlikeIffExecuted | src/framework/engine.ts:554-566 | A branch step is alike exactly when it is a system action, a notification or an empty checkpoint |
| Divergence.HandlerlessApprovalAlikeIffAutomatic | src/framework/graph-nodes.ts:357-361 | Without a handler an approval is alike exactly when policy approves it automatically |
| GuardedMutation.EveryRunIsGuarded | src/framework/engine.ts:263-408 | In every run of either engine, branches and revised plans included, a system action's command is issued in execute mode only, after a valid blast radius and resolved providers, and the immediately preceding events are all before-captures, the required ones captured, and one question to the backend, answered "holds", for each precondition with a statement, of a kind that always asks, or naming an operation |
| GuardedMutation.ActionSendsIff | src/framework/engine.ts:324-361 | In either engine an action sends its command exactly in execute mode, when nothing refuses it and the backend says "holds" to every such precondition, each asked after those before it |
| GuardedMutation.ActionSucceedsIff | src/framework/engine.ts:361-408 | It succeeds exactly when besides, in execute mode, the command returns and the success check, if it asks anything, holds |
| Runs.MovesIff | src/framework/engine.ts:353-355 | A state transition is reported exactly when the step names one |
| Sequencing.OnlyAssertingChecksAreAsked | src/framework/check-helpers.ts:40-52 | In every run of either engine the backend is asked only checks that have a statement, are of a kind that always asks, or name an operation |
| Checks.NoOpIff | src/framework/check-helpers.ts:40-52 | A check passes unasked exactly when it has no statement with a non-space character and is an expression, or a placeholder or field check whose operation is missing or blank |
| Checks.AskAllIff | src/framework/engine.ts:324-339 | A list of preconditions is let through exactly when each that asks anything holds, and leaves one question for each of those in order |
| GuardedMutation.DryRunOnlyDiagnoses | src/framework/graph-nodes.ts:237-273 | In a dry run of either engine the only commands the backend receives are those of diagnosis steps |
| GuardedMutation.ActionShape | src/framework/graph-nodes.ts:161-290 | A system action either sends nothing or sends exactly its command, right after its captures and checks |
| Sequencing.EveryRunIsSequenced | src/framework/engine.ts:96-143 | In every run of either engine each event belongs to one top-level step, and by then every earlier step has returned a result that lets the run go on |
| Sequencing.NodeGrows | src/framework/graph-nodes.ts:520-545 | A node only adds events of its own step and branches unless the agent can add steps, and closes no top-level step |
| HumanGate.HumanDecidesHighRisk | src/framework/engine.ts:410-459 | With a high or critical action at top level or in a branch, every top-level approval that succeeds was answered by a human just before: at the prompt with a text that says approve, a, yes or y, or with a handler with a resume string that refuses nothing, whatever the catalog, trust and policy |
| HumanGate.PromptOutcomeIff | src/framework/engine.ts:436-459 | A prompted approval succeeds if and only if the typed text is approve, a, yes or y, and is skipped if and only if it is skip or s, up to white space at both ends and letter case; everything else fails it |
| Coordinator.AnswerIff | src/framework/coordinator.ts:30-37 | The same of the reading of the answer by itself |
| HumanGate.HighRiskIsNeverAutomatic | src/framework/coordinator.ts:48-71 | No trust level, catalog or policy approves a plan holding a high or critical action |
| HumanGate.AutomaticApprovalIsBounded | src/framework/coordinator.ts:48-71 | Automatic approval stops at elevated risk, and at routine where policy wants elevated actions decided live |
| HumanGate.AutomaticApprovalIff | src/framework/coordinator.ts:48-71 | The decision on a plan's fields: its risk, the trust of its scenario, the levels covered and the policy |
| Coordinator.ApprovalIsAThreshold | src/framework/coordinator.ts:48-71 | The decision is a threshold on risk: none, routine, or routine and elevated, never high |
| Coordinator.ApprovalIsMonotone | src/framework/coordinator.ts:48-71 | What is approved automatically stays so at lower risk, with more trust, with catalog coverage and without the policy |
| HumanGate.ResumedSuccessIffNotARefusal | src/framework/graph-nodes.ts:346-379 | A resumed approval succeeds exactly when the string is neither "rejected" nor "skipped" |
| HumanGate.EachApprovalTakesOneDecision | src/framework/graph-nodes.ts:330-361 | An approval that asks takes the next decision and records it; one that does not ask takes none |
| HumanGate.HandlerlessGraphApprovesHighRisk | src/framework/graph-nodes.ts:357-361 | Without a handler no approval in any state the graph can reach was decided by a human, high-risk plans included |
| HumanGate.GraphKeepsThePromiseIff | src/framework/graph-nodes.ts:330-361 | For a high-risk plan every successful approval of a reachable state was resumed with a human's decision exactly when there is a handler or no approval succeeded |
| Unattended.PromiseIsKeptIff | src/framework/graph-nodes.ts:357-361 | For a high-risk plan and any setting, every approval in every run of the graph is decided by a human if and only if there is a handler or a step before each approval is one the setting refuses |
| Unattended.ApprovalInReachIsPassed | src/framework/graph-nodes.ts:357-361 | Without a handler some run passes an approval whose earlier steps can all be passed |
| HumanGate.RevisedApprovalIsPrompted | src/framework/engine.ts:505-518 | An approval inside a revised plan that holds a high-risk action prompts the human in the sequential engine, and fails without an answer |
| HumanGate.RevisedApprovalAsksIff | src/framework/graph-nodes.ts:425-434 | In the graph, with a handler, it asks exactly when the outer plan is not approved automatically |
| Skipping.RevisedActionRunsIff | src/framework/engine.ts:505-518 | In a revised plan the action behind an approval has its command sent exactly when the approval is automatic, approved or skipped |
| Skipping.TopActionRunsIff | src/framework/engine.ts:133-142 | In the plan itself exactly when it is automatic or approved |
| Skipping.RevisedNodeRunsIff | src/framework/graph-nodes.ts:425-450 | In the graph's revised steps exactly when it is automatic, there is no handler, or the decision is anything but "rejected" |
| CatalogGate.MatchedPatternGuardsEveryRun | src/framework/catalog.ts:345-383 | If a match's entry requires a step kind before the first mutation, and before each step that may hand over to the agent there is one of the kind or one that may mutate, then in every run of either engine a top-level step of that kind has returned without failing before any system action starts |
| CatalogGate.FirstStepGuardsEveryRun | src/framework/catalog.ts:336-344 | The same for any plan whose required step stands before everything that may mutate or replan |
| GateExactness.GateIsExact | src/framework/catalog.ts:336-383 | On well-typed plans every run of either engine, in every setting and world, has a step of the kind done before any system action starts if and only if such a step stands before each step that can be reached and can act |
| GateExactness.MatchedGateIsExact | src/framework/catalog.ts:345-383 | For a matched plan the condition of `MatchedPatternGuardsEveryRun` is also necessary |
| GateExactness.GuardInLivePlans | src/framework/catalog.ts:336-344 | Where every action names a target and no branch is dead, the condition is that a step of the kind stands before everything that may mutate or replan, or nothing may |
| GateExactness.AdmittedPlanEscapes | src/framework/catalog.ts:140-292 | A concrete plan that the catalog admits with a step required before mutation, and that some run carries out an action of before that step |
| GateExactness.ReplanningEscapesTheGate | src/framework/engine.ts:461-519 | Wherever in a plan the sequential engine reaches a replanning checkpoint, with whatever captures, the agent can have a system action's command be the next event after its own reply |
| GateExactness.UnhinderedActionRuns | src/framework/engine.ts:263-408 | An action without required capabilities, captures or preconditions, aimed at its context's own target, sends its command |
| CatalogGate.CoverageIsBounded | src/framework/catalog.ts:295-299 | What a match's covered levels approve beyond policy stays within the entry's maximum and below high |
| Catalog.CatalogSource.MatchCatalog | src/framework/catalog.ts:92-127 | Returns the first configured entry that admits the plan with its capped levels, or no match when none does |
| Catalog.CatalogSource.constructor | src/framework/catalog.ts:67-67 | The source starts unconfigured |
| Catalog.CatalogSource.Configure | src/framework/catalog.ts:74-76 | Installs exactly the given entries |
| Catalog.CatalogSource.Clear | src/framework/catalog.ts:79-81 | Returns to the fail-closed empty source |
| Catalog.EvaluateEntry | src/framework/catalog.ts:140-292 | No failure is collected exactly when the entry admits the plan by all eleven criteria |
| Catalog.EvaluateStepPatterns | src/framework/catalog.ts:345-383 | No reason is collected exactly when every pattern is present and, where it must precede mutation, stands unconditionally before every step that may mutate |
| Catalog.EvaluateForbiddenOperations | src/framework/catalog.ts:470-500 | No reason is collected exactly when every forbidden class is one that can be evaluated and no system action or diagnosis at any depth names it as subtype or operation, up to outer white space and case, or has a statement recognised as one |
| Catalog.FlattenSteps | src/framework/catalog.ts:323-334 | Computes the recursive traversal that the next two rows characterise |
| Catalog.FlatIsComplete | src/framework/catalog.ts:323-334 | Every step at any nesting depth is in the flattened list under its top-level index |
| Catalog.FlatIsSound | src/framework/catalog.ts:323-334 | Nothing else is, and an unconditional entry is the top-level step itself |
| Catalog.FirstMutationIndex | src/framework/catalog.ts:349-351 | The index read off the flattened list is that of the first top-level step that may mutate |
| Catalog.MatchIsSound | src/framework/catalog.ts:92-127 | A matched plan meets the entry's agent, scenario, environment, version, expiry, length, duration and patterns, carries none of its forbidden classes in any command's own fields at any depth, holds no action above its maximum risk and is granted no level above it; without a source nothing matches |
| Catalog.MatchesIff | src/framework/catalog.ts:92-127 | A plan matches exactly when some entry's other criteria are met and no step carries a class it forbids |
| Catalog.AllowedIff | src/framework/catalog.ts:438-500 | The class test in terms of the commands' subtype, operation and statement |
| Catalog.PatternMeans | src/framework/catalog.ts:345-383 | A pattern asks that its kind occurs at some depth and, before the first mutation, that one stands outside any branch with no system action in it or before it; other positions are never satisfied |
| Catalog.KindNames | src/framework/catalog.ts:323-334 | The step kinds under the names the patterns use |
| Catalog.TighteningNeverAdmits | src/framework/catalog.ts:140-292 | More forbidden operations or patterns, lower limits, earlier expiry: an unmatched plan stays unmatched |
| Catalog.CoveredLevels | src/framework/catalog.ts:295-299 | Covered are exactly the granted levels that do not exceed the entry's maximum |
| Risk.GetMaxRiskIndex | src/framework/risk.ts:42-58 | The loop computes the one-level maximum |
| Risk.MaxRankIsMaximumOfStepRisk | src/framework/risk.ts:25-58 | On well-typed plans that maximum is the maximum of the recursive step risk |
| Risk.StepRiskIsMaximum | src/framework/risk.ts:25-36 | A step's risk is attained by one of its actions and exceeded by none |
| Risk.PlanRiskCoversEveryAction | src/framework/risk.ts:63-65 | No action in a well-typed plan is riskier than the plan |
| Risk.ShallowNeverExceedsDeep | src/framework/risk.ts:42-58 | Looking one level deep never overstates a step |
| Risk.ShallowIsExactIff | src/framework/risk.ts:42-58 | On any plan it finds the true maximum if and only if no action, however deep, outranks every action it looks at |
| Risk.NestedBranchHidesRisk | src/framework/risk.ts:48-55 | A critical action under two conditionals leaves the plan routine |
| Safety.ValidateBlastRadius | src/framework/safety.ts:289-361 | Valid exactly when the context is declared and some known reference overlaps the normalised target |
| Safety.CollectReferences | src/framework/safety.ts:314-330 | The collected set is exactly the references named by manifest, step, trigger and topology |
| Safety.EmptyReferenceComesFromContext | src/framework/safety.ts:321-330 | The empty reference is known exactly when trigger or topology supplies a blank name |
| Safety.BlankContextNameAdmitsEveryTarget | src/framework/safety.ts:321-336 | With such a name the test accepts every non-blank target in a declared context |
| Safety.AcceptedTargetIsRepresented | src/framework/safety.ts:289-361 | Without one, an accepted target overlaps a genuine non-blank reference |
| Safety.RequiredCapturesAreTaken | src/framework/safety.ts:143-173 | The synchronous capture always captures a required directive, so neither engine's failure branch is entered |
| Safety.CaptureIsTakenIff | src/framework/safety.ts:143-173 | A capture is taken exactly when it is required, or best effort and not expensive; otherwise it is skipped |
| Safety.OverlapIff | src/framework/safety.ts:332-336 | A reference and a target overlap exactly when one stands somewhere in the other |
| Safety.FindsTheFirst | src/framework/safety.ts:289-300 | Of several declarations of one context the first counts |
| Providers.ResolutionIsFirstSuited | src/framework/provider-registry.ts:53-151 | A capability resolves exactly when its context offers it and some provider suits, and then to the first that does |
| Providers.StepResolvedIff | src/framework/provider-registry.ts:53-151 | An action may go ahead exactly when its context and the registry offer each required capability and some provider supports it in this mode, context, command type and target kind |
| Providers.BlockedFor | src/framework/provider-registry.ts:93-151 | Why no provider serves a capability that is offered: the first of five tests that leaves none |
| Providers.NotOffered | src/framework/provider-registry.ts:53-92 | Why a capability is not offered: context, registry, the context's list, target kind, in this order |
| Providers.ChainIsConjunction | src/framework/provider-registry.ts:93-151 | The successive filters keep exactly the providers that pass all five tests |
| LegacyEngine.LegacyExecutionEngine.constructor | src/framework/engine.ts:53-74 | A new engine has run nothing |
| LegacyEngine.LegacyExecutionEngine.ExecutePlan | src/framework/engine.ts:80-154 | Results, history, execution state and way of ending are those of the run function, for any plan and world |
| LegacyEngine.LegacyExecutionEngine.ExecuteStep | src/framework/engine.ts:156-202 | Each kind of step updates the state as the step function says, with exactly the source's catches |
| LegacyEngine.LegacyExecutionEngine.ExecuteSystemAction | src/framework/engine.ts:263-408 | The seven phases leave the events and status of the action function |
| LegacyEngine.LegacyExecutionEngine.ExecuteApproval | src/framework/engine.ts:410-459 | Automatic, prompted or thrown: status and recorded decision of the approval function |
| LegacyEngine.LegacyExecutionEngine.ExecuteRevisedPlan | src/framework/engine.ts:505-518 | The nested loop appends its results and stops at a failure, not at a skipped approval |
| LegacyEngine.LegacyExecutionEngine.ExecuteConditional | src/framework/engine.ts:521-552 | Takes the branch the check selects, or skips |
| LegacyEngine.LegacyExecutionEngine.ExecuteBranchStep | src/framework/engine.ts:554-566 | Executes system actions; everything else succeeds without an event |
| LegacyEngine.LegacyExecutionEngine.TakeCaptures | src/framework/engine.ts:300-318 | Records every capture in order and reports whether a required one failed |
| LegacyEngine.LegacyExecutionEngine.CheckPreconditions | src/framework/engine.ts:324-339 | Asks in order and stops at the first that does not hold |
| LegacyEngine.LegacyExecutionEngine.EvaluateCheck | src/framework/check-helpers.ts:40-52 | A check that asserts nothing holds without asking the backend |
| Replanning.ReplyDecidesTheRun | src/framework/engine.ts:476-519 | In the sequential engine an abort or a reply that throws ends the run at the failed checkpoint, and "continue" goes on with the next step |
| Replanning.ReplyDecidesTheGraph | src/framework/graph-nodes.ts:386-450 | In the graph an abort ends it with the outcome "aborted", a reply that throws is an exception, and "continue" goes on |
| Replanning.RevisionDecidesTheCheckpoint | src/framework/engine.ts:505-519 | With a revised plan the checkpoint succeeds exactly when that plan does, and a step of it that throws fails the checkpoint |
| Replanning.RevisedPlanRecordsItsSteps | src/framework/engine.ts:505-518 | A revised plan records the results of its steps in order, all of them on success and up to the failure otherwise |
| Replanning.ShownAreTheResults | src/framework/engine.ts:96-143 | Without checkpoints the record kept for the agent is exactly the results |
| Replanning.RevisionDecidesTheNode | src/framework/graph-nodes.ts:425-450 | In the graph a revised plan leaves the checkpoint's own success, or its failure with the outcome "failed" |
| GraphEngine.ReachableKeepsInvariant | src/framework/graph-engine.ts:97-142 | At every reachable state result k is that of plan step k, only the last can halt the run, the outcome is not pending exactly when it does, "failed" for failures and "aborted" for skipped approvals and aborted checkpoints only, rollback is needed exactly when the last step is a failed system action, a failed step's id is recorded unless it is an approval or a checkpoint of the agent's, and the plan never changes |
| GraphEngine.AdvanceKeepsInvariant | src/framework/graph-state.ts:21-75 | Every single move keeps that invariant from any state satisfying it |
| GraphEngine.NodeIsFaithful | src/framework/graph-nodes.ts:48-515 | Every node yields exactly one result for its step, and its other channels follow from that result |
| GraphRunner.RecoveryGraphEngine.constructor | src/framework/graph-engine.ts:54-70 | A new engine has no saved state |
| GraphRunner.RecoveryGraphEngine.StreamToCompletion | src/framework/graph-engine.ts:179-197 | The stream ends, having moved only as the transition system moves, at an end, an interrupt or an exception |
| GraphRunner.RecoveryGraphEngine.ExecutePlan | src/framework/graph-engine.ts:157-160 | The saved state is one the plan can reach, and its results are returned |
| GraphRunner.RecoveryGraphEngine.Resume | src/framework/graph-engine.ts:165-173 | Fails only without a saved state; an interrupted node is entered again with one more decision; where LangGraph leaves a thread that is not interrupted is a parameter |
| GraphRunner.ResumedIsReachable | src/framework/graph-engine.ts:165-173 | Resuming with the host's decision stays among the states the plan can reach |
| GraphRunner.RunStepNode | src/framework/graph-nodes.ts:520-545 | The node for each kind of step computes the update, events and suspension of the node function |
| GraphRunner.RunSystemAction | src/framework/graph-nodes.ts:153-313 | The node's checks, command and captures in order, with the source's updates |
| GraphRunner.RunApproval | src/framework/graph-nodes.ts:319-380 | Automatic, handlerless, interrupted or resumed |
| GraphRunner.RunRevisedSteps | src/framework/graph-nodes.ts:425-450 | Revised steps run inline against the state the checkpoint was entered with and stop at the first failure |
| Rollback.ExecuteRollback | src/framework/graph-rollback.ts:432-471 | Sends and reports what the rollback function says over the extracted steps |
| Rollback.RunRollbackNodes | src/framework/graph-rollback.ts:269-418 | The straight line of rollback nodes: a failed one does not stop the ones after it |
| Rollback.RollbackCoversExactlyTheEligible | src/framework/graph-rollback.ts:65-73 | One result per successful system action with a directive, the most recent first, whatever the commands do |
| Rollback.BackwardUndoesForward | src/framework/graph-rollback.ts:411-418 | Walking back over a list of results with inverting commands undoes what the list did |
| Rollback.UndoAllState | src/framework/graph-rollback.ts:275-302 | With returning commands, the rollback's effect on the system is that walk |
| Rollback.FailedActionEffect | src/framework/engine.ts:263-408 | A failing action leaves nothing if it was refused, the thrown command's effect, or its whole effect when only the success check failed |
| Rollback.SuccessHasEffect | src/framework/engine.ts:361-408 | A succeeding action has exactly the effect of its command and state transition |
| Rollback.SilentIffNothingToSend | src/framework/graph-rollback.ts:269-407 | A rollback node leaves no event exactly when its directive is neither one with a command nor an automatic one whose store yields commands, and then still reports the step as rolled back |
| Rollback.RollbackIsSilentIff | src/framework/graph-rollback.ts:411-418 | A whole rollback sends nothing exactly when none of its steps has anything to send |
| Rollback.ReportedWithoutActingIff | src/framework/graph-rollback.ts:269-418 | Anywhere in a rollback a step is reported as rolled back with nothing sent for it exactly when it has nothing to send |
| Rollback.FailureIsReportedIff | src/framework/graph-rollback.ts:269-418 | Anywhere in a rollback the step's node sends exactly its directive's commands, one after the other whatever happens, and reports "failed" if and only if one of them was thrown back, "rolled back" otherwise |
| Rollback.DryRunIsUndoneForReal | src/framework/graph-rollback.ts:432-471 | Rolling back a dry run, which sent no action's command, sends nothing exactly when no action that pretended to succeed has anything to send |
| Saga.SagaRestores | src/framework/graph-rollback.ts:432-471 | Run then roll back restores the initial state when succeeded actions have inverting commands that return and the failing step left no trace |
| Saga.RestoredIffFailedStepLeftNoTrace | src/framework/graph-rollback.ts:65-73 | With rollback commands that lose nothing, that last condition is also necessary |
| Saga.RestoredIffOnlySuccessesShow | src/framework/graph-rollback.ts:65-73 | For any plan and either engine, rolling back restores the initial state if and only if the run left the state its succeeded top-level actions alone would have left |
| Saga.GraphSagaRestores | src/framework/graph-engine.ts:157-160 | The same for every end the graph engine can reach, in runs no diagnosis command rejects |
| Saga.RunState | src/framework/engine.ts:96-143 | The state a finished run leaves is determined by its results, up to the failed step |
| Templates.ActionTemplateRegistry.constructor | src/framework/action-template-registry.ts:35-36 | A new registry is empty and valid |
| Templates.ActionTemplateRegistry.Register | src/framework/action-template-registry.ts:38-89 | Accepts exactly new templates with the scaffold their risk and class require; a refusal changes nothing |
| Templates.AcceptedIffScaffolded | src/framework/action-template-registry.ts:43-86 | A template passes the checks of registration exactly when a system action has its risk and blast radius, captures above routine risk, and from class 2 the whole safety scaffold |
| Templates.RefusalIff | src/framework/action-template-registry.ts:38-89 | A duplicate is refused exactly when the id is taken; accepted is what is new and has its scaffold |
| Templates.ObjectionNames | src/framework/action-template-registry.ts:43-86 | Which check turns an incomplete template away: the first that fails |
| Templates.ActionTemplateRegistry.Clear | src/framework/action-template-registry.ts:107-109 | Empties the registry |
| Templates.ActionTemplateRegistry.ResetBuiltIns | src/framework/action-template-registry.ts:157-160 | Empties it and lowers the built-in flag |
| Templates.ActionTemplateRegistry.RegisterBuiltIns | src/framework/action-template-registry.ts:148-154 | Registers all once, or stops at the first refusal with the earlier ones in place and the flag down |
| Templates.PartialRegistrationSticks | src/framework/action-template-registry.ts:148-154 | A refused registration is refused again at its first template: as a duplicate, or for the same reason if that one was refused |
| Templates.RegisteredTemplatesExpand | src/framework/action-template-registry.ts:173-253 | Every registered template expands, and above routine risk the step carries before-captures |
| Templates.ExpansionKeepsFields | src/framework/action-template-registry.ts:173-253 | Each field of an expanded step, and what stands in for a missing success check |
| Templates.ExpandsIff | src/framework/action-template-registry.ts:212-253 | Expansion throws exactly for a system action without risk or blast radius |
| Bundle.AdapterResponseToPlan | src/framework/bundle-to-plan.ts:77-187 | The loop computes the translation of the bundle against the registry; only registering built-ins can throw |
| Bundle.ActionsAreConserved | src/framework/bundle-to-plan.ts:100-142 | Executable steps are the accepted actions in order and rejections the others in order |
| Bundle.PlanIsWellFormed | src/framework/bundle-to-plan.ts:94-156 | Ids are pairwise distinct for any number of steps, provenance covers exactly the steps other than the notification, and every action above routine risk carries before-captures |
| Contributions.EachActionContributes | src/framework/bundle-to-plan.ts:100-142 | The n-th action adds a rejection for an unknown id or a missing target, otherwise its approval and its step with the target it names or its template's first kind, and for known ids the notes on class and mutation type |
| Contributions.BundleIsAnnounced | src/framework/bundle-to-plan.ts:144-156 | The plan opens with a notification exactly with an action above routine risk, and the warning that nothing can be executed is there exactly without steps |
| Bundle.MutationsAwaitTheirApproval | src/framework/bundle-to-plan.ts:124-141 | In every run of either engine a mutating action does nothing before the approval of that same action, the step immediately before it, has ended in success |
| Approvals.EveryActionAwaitsIff | src/framework/bundle-to-plan.ts:119-141 | Over a registry every system action of every bundle plan awaits its own approval in every run of either engine if and only if every registered system template declares a mutation |
| Approvals.UndeclaredActionRunsUnapproved | src/framework/bundle-to-plan.ts:119-141 | Any registered system template that declares none, of whatever risk, gives a plan whose action some run carries out without an approval |
| Bundle.TranslationIsWellBuilt | src/framework/bundle-to-plan.ts:100-142 | Every mutating step stands right behind its own approval, at every point of the loop |
| Bundle.StepIdInjective | src/framework/bundle-to-plan.ts:94-98 | Padded step ids never collide, also beyond three digits |
| Text.PadStartPads | src/framework/bundle-to-plan.ts:94-98 | Counters are filled up with zeros on the left and never shortened |
| Announcement.ByHandIsTrueIff | src/framework/bundle-to-plan.ts:333-337 | Over a registry, every plan that announces routine-risk steps holds only such steps if and only if no registered template above routine risk lacks a directive |
| Announcement.PerStepIsTrueIff | src/framework/bundle-to-plan.ts:326-331 | Every plan that announces a directive for each mutating step has one for each if and only if the registered system templates all carry one or none does |
| Announcement.ByHandMayBeElevated | src/framework/bundle-to-plan.ts:333-337 | Any uncovered template above routine risk gives a plan that announces routine-risk steps and holds a riskier one |
| Announcement.PerStepMayBeShort | src/framework/bundle-to-plan.ts:326-331 | Any two system templates that differ in having a directive give a plan that announces a directive for each mutating step and lacks one |
| Announcement.StrategyIsHonestFromClassTwo | src/framework/bundle-to-plan.ts:315-338 | Where all proposed system templates are of class 2 or more, every action carries its own directive and the announcement is true |
| Synthesis.HasTemporalCorrelation | src/framework/root-cause-synthesis.ts:682-704 | At least two agents were seen unhealthy, and any two of them, by their last unhealthy snapshot or, without snapshots, by their health record, within five minutes |
| Synthesis.UnhealthyTimeIff | src/framework/root-cause-synthesis.ts:682-697 | The time used is that of the last unhealthy snapshot, with none unhealthy after it, or of an unhealthy health record where no snapshots are kept |
| Synthesis.ConfidenceIsTheEstimate | src/framework/root-cause-synthesis.ts:386-395 | Confidence is base, share of passing agents, boost and timing bonus, capped at one, to the nearest hundredth with halves up |
| Synthesis.SignalTypesIff | src/framework/root-cause-synthesis.ts:301-310 | An agent's signal types are its signals' and those of its health record |
| Synthesis.PassesIff | src/framework/root-cause-synthesis.ts:331-345 | An agent passes by a signal its kind is required to show, where the rule names some, and by one of the rule's signals otherwise; it matches a pattern both have |
| Reporting.FlagIsOfTheMembers | src/framework/root-cause-synthesis.ts:456-492 | The temporal flag of a reported cluster says of the members it is left with whether they were seen unhealthy together |
| Synthesis.SharingAgents | src/framework/root-cause-synthesis.ts:365-380 | Exactly the agents sharing an entity id with a passed agent of another kind |
| Synthesis.ApplyRule | src/framework/root-cause-synthesis.ts:325-411 | The counting loops build exactly the candidate the rule defines, or none |
| Deduplication.SynthesizeByRules | src/framework/root-cause-synthesis.ts:270-519 | The two loops compute the ranked, claimed-once clusters and the uncorrelated kinds |
| Deduplication.BuildClusters | src/framework/root-cause-synthesis.ts:324-411 | The rule loop gathers the candidates of all rules that fire, in declaration order |
| Deduplication.ClaimInOrder | src/framework/root-cause-synthesis.ts:445-492 | The claiming loop over ranked candidates |
| Deduplication.RankSorts | src/framework/root-cause-synthesis.ts:445-445 | The stable sort is a permutation in non-increasing confidence |
| Deduplication.TiesKeepTheirPlaces | src/framework/root-cause-synthesis.ts:445-445 | Candidates of equal confidence stay in the order of their rules |
| Deduplication.OrderIsTheRules | src/framework/root-cause-synthesis.ts:486-486 | The recommended order names exactly the members' kinds that the rule's order names, in its order |
| Deduplication.ReportedClustersAreSound | src/framework/root-cause-synthesis.ts:445-492 | Specific clusters are disjoint by evidence identity, have at least two members that passed their rule's signal check, come strongest first, with confidence in [0.3, 1] |
| Deduplication.DiscardedCandidatesAreSpent | src/framework/root-cause-synthesis.ts:456-457 | Every candidate is reported, having lost members only to stronger clusters, or has at most one unclaimed member left |
| Deduplication.EveryCandidateIsSettled | src/framework/root-cause-synthesis.ts:451-492 | The same at every position of the ranking |
| Deduplication.ConfidenceInRange | src/framework/root-cause-synthesis.ts:386-394 | Confidence lies in [0.3, 1] for every rule with a non-negative boost |
| Deduplication.BuiltMembersShareEntities | src/framework/root-cause-synthesis.ts:356-381 | Where a rule requires it, each member of a built candidate shares an entity with another member of a different kind |
| Reporting.ReportedAreTheWinners | src/framework/root-cause-synthesis.ts:445-492 | The specific clusters are those candidates, each with the members stronger ones left |
| Sharing.ReportedSharingIff | src/framework/root-cause-synthesis.ts:456-457 | All members of a reported cluster share an entity with another kind in it if and only if each agent its rule matches that no stronger cluster took has a partner that none took |
| Sharing.UncontestedKeepsSharing | src/framework/root-cause-synthesis.ts:356-381 | A reported cluster of a sharing rule shares if no other specific rule that fires matches its rule's agents |
| Sharing.UntrimmedKeepsSharing | src/framework/root-cause-synthesis.ts:356-381 | A reported cluster of a sharing rule that lost no agent keeps sharing |
| Sharing.TrimmingCanBreakSharing | src/framework/root-cause-synthesis.ts:215-252 | With two of the source's rules and four findings about two databases, a reported cluster of the sharing rule shares nothing |
| Reporting.ClaimedIsHeld | src/framework/root-cause-synthesis.ts:451-492 | The loop reports exactly the candidates with two members in no stronger reported one, and has claimed exactly what those match |
| Reporting.InClusterIff | src/framework/root-cause-synthesis.ts:451-498 | A target is in a cluster exactly when a rule that reports one, advisory or specific, matches it |
| Dropping.DroppedIff | src/framework/root-cause-synthesis.ts:500-508 | A target is in no cluster and not listed exactly when no reporting rule matches it and one matches another target of its kind |
| Dropping.DroppedWithoutContentionIff | src/framework/root-cause-synthesis.ts:500-508 | Where no two specific rules that fire match the same target, the same holds of the rules that fire |
| Dropping.DistinctKindsDropNothing | src/framework/root-cause-synthesis.ts:500-508 | Evidence whose agent kinds all differ has no dropped target under any rule table |
| Dropping.TableDropsNothingIff | src/framework/root-cause-synthesis.ts:500-508 | A rule table drops no target of any evidence if and only if none of its rules can fire on any |
| Dropping.SilentInstanceIsDropped | src/framework/root-cause-synthesis.ts:214-226 | Under any table with the source's platform rule, a silent instance beside two out of resources is in no cluster and its kind is not listed |
| Permutation.EvidenceOrderDoesNotMatter | src/framework/root-cause-synthesis.ts:298-411 | Reordering the evidence keeps the sequence of clusters, members by identity, and only permutes the uncorrelated list |
| Permutation.ClaimSame | src/framework/root-cause-synthesis.ts:445-492 | Claiming treats candidates alike that differ only in the order of their members |
| EditDistance.Levenshtein | src/cli/args.ts:228-242 | The row-by-row table ends in the recurrence's value |
| EditDistance.DistanceIsMinimumCost | src/cli/args.ts:228-242 | That value is the least cost of all insert, delete and substitute scripts, and is attained |
| EditDistance.DistanceIsMetric | src/cli/args.ts:228-242 | Zero exactly on equal words, symmetric, triangle inequality |
| EditDistance.NearestCommand | src/cli/args.ts:245-256 | The first command at minimum distance from the lower-cased token, exactly when that minimum is at most three |
| JsonRepair.EscapeControlCharsInStrings | src/framework/ai-diagnosis.ts:118-155 | The loop computes the repair function |
| JsonRepair.ScannersCorrespond | src/framework/ai-diagnosis.ts:127-152 | After any text the scanner stands in the output where it stands in the input |
| JsonRepair.OutsideIsKept | src/framework/ai-diagnosis.ts:127-152 | Text outside string literals is unchanged |
| JsonRepair.MeaningIsKept | src/framework/ai-diagnosis.ts:118-155 | A reader of JSON strings (RFC 8259, section 7) reads the same code points before and after |
| JsonRepair.RepairIsIdempotent | src/framework/ai-diagnosis.ts:118-155 | A text is its own repair exactly when no raw control character stands in a literal outside an escape, and every repair is such a text |
| JsonRepair.EscapesByCode | src/framework/ai-diagnosis.ts:142-149 | Which control characters have a short escape and which the long one |
| JsonRepair.ControlIff | src/framework/ai-diagnosis.ts:140-142 | Control characters are U+0000 to U+001F |
| Captures.CaptureStore.constructor | src/framework/capture-store.ts:69-72 | A new store has no cache |
| Captures.CaptureStore.Store | src/framework/capture-store.ts:89-127 | The directory, the cache and every intermediate directory are those of the call's file operations |
| Captures.CaptureStore.Get | src/framework/capture-store.ts:132-143 | Metadata and content of an indexed capture with a file, else nothing |
| Captures.CaptureStore.List | src/framework/capture-store.ts:148-172 | Newest first: all captures, sorting the cached list in place, or with a filter those that pass it, leaving the cached list as it was |
| Captures.ListingIsNewestFirst | src/framework/capture-store.ts:148-172 | A listing holds the same captures with the newest first and those of one instant in the order given |
| Captures.ListedIff | src/framework/capture-store.ts:148-172 | With a filter exactly the captures that pass it are listed, without one all |
| Captures.ListingSortsWhatIsKnown | src/framework/capture-store.ts:170-172 | After a listing of everything the cache is in that order |
| Captures.StoreExtendsTheIndex | src/framework/capture-store.ts:89-127 | A store into a directory without an index starts a new one, whatever was cached; otherwise the capture comes last |
| Captures.CaptureStore.Delete | src/framework/capture-store.ts:191-206 | The index is rewritten before the file goes |
| Captures.CaptureStore.Cleanup | src/framework/capture-store.ts:212-232 | Nothing for an age that is not positive; otherwise expired files go one by one before the index is rewritten, and their number is returned |
| Captures.CaptureStore.ReadIndex | src/framework/capture-store.ts:246-257 | The cache, else what the index file holds |
| CrashSafety.CrashSafe | src/framework/capture-store.ts:89-232 | At every crash point of every run no file holds another capture's data, indexed ids are unique and were stored, and, unless a crash cut a clean-up short, every indexed capture has its file |
| CrashSafety.CleanupBackedIffAtAnEnd | src/framework/capture-store.ts:218-229 | A clean-up cut after k file operations leaves every indexed capture its file if and only if k is none or all of them |
| CrashSafety.FirstCleanupCutBreaks | src/framework/capture-store.ts:89-232 | In a run spared so far, every indexed capture has its file after the next event exactly when that event does not cut a clean-up short |
| CrashSafety.CutKeepsSound | src/framework/capture-store.ts:89-232 | One call cut after any number of its file operations keeps the first invariants, and keeps every indexed capture's file exactly when it is not a clean-up cut between its ends |
| CrashSafety.GetIsNeverWrong | src/framework/capture-store.ts:132-143 | After any run a new process reads nothing or exactly what was stored under the id, and without a clean-up cut short it reads exactly the indexed ids |
| CrashSafety.StoredStaysReadable | src/framework/capture-store.ts:191-232 | A readable capture stays readable through other calls and crashes until it is deleted or expires |
| CrashSafety.StoreIsReadable | src/framework/capture-store.ts:89-127 | What was stored reads back after a restart |
| CrashSafety.InterruptedCleanupDangles | src/framework/capture-store.ts:218-229 | Every crash between a clean-up's first removal and its rewrite leaves an entry without a file |
| Checksum.ComputeLegacyChecksum | src/framework/check-installer.ts:258-268 | Feeding the files one by one hashes the concatenation, or fails at a missing file |
| Checksum.ChecksumBindsFiles | src/framework/check-installer.ts:230-244 | Equal manifest digests mean the same names with the same contents, for a hash that tells the texts at hand apart and names in which no newline is followed by a digest and two spaces |
| Checksum.NewlineFreeNamesBind | src/framework/check-installer.ts:230-244 | For names without a newline the manifest digests are equal if and only if names and contents are |
| Checksum.ManifestReadsBack | src/framework/check-installer.ts:231-243 | Equal manifests list the same names with the same file hashes |
| Checksum.DigestsForgetOrder | src/framework/check-installer.ts:230-268 | Any order of the file list gives the same digests |
| Checksum.DigestNeedsEveryFile | src/framework/check-installer.ts:235-238 | Either digest exists exactly when no listed file is missing |
| Checksum.VerificationIsExact | src/framework/check-installer.ts:286-309 | Against an entry with a manifest digest verification accepts exactly the published files, whatever the legacy digest says |
| Checksum.LegacyVerificationIff | src/framework/check-installer.ts:296-309 | Against an older entry verification accepts exactly the files whose joined contents are the published ones |
| Checksum.UnitsOrder | src/framework/check-installer.ts:230-234 | Names are ordered by UTF-16 code units: by code point, except that characters beyond the basic plane come before U+E000 |
| Checksum.UnitsAreUtf16 | src/framework/check-installer.ts:230-234 | A character is one code unit or the surrogate pair that gives it back |
| Checksum.LegacyIgnoresBoundaries | src/framework/check-installer.ts:221-223 | The legacy digest gives two different file sets the same value under every hash |
| Checksum.BreakingNamesCollide | src/framework/check-installer.ts:239-239 | Any other name whose part before the break comes before the part after it gives one file the digest of two, which are not the same files |
| Canonical.ApplyCanonicalHypothesisBackstop | src/framework/canonical-hypothesis.ts:103-149 | The search for an unused identifier ends for every finite set of used ids, and the result is that of the backstop function |
| Canonical.FreshIndex | src/framework/canonical-hypothesis.ts:125-130 | The first free candidate comes after at most as many attempts as there are used ids |
| Canonical.SearchBoundIsReached | src/framework/canonical-hypothesis.ts:125-130 | That bound is attained for every size |
| Canonical.BackstopAddsAtMostOne | src/framework/canonical-hypothesis.ts:132-148 | The input is extended by at most one hypothesis, whose id is new |
| Canonical.BackstopAddsIff | src/framework/canonical-hypothesis.ts:103-122 | Something is added exactly when the diagnosis did not abstain, has a hypothesis and a routed family with a sentence, none states it and some summary uses the family's words |
| Canonical.WhatIsAdded | src/framework/canonical-hypothesis.ts:123-148 | The sentence, ranked last under the first free name, otherwise like the hypothesis ranked first |
| Canonical.MatchingSqueezes | src/framework/canonical-hypothesis.ts:55-57 | For matching, white space between texts becomes one space and disappears at the ends |
| Canonical.MatchingKeeps | src/framework/canonical-hypothesis.ts:55-57 | A text without white space is only taken in lower case |
| Canonical.LooksEverywhere | src/framework/canonical-hypothesis.ts:60-63 | Every summary is looked at for the sentence and every keyword of the family for the vocabulary |
| Canonical.BackstopDecides | src/framework/canonical-hypothesis.ts:108-122 | The result states the routed family's sentence exactly when the input did or shares its vocabulary |
| Canonical.BackstopIsIdempotent | src/framework/canonical-hypothesis.ts:103-149 | Applying it twice is applying it once |
| Text.NormalizesToEmpty | src/framework/safety.ts:363-368 | An identifier normalises to nothing exactly when it is blank |
| Text.NormalizeForgets | src/framework/safety.ts:363-368 | Identifiers that agree up to outer white space and letter case normalise alike |
| Text.NormalizeJoins | src/framework/safety.ts:363-368 | Parts joined by underscores and white space normalise to their normal forms joined by one dash |
| Text.NormalizeKeeps | src/framework/safety.ts:363-368 | A lower-case identifier without underscores or white space is left alone |
| Text.FoldedIff | src/framework/catalog.ts:438-442 | Trimming and lower-casing forget exactly the white space at the ends and the case of letters |

## Left out

- Hooks, callbacks and the forensic log of both engines: they observe a run or abort it by code that is not part of this model.
- Timestamps and durations of results, narrative and log wording, the plan summary, affected systems and duration estimate of a bundle plan, step descriptions.
- The fast-replan test (`src/framework/engine.ts:568-597`): it only decides the wording of a callback detail.
- The `captures`, `stepOutputs`, `forensicLog` and `diagnosis` channels of the graph state: nothing modelled routes on them.
- LangGraph itself: sequential nodes, conditional edges, the reducers and re-entry of an interrupted node are modelled, checkpoint storage is not.
- Unbounded replanning: nested revised plans are bounded by a fuel parameter; every statement holds for every fuel, and a run that exhausts it is reported as such.
- The provider list is taken as constant during a run, and the live asynchronous captures (`executeCaptureAsync`), which the engines do not call, are not modelled.
- Backend state transitions are events of their own: in a dry run a backend still receives them, so the dry-run statement is about commands.
- `deriveRollbackCommand` and `generateSqlRestore`: the commands a capture store yields for a step are a parameter of the rollback.
- Semantic versions, ISO durations and the SQL classifier's regular expressions are parameters of the catalog; no claim is made that the classifier catches every statement.
- Lower-casing is ASCII only in `Text.Lower`, also of the command token.
- The rule table is a parameter of the correlation (boosts non-negative where the range of confidence is claimed); confidence is exact rather than floating point, dates that do not parse are excluded, rendered reasoning and narrative and the AI synthesis are left out.
- Command-line token scanning and option parsing, which are mostly table lookups.
- The capture store's JSON encoding, `findLatest` and `totalSize`; list filters are any predicate on metadata and clean-up ages are numbers, zero where the text parses to nothing. A file operation happens entirely or not at all, and one that fails without a crash is not modelled.
- The backstop's sentence table, routing keywords and whole-word expression are parameters.
- File names with lone surrogates, directories among the listed files, and the bytes behind a hash (contents are strings).
- Webhook in-flight de-duplication: there is an `await` between its check and its add, so mutual exclusion is not what it gives.
- The hub client, plugin processes, probes, terminal and chat output, credentials, configuration and autodiscovery.
- Refinement.EnginesAgree: stated for the plans on which both engines execute the same steps; the lemmas of `Divergence` say for each excluded kind of step exactly when it is alike.
- GateExactness.GateIsExact: stated for the plans the source's types allow, in which no branch is itself a conditional.
- GraphRunner.RecoveryGraphEngine.Resume: says nothing of what a resume command does to a thread that is not interrupted, because that is LangGraph's and a parameter here.
- Deduplication.ReportedClustersAreSound: does not claim the shared-entity requirement, because the code does not look again after trimming; `Sharing` says exactly when it still holds.
