/** Stepwise rollback (src/framework/graph-rollback.ts) and when it restores the system. */
module Rollback {
  import opened Plans
  import opened Safety
  import opened Lists
  import opened Runs
  import L = LegacyEngine
  import M = GuardedMutation

  predicate Eligible(result: StepResult) {
    result.step.SystemAction? && result.step.rollback.Some? && result.status == Success
  }

  predicate AllEligible(steps: seq<StepResult>) {
    forall i :: 0 <= i < |steps| ==> Eligible(steps[i])
  }

  function Reverse<T>(s: seq<T>): (r: seq<T>)
    ensures |r| == |s|
    ensures forall i :: 0 <= i < |s| ==> r[i] == s[|s| - 1 - i]
  {
    if s == [] then [] else [s[|s| - 1]] + Reverse(s[..|s| - 1])
  }

  /** `extractRollbackSteps`. */
  function ExtractRollbackSteps(completed: seq<StepResult>): seq<StepResult> {
    Reverse(Filter(Eligible, completed))
  }

  lemma ExtractLast(init: seq<StepResult>, last: StepResult)
    ensures ExtractRollbackSteps(init + [last])
         == (if Eligible(last) then [last] else []) + ExtractRollbackSteps(init)
  {
    FilterAppend(Eligible, init, [last]);
    var kept := Filter(Eligible, init);
    assert Filter(Eligible, [last]) == if Eligible(last) then [last] else [];
    if Eligible(last) {
      assert (kept + [last])[..|kept + [last]| - 1] == kept;
    } else {
      assert kept + [] == kept;
    }
  }

  /** The commands a capture store yields for a step with automatic rollback; `None` without a store. */
  type Store = Option<Step -> seq<Command>>

  datatype Undone = Undone(history: History, status: Status)

  /** Every command is sent, whatever happened to the ones before it. */
  function SendAll(w: World, step: Step, commands: seq<Command>, h: History): Undone {
    if commands == [] then Undone(h, RolledBack)
    else
      var ok := w.runs(h, commands[0]);
      var rest := SendAll(w, step, commands[1..], h + [CommandRun(step, commands[0], ok)]);
      if ok then rest else rest.(status := Failed)
  }

  /** One rollback node. A manual rollback, and an automatic one without captures, sends nothing and
      still reports the step as rolled back. */
  function UndoStep(w: World, store: Store, step: Step, h: History): Undone
    requires step.SystemAction? && step.rollback.Some?
  {
    var rollback := step.rollback.value;
    if rollback.kind == ByCommand && rollback.command.Some? then
      var ok := w.runs(h, rollback.command.value);
      Undone(h + [CommandRun(step, rollback.command.value, ok)], if ok then RolledBack else Failed)
    else if rollback.kind == Automatic && store.Some? && |store.value(step)| > 0 then
      SendAll(w, step, store.value(step), h)
    else Undone(h, RolledBack)
  }

  datatype RollbackResult = RollbackResult(stepId: string, step: Step, status: Status)

  datatype RollbackRun = RollbackRun(history: History, results: seq<RollbackResult>)

  /** The rollback graph is a straight line: a failed node does not stop the ones after it. */
  function UndoAll(w: World, store: Store, steps: seq<StepResult>, h: History): RollbackRun
    requires AllEligible(steps)
  {
    if steps == [] then RollbackRun(h, [])
    else
      assert Eligible(steps[0]);
      var step := steps[0].step;
      var undone := UndoStep(w, store, step, h);
      var rest := UndoAll(w, store, steps[1..], undone.history);
      RollbackRun(rest.history, [RollbackResult("rollback-" + step.id, step, undone.status)] + rest.results)
  }

  lemma ExtractedAreEligible(completed: seq<StepResult>)
    ensures var steps := ExtractRollbackSteps(completed);
      AllEligible(steps)
  {
    var kept := Filter(Eligible, completed);
    forall i | 0 <= i < |kept| ensures Eligible(Reverse(kept)[i]) {
      assert Reverse(kept)[i] == kept[|kept| - 1 - i];
    }
  }

  /** The nodes of the rollback graph, in order. */
  method RunRollbackNodes(w: World, store: Store, steps: seq<StepResult>, h: History)
    returns (history: History, results: seq<RollbackResult>)
    requires AllEligible(steps)
    ensures RollbackRun(history, results) == UndoAll(w, store, steps, h)
  {
    hide UndoStep;
    history, results := h, [];
    for i := 0 to |steps|
      invariant var rest := UndoAll(w, store, steps[i..], history);
        RollbackRun(rest.history, results + rest.results) == UndoAll(w, store, steps, h)
    {
      var step := steps[i].step;
      var undone := UndoStep(w, store, step, history);
      assert steps[i..][1..] == steps[i + 1..];
      history := undone.history;
      results := results + [RollbackResult("rollback-" + step.id, step, undone.status)];
    }
  }

  /** `executeRollback`. */
  method ExecuteRollback(w: World, store: Store, completed: seq<StepResult>, h: History)
    returns (history: History, results: seq<RollbackResult>)
    ensures AllEligible(ExtractRollbackSteps(completed))
    ensures RollbackRun(history, results) == UndoAll(w, store, ExtractRollbackSteps(completed), h)
  {
    hide UndoAll, Eligible, Reverse, Filter;
    ExtractedAreEligible(completed);
    var steps := ExtractRollbackSteps(completed);
    history, results := RunRollbackNodes(w, store, steps, h);
  }

  predicate ResultOf(undone: StepResult, result: RollbackResult) {
    result.step == undone.step && result.stepId == "rollback-" + undone.step.id && result.status in {RolledBack, Failed}
  }

  /** One result per eligible step, the most recent first. */
  lemma {:induction false} OneResultPerEligibleStep(w: World, store: Store, steps: seq<StepResult>, h: History)
    requires AllEligible(steps)
    ensures var results := UndoAll(w, store, steps, h).results;
      && |results| == |steps|
      && forall i :: 0 <= i < |steps| ==> ResultOf(steps[i], results[i])
  {
    if steps != [] {
      var undone := UndoStep(w, store, steps[0].step, h);
      OneResultPerEligibleStep(w, store, steps[1..], undone.history);
      SendAllStatus(w, steps[0].step, if store.Some? then store.value(steps[0].step) else [], h);
    }
  }

  lemma SendAllStatus(w: World, step: Step, commands: seq<Command>, h: History)
    ensures SendAll(w, step, commands, h).status in {RolledBack, Failed}
  {
  }

  lemma RollbackCoversExactlyTheEligible(w: World, store: Store, completed: seq<StepResult>, h: History, k: nat)
    requires k < |Filter(Eligible, completed)|
    ensures AllEligible(ExtractRollbackSteps(completed))
    ensures var results := UndoAll(w, store, ExtractRollbackSteps(completed), h).results;
      var kept := Filter(Eligible, completed);
      |results| == |kept| && ResultOf(kept[|kept| - 1 - k], results[k])
  {
    ExtractedAreEligible(completed);
    OneResultPerEligibleStep(w, store, ExtractRollbackSteps(completed), h);
  }

  /** The node has no command to send: a manual directive, a command directive without its command, an
      automatic one without a store or without captures that yield a command. */
  predicate NothingToSend(store: Store, step: Step) {
    && step.SystemAction? && step.rollback.Some?
    && var rollback := step.rollback.value;
    && !(rollback.kind == ByCommand && rollback.command.Some?)
    && !(rollback.kind == Automatic && store.Some? && |store.value(step)| > 0)
  }

  lemma {:induction false} SendAllExtends(w: World, step: Step, commands: seq<Command>, h: History)
    ensures h <= SendAll(w, step, commands, h).history
    ensures |SendAll(w, step, commands, h).history| == |h| + |commands|
  {
    if commands != [] {
      SendAllExtends(w, step, commands[1..], h + [CommandRun(step, commands[0], w.runs(h, commands[0]))]);
    }
  }

  /** A node leaves no event exactly when it has nothing to send, and it then reports the step as rolled
      back all the same. */
  lemma SilentIffNothingToSend(w: World, store: Store, step: Step, h: History)
    requires step.SystemAction? && step.rollback.Some?
    ensures h <= UndoStep(w, store, step, h).history
    ensures UndoStep(w, store, step, h).history == h <==> NothingToSend(store, step)
    ensures NothingToSend(store, step) ==> UndoStep(w, store, step, h).status == RolledBack
  {
    if store.Some? {
      SendAllExtends(w, step, store.value(step), h);
    }
  }

  ghost predicate AllSilent(store: Store, steps: seq<StepResult>) {
    forall i :: 0 <= i < |steps| ==> NothingToSend(store, steps[i].step)
  }

  /** A whole rollback sends nothing exactly when no step has anything to send. */
  lemma {:induction false} RollbackIsSilentIff(w: World, store: Store, steps: seq<StepResult>, h: History)
    requires AllEligible(steps)
    ensures h <= UndoAll(w, store, steps, h).history
    ensures UndoAll(w, store, steps, h).history == h <==> AllSilent(store, steps)
  {
    if steps != [] {
      assert Eligible(steps[0]);
      var undone := UndoStep(w, store, steps[0].step, h);
      SilentIffNothingToSend(w, store, steps[0].step, h);
      assert forall i :: 0 <= i < |steps[1..]| ==> steps[1..][i] == steps[i + 1];
      RollbackIsSilentIff(w, store, steps[1..], undone.history);
    }
  }

  /** Where the walk stood when it reached step `k`. */
  function HistoryAt(w: World, store: Store, steps: seq<StepResult>, k: nat, h: History): History
    requires k <= |steps| && AllEligible(steps)
  {
    UndoAll(w, store, steps[..k], h).history
  }

  lemma OneStepWalk(w: World, store: Store, undone: StepResult, h: History)
    requires Eligible(undone)
    ensures UndoAll(w, store, [undone], h).history == UndoStep(w, store, undone.step, h).history
  {
    var next := UndoStep(w, store, undone.step, h).history;
    assert [undone][1..] == [];
    assert UndoAll(w, store, [], next).history == next;
  }

  lemma {:induction false} ResultsAreSteps(w: World, store: Store, steps: seq<StepResult>, k: nat, h: History)
    requires k < |steps| && AllEligible(steps)
    ensures |UndoAll(w, store, steps, h).results| == |steps|
    ensures var undone := UndoStep(w, store, steps[k].step, HistoryAt(w, store, steps, k, h));
      && HistoryAt(w, store, steps, k + 1, h) == undone.history
      && UndoAll(w, store, steps, h).results[k].status == undone.status
  {
    OneResultPerEligibleStep(w, store, steps, h);
    assert Eligible(steps[0]);
    var next := UndoStep(w, store, steps[0].step, h).history;
    if k > 0 {
      ResultsAreSteps(w, store, steps[1..], k - 1, next);
      assert steps[..k][1..] == steps[1..][..k - 1] && steps[..k + 1][1..] == steps[1..][..k];
      assert steps[..k][0] == steps[0] && steps[..k + 1][0] == steps[0];
    } else {
      assert steps[..1] == [steps[0]] && steps[..0] == [];
      OneStepWalk(w, store, steps[0], h);
    }
  }

  /** A step is reported as rolled back without a command having been sent for it exactly when its
      directive leaves nothing to send. */
  lemma ReportedWithoutActingIff(w: World, store: Store, steps: seq<StepResult>, k: nat, h: History)
    requires k < |steps| && AllEligible(steps)
    ensures |UndoAll(w, store, steps, h).results| == |steps|
    ensures UndoAll(w, store, steps, h).results[k].status == RolledBack && HistoryAt(w, store, steps, k + 1, h) == HistoryAt(w, store, steps, k, h)
      <==> NothingToSend(store, steps[k].step)
  {
    ResultsAreSteps(w, store, steps, k, h);
    SilentIffNothingToSend(w, store, steps[k].step, HistoryAt(w, store, steps, k, h));
  }

  /** Some command the node sent was thrown back. */
  ghost predicate SomeThrown(h: History, later: History) {
    exists m :: |h| <= m < |later| && later[m].CommandRun? && !later[m].ok
  }

  /** The node sent the list, command by command, each answered as the world answers it there. */
  ghost predicate Sent(w: World, step: Step, commands: seq<Command>, h: History, later: History) {
    && h <= later && |later| == |h| + |commands|
    && forall i :: 0 <= i < |commands| ==>
         later[|h| + i] == CommandRun(step, commands[i], w.runs(later[..|h| + i], commands[i]))
  }

  lemma {:induction false} SendAllSends(w: World, step: Step, commands: seq<Command>, h: History)
    ensures var undone := SendAll(w, step, commands, h);
      && Sent(w, step, commands, h, undone.history)
      && undone.status == if SomeThrown(h, undone.history) then Failed else RolledBack
  {
    if commands != [] {
      var first := CommandRun(step, commands[0], w.runs(h, commands[0]));
      var next := h + [first];
      SendAllSends(w, step, commands[1..], next);
      var later := SendAll(w, step, commands, h).history;
      assert later[|h|] == next[|h|] == first && later[..|h|] == h;
      forall i | 0 <= i < |commands|
        ensures later[|h| + i] == CommandRun(step, commands[i], w.runs(later[..|h| + i], commands[i]))
      {
        if i > 0 {
          assert later[|next| + (i - 1)] == CommandRun(step, commands[1..][i - 1], w.runs(later[..|next| + (i - 1)], commands[1..][i - 1]));
        }
      }
    }
  }

  /** What a directive has a node send: its command, or what the store yields for the step, or nothing. */
  function ToSend(store: Store, step: Step): seq<Command>
    requires step.SystemAction? && step.rollback.Some?
  {
    match step.rollback.value.kind
    case ByCommand => if step.rollback.value.command.Some? then [step.rollback.value.command.value] else []
    case Automatic => if store.Some? then store.value(step) else []
    case Manual => []
  }

  /** A node sends exactly that, and reports a failure if and only if some command was thrown back. */
  lemma NodeSendsAndReports(w: World, store: Store, step: Step, h: History)
    requires step.SystemAction? && step.rollback.Some?
    ensures var undone := UndoStep(w, store, step, h);
      && Sent(w, step, ToSend(store, step), h, undone.history)
      && undone.status == if SomeThrown(h, undone.history) then Failed else RolledBack
  {
    if store.Some? {
      SendAllSends(w, step, store.value(step), h);
    }
    if step.rollback.value.kind == ByCommand && step.rollback.value.command.Some? {
      var later := UndoStep(w, store, step, h).history;
      assert later[|h|].CommandRun? && later[..|h|] == h;
    }
  }

  /** At every place of a rollback: the result is a failure if and only if some command sent for the step was
      thrown back, and says "rolled back" otherwise. */
  lemma FailureIsReportedIff(w: World, store: Store, steps: seq<StepResult>, k: nat, h: History)
    requires k < |steps| && AllEligible(steps)
    ensures |UndoAll(w, store, steps, h).results| == |steps|
    ensures var before, after := HistoryAt(w, store, steps, k, h), HistoryAt(w, store, steps, k + 1, h);
      && Sent(w, steps[k].step, ToSend(store, steps[k].step), before, after)
      && UndoAll(w, store, steps, h).results[k].status == if SomeThrown(before, after) then Failed else RolledBack
  {
    hide UndoAll, UndoStep, Sent, SomeThrown;
    ResultsAreSteps(w, store, steps, k, h);
    NodeSendsAndReports(w, store, steps[k].step, HistoryAt(w, store, steps, k, h));
  }

  // ---- the system the commands act on ----

  /** What commands, thrown or not, and state transitions do to the system. */
  datatype System<!S> = System(act: (S, Command, bool) -> S, move: (S, string) -> S)

  function StateAfter<S>(sys: System<S>, s: S, h: History): S {
    if h == [] then s
    else
      var before := StateAfter(sys, s, h[..|h| - 1]);
      var e := h[|h| - 1];
      if e.CommandRun? then sys.act(before, e.command, e.ok)
      else if e.StateMoved? then sys.move(before, e.to)
      else before
  }

  lemma {:induction false} StateAppend<S>(sys: System<S>, s: S, h: History, tail: History)
    ensures StateAfter(sys, s, h + tail) == StateAfter(sys, StateAfter(sys, s, h), tail)
  {
    if tail == [] {
      assert h + tail == h;
    } else {
      assert (h + tail)[..|h + tail| - 1] == h + tail[..|tail| - 1];
      StateAppend(sys, s, h, tail[..|tail| - 1]);
    }
  }

  ghost predicate Inert(h: History, later: History) {
    h <= later && forall k :: |h| <= k < |later| ==> !later[k].CommandRun? && !later[k].StateMoved?
  }

  lemma {:induction false} InertKeepsState<S>(sys: System<S>, s: S, h: History, later: History)
    requires Inert(h, later)
    ensures StateAfter(sys, s, later) == StateAfter(sys, s, h)
    decreases |later|
  {
    if |later| > |h| {
      InertKeepsState(sys, s, h, later[..|later| - 1]);
    } else {
      assert later == h;
    }
  }

  /** The whole effect of a step whose command returned. */
  function Effect<S>(sys: System<S>, s: S, step: Step): S
    requires step.SystemAction?
  {
    StateAfter(sys, s, [CommandRun(step, step.command, true)] + Moves(step))
  }

  /** The step's rollback command inverts its whole effect. */
  ghost predicate Invertible<S(!new)>(sys: System<S>, step: Step)
    requires step.SystemAction?
  {
    && step.rollback.Some? && step.rollback.value.kind == ByCommand && step.rollback.value.command.Some?
    && forall s :: sys.act(Effect(sys, s, step), step.rollback.value.command.value, true) == s
  }

  /** What a list of results did to the system, when only successes have an effect. */
  function Forward<S>(sys: System<S>, s: S, results: seq<StepResult>): S {
    if results == [] then s
    else
      var before := Forward(sys, s, results[..|results| - 1]);
      var last := results[|results| - 1];
      if last.step.SystemAction? && last.status == Success then Effect(sys, before, last.step) else before
  }

  /** What the rollback commands do, in the order they are sent. */
  function Backward<S>(sys: System<S>, s: S, steps: seq<StepResult>): S
    requires forall i :: 0 <= i < |steps| ==> HasCommand(steps[i])
  {
    if steps == [] then s
    else Backward(sys, sys.act(s, RollbackCommand(steps[0]), true), steps[1..])
  }

  predicate HasCommand(result: StepResult) {
    && result.step.SystemAction? && result.step.rollback.Some?
    && result.step.rollback.value.kind == ByCommand && result.step.rollback.value.command.Some?
  }

  function RollbackCommand(result: StepResult): Command
    requires HasCommand(result)
  {
    result.step.rollback.value.command.value
  }

  ghost predicate SuccessesInvertible<S(!new)>(sys: System<S>, results: seq<StepResult>) {
    forall i :: 0 <= i < |results| && results[i].step.SystemAction? && results[i].status == Success ==> Invertible(sys, results[i].step)
  }

  lemma {:induction false} ExtractedHaveCommands<S(!new)>(sys: System<S>, results: seq<StepResult>)
    requires SuccessesInvertible(sys, results)
    ensures forall i :: 0 <= i < |ExtractRollbackSteps(results)| ==> HasCommand(ExtractRollbackSteps(results)[i])
  {
    if results != [] {
      var init, last := results[..|results| - 1], results[|results| - 1];
      assert results == init + [last];
      ExtractLast(init, last);
      ExtractedHaveCommands(sys, init);
      assert Eligible(last) ==> Invertible(sys, results[|results| - 1].step);
    }
  }

  /** Walking back over a list of results undoes what it did. */
  lemma {:induction false} BackwardUndoesForward<S(!new)>(sys: System<S>, s: S, results: seq<StepResult>)
    requires SuccessesInvertible(sys, results)
    ensures forall i :: 0 <= i < |ExtractRollbackSteps(results)| ==> HasCommand(ExtractRollbackSteps(results)[i])
    ensures Backward(sys, Forward(sys, s, results), ExtractRollbackSteps(results)) == s
  {
    ExtractedHaveCommands(sys, results);
    if results != [] {
      var init, last := results[..|results| - 1], results[|results| - 1];
      assert results == init + [last];
      BackwardUndoesForward(sys, s, init);
      ExtractLast(init, last);
      if Eligible(last) {
        assert Invertible(sys, results[|results| - 1].step);
        assert ExtractRollbackSteps(results)[1..] == ExtractRollbackSteps(init);
      } else {
        assert last.step.SystemAction? && last.status == Success ==> Invertible(sys, results[|results| - 1].step);
        assert ExtractRollbackSteps(results) == ExtractRollbackSteps(init);
      }
    }
  }

  /** The rollback command of every step in the list returns. */
  ghost predicate CommandsReturn(w: World, steps: seq<StepResult>)
    requires forall i :: 0 <= i < |steps| ==> HasCommand(steps[i])
  {
    forall i, h :: 0 <= i < |steps| ==> w.runs(h, RollbackCommand(steps[i]))
  }

  lemma {:induction false} UndoAllState<S>(sys: System<S>, s: S, w: World, store: Store, steps: seq<StepResult>, h: History)
    requires forall i :: 0 <= i < |steps| ==> HasCommand(steps[i]) && Eligible(steps[i])
    requires CommandsReturn(w, steps)
    ensures StateAfter(sys, s, UndoAll(w, store, steps, h).history) == Backward(sys, StateAfter(sys, s, h), steps)
  {
    if steps != [] {
      var command := RollbackCommand(steps[0]);
      assert w.runs(h, command);
      var later := h + [CommandRun(steps[0].step, command, true)];
      assert UndoStep(w, store, steps[0].step, h).history == later;
      assert later[..|later| - 1] == h;
      assert CommandsReturn(w, steps[1..]) by {
        forall i, g | 0 <= i < |steps[1..]|
          ensures w.runs(g, RollbackCommand(steps[1..][i]))
        {
          assert steps[1..][i] == steps[i + 1];
        }
      }
      UndoAllState(sys, s, w, store, steps[1..], later);
    }
  }

  // ---- what a run does to the system ----

  /** The plans stepwise rollback is meant for: every step at top level. */
  predicate TopLevelOnly(step: Step) {
    !step.Conditional? && !step.ReplanningCheckpoint?
  }

  ghost predicate DiagnosisHarmless<S(!new)>(sys: System<S>, step: Step) {
    step.DiagnosisAction? ==> forall s, ok :: sys.act(s, step.command, ok) == s
  }

  lemma {:induction false} AskAllIsInert(w: World, issuer: Step, checks: seq<Check>, h: History)
    ensures Inert(h, AskAll(w, issuer, checks, h).history)
  {
    if checks != [] {
      var first := Ask(w, issuer, checks[0], h);
      if first.reply == Holds {
        AskAllIsInert(w, issuer, checks[1..], first.history);
      }
    }
  }

  /** A succeeding system action of an executing run has exactly its effect. */
  lemma SuccessHasEffect<S>(sys: System<S>, s: S, cfg: Setting, w: World, step: Step, h: History)
    requires step.SystemAction? && cfg.mode == Execute
    requires L.ActionRun(cfg, w, step, h).end == L.Returned(Success)
    ensures StateAfter(sys, s, L.ActionRun(cfg, w, step, h).history) == Effect(sys, StateAfter(sys, s, h), step)
  {
    hide BlastRadiusValid, ProvidersResolved, RequiredCaptureFailed, AskAll, StateAfter;
    var captured := h + Taken(step, step.before);
    var pre := AskAll(w, step, step.preConditions, captured);
    AskAllIsInert(w, step, step.preConditions, captured);
    InertKeepsState(sys, s, h, pre.history);
    var acted := [CommandRun(step, step.command, true)] + Moves(step);
    var moved := pre.history + [CommandRun(step, step.command, true)] + Moves(step);
    assert moved == pre.history + acted;
    StateAppend(sys, s, pre.history, acted);
    InertKeepsState(sys, s, moved, L.ActionRun(cfg, w, step, h).history);
  }

  /** The action stopped before its command. */
  ghost predicate Refused(cfg: Setting, w: World, step: Step, h: History)
    requires step.SystemAction?
  {
    || !BlastRadiusValid(step, cfg.manifest, cfg.context)
    || !ProvidersResolved(cfg, step)
    || RequiredCaptureFailed(step.before)
    || AskAll(w, step, step.preConditions, h + Taken(step, step.before)).reply != Holds
  }

  /** What a failing action leaves behind: nothing if it was refused, what the thrown command did, or,
      when the command returned and only the success check failed, its whole effect. */
  lemma FailedActionEffect<S>(sys: System<S>, s: S, cfg: Setting, w: World, step: Step, h: History)
    requires step.SystemAction? && cfg.mode == Execute
    requires L.ActionRun(cfg, w, step, h).end == L.Returned(Failed)
    ensures var before, asked := StateAfter(sys, s, h), AskAll(w, step, step.preConditions, h + Taken(step, step.before));
      StateAfter(sys, s, L.ActionRun(cfg, w, step, h).history) ==
        if Refused(cfg, w, step, h) then before
        else if w.runs(asked.history, step.command) then Effect(sys, before, step)
        else sys.act(before, step.command, false)
  {
    hide BlastRadiusValid, ProvidersResolved, RequiredCaptureFailed, AskAll, StateAfter;
    var captured := h + Taken(step, step.before);
    var pre := AskAll(w, step, step.preConditions, captured);
    var later := L.ActionRun(cfg, w, step, h).history;
    AskAllIsInert(w, step, step.preConditions, captured);
    InertKeepsState(sys, s, h, captured);
    InertKeepsState(sys, s, h, pre.history);
    if !Refused(cfg, w, step, h) {
      var ok := w.runs(pre.history, step.command);
      if ok {
        var acted := [CommandRun(step, step.command, true)] + Moves(step);
        assert pre.history + [CommandRun(step, step.command, true)] + Moves(step) == pre.history + acted;
        StateAppend(sys, s, pre.history, acted);
        InertKeepsState(sys, s, pre.history + acted, later);
      } else {
        StateAppend(sys, s, pre.history, [CommandRun(step, step.command, false)]);
        OneCommand(sys, StateAfter(sys, s, pre.history), step, false);
      }
    } else {
      InertKeepsState(sys, s, h, h);
    }
  }

  lemma OneCommand<S>(sys: System<S>, s: S, step: Step, ok: bool)
    requires step.SystemAction?
    ensures StateAfter(sys, s, [CommandRun(step, step.command, ok)]) == sys.act(s, step.command, ok)
  {
    assert [CommandRun(step, step.command, ok)][..0] == [];
  }

  ghost predicate NoActionCommand(h: History) {
    forall k :: 0 <= k < |h| && h[k].CommandRun? ==> !h[k].issuer.SystemAction?
  }

  /** Rollback knows no dry run: the results of a dry run, whose own history holds no command of a system
      action, are undone for real. The rollback sends nothing exactly when no action that pretended to
      succeed has anything to send. */
  lemma DryRunIsUndoneForReal(cfg: Setting, w: World, store: Store, plan: Plan, fuel: nat)
    requires cfg.mode == DryRun
    ensures var run := L.RunPlan(cfg, w, plan, fuel);
      && NoActionCommand(run.history)
      && AllEligible(ExtractRollbackSteps(run.results))
      && (UndoAll(w, store, ExtractRollbackSteps(run.results), run.history).history == run.history <==>
            forall r :: r in run.results && Eligible(r) ==> NothingToSend(store, r.step))
  {
    hide L.RunPlan, NothingToSend, Eligible, AllEligible, UndoAll, ExtractRollbackSteps;
    var run := L.RunPlan(cfg, w, plan, fuel);
    M.DryRunOnlyDiagnoses(cfg, w, plan, fuel);
    ExtractedAreEligible(run.results);
    RollbackIsSilentIff(w, store, ExtractRollbackSteps(run.results), run.history);
    ExtractedAreTheEligible(run.results);
    var steps := ExtractRollbackSteps(run.results);
    if AllSilent(store, steps) {
      forall r | r in run.results && Eligible(r)
        ensures NothingToSend(store, r.step)
      {
        assert r in steps;
      }
    } else {
      var i :| 0 <= i < |steps| && !NothingToSend(store, steps[i].step);
      assert steps[i] in steps;
    }
  }

  lemma ExtractedAreTheEligible(results: seq<StepResult>)
    ensures forall r :: r in ExtractRollbackSteps(results) <==> r in results && Eligible(r)
  {
    var kept := Filter(Eligible, results);
    forall r ensures r in Reverse(kept) <==> r in results && Eligible(r) {
      FilterMembers(Eligible, results, r);
      if r in kept {
        var i :| 0 <= i < |kept| && kept[i] == r;
        assert Reverse(kept)[|kept| - 1 - i] == r;
      }
    }
  }

  lemma OtherStepsKeepState<S(!new)>(sys: System<S>, s: S, cfg: Setting, w: World, step: Step, plan: Plan, current: nat,
                                     h: History, completed: seq<StepResult>, fuel: nat)
    requires TopLevelOnly(step) && !step.SystemAction? && DiagnosisHarmless(sys, step)
    ensures StateAfter(sys, s, L.RunStep(cfg, w, step, plan, current, h, completed, fuel).history) == StateAfter(sys, s, h)
  {
    hide AutoApproves, RequiredCaptureFailed;
    var run := L.RunStep(cfg, w, step, plan, current, h, completed, fuel);
    if step.DiagnosisAction? {
      assert run.history[..|run.history| - 1] == h;
    } else {
      InertKeepsState(sys, s, h, run.history);
    }
  }

  /** The history up to the moment the last step started: up to the closing event before it. */
  function ThroughLastDone(h: History): History {
    if h == [] || h[|h| - 1].StepDone? then h else ThroughLastDone(h[..|h| - 1])
  }

  function BeforeLastStep(h: History): History
    requires h != []
  {
    ThroughLastDone(h[..|h| - 1])
  }

  lemma {:induction false} NoDoneInside(h: History, later: History)
    requires h == [] || h[|h| - 1].StepDone?
    requires h <= later && forall k :: |h| <= k < |later| ==> !later[k].StepDone?
    ensures ThroughLastDone(later) == h
    decreases |later|
  {
    if |later| > |h| {
      NoDoneInside(h, later[..|later| - 1]);
    } else {
      assert later == h;
    }
  }

  ghost predicate EndsInFailedMutation(results: seq<StepResult>) {
    results != [] && results[|results| - 1].step.SystemAction? && results[|results| - 1].status == Failed
  }
}
