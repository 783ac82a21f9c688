/** Rule-based correlation of evidence (src/framework/root-cause-synthesis.ts). */
module Synthesis {
  import opened Plans
  import opened Lists

  datatype Health = Health(unhealthy: bool, observedAt: int, criticalSignal: bool, warningSignal: bool)

  datatype Snapshot = Snapshot(unhealthy: bool, timestamp: int)

  /** An evidence object. `ref` is its identity: two objects with equal content differ in it. */
  datatype Evidence = Evidence(
    ref: nat,
    agentKind: string,
    signals: seq<string>,
    health: Option<Health>,
    patterns: seq<string>,
    snapshots: Option<seq<Snapshot>>,
    entityIds: seq<string>)

  datatype Rule = Rule(
    name: string,
    agentKinds: seq<string>,
    sharedSignalTypes: seq<string>,
    requiredTypesByKind: map<string, seq<string>>,
    requireSharedEntityId: bool,
    sharedPatterns: seq<string>,
    investigationOrder: seq<string>,
    confidenceBoost: real)

  const ADVISORY: set<string> := {"observer-environment"}

  const WINDOW_MS: int := 5 * 60 * 1000

  function SignalTypes(e: Evidence): set<string> {
    (set s | s in e.signals)
    + (if e.health.Some? && e.health.value.criticalSignal then {"error_rate"} else {})
    + (if e.health.Some? && e.health.value.warningSignal then {"latency"} else {})
  }

  lemma SignalTypesIff(e: Evidence, t: string)
    ensures t in SignalTypes(e) <==>
      || t in e.signals
      || (e.health.Some? && e.health.value.criticalSignal && t == "error_rate")
      || (e.health.Some? && e.health.value.warningSignal && t == "latency")
  {
  }

  function RequiredTypes(rule: Rule, kind: string): seq<string> {
    if kind in rule.requiredTypesByKind then rule.requiredTypesByKind[kind] else rule.sharedSignalTypes
  }

  /** The rule's per-agent signal check. */
  predicate Passes(rule: Rule, e: Evidence) {
    exists t :: t in RequiredTypes(rule, e.agentKind) && t in SignalTypes(e)
  }

  predicate SharesPattern(rule: Rule, e: Evidence) {
    exists p :: p in rule.sharedPatterns && p in e.patterns
  }

  /** The rule asks this signal of the kind, by name or for all kinds. */
  predicate Wanted(rule: Rule, kind: string, signal: string) {
    || (kind in rule.requiredTypesByKind && signal in rule.requiredTypesByKind[kind])
    || (kind !in rule.requiredTypesByKind && signal in rule.sharedSignalTypes)
  }

  /** An agent passes by a signal its kind is required to show, where the rule names some for it, and by one of
      the rule's signals otherwise; it matches a pattern that both have. */
  lemma PassesIff(rule: Rule, e: Evidence)
    ensures Passes(rule, e) <==> exists t :: t in SignalTypes(e) && Wanted(rule, e.agentKind, t)
    ensures SharesPattern(rule, e) <==> exists p :: p in e.patterns && p in rule.sharedPatterns
  {
    hide SignalTypes;
  }

  /** Some entity id of the agent is shared with an agent of another kind. */
  predicate SharesEntity(e: Evidence, agents: seq<Evidence>) {
    exists id, other :: id in e.entityIds && other in agents && id in other.entityIds && other.agentKind != e.agentKind
  }

  /** The most recent unhealthy snapshot; health counts only where no snapshots are kept at all. */
  function LastUnhealthy(snapshots: seq<Snapshot>): Option<int> {
    if snapshots == [] then None
    else if snapshots[|snapshots| - 1].unhealthy then Some(snapshots[|snapshots| - 1].timestamp)
    else LastUnhealthy(snapshots[..|snapshots| - 1])
  }

  function UnhealthyTime(e: Evidence): Option<int> {
    if e.snapshots.Some? then LastUnhealthy(e.snapshots.value)
    else if e.health.Some? && e.health.value.unhealthy then Some(e.health.value.observedAt)
    else None
  }

  /** The i-th snapshot is unhealthy, at that time, and nothing after it is. */
  ghost predicate LastUnhealthyAt(snapshots: seq<Snapshot>, i: nat, time: int) {
    && i < |snapshots| && snapshots[i].unhealthy && snapshots[i].timestamp == time
    && forall j :: i < j < |snapshots| ==> !snapshots[j].unhealthy
  }

  /** When the agent was last seen unhealthy: in the last unhealthy snapshot or, where no snapshots are kept
      at all, in its health record. */
  ghost predicate LastSeenUnhealthy(e: Evidence, time: int) {
    if e.snapshots.Some? then exists i: nat :: LastUnhealthyAt(e.snapshots.value, i, time)
    else e.health.Some? && e.health.value.unhealthy && e.health.value.observedAt == time
  }

  lemma {:induction false} LastUnhealthyIff(snapshots: seq<Snapshot>, time: int)
    ensures LastUnhealthy(snapshots) == Some(time) <==> exists i: nat :: LastUnhealthyAt(snapshots, i, time)
    ensures LastUnhealthy(snapshots) == None <==> forall i :: 0 <= i < |snapshots| ==> !snapshots[i].unhealthy
  {
    if snapshots != [] {
      var init, last := snapshots[..|snapshots| - 1], snapshots[|snapshots| - 1];
      LastUnhealthyIff(init, time);
      if last.unhealthy {
        assert LastUnhealthyAt(snapshots, |snapshots| - 1, last.timestamp);
      } else {
        if i: nat :| LastUnhealthyAt(init, i, time) {
          assert LastUnhealthyAt(snapshots, i, time);
        }
        if i: nat :| LastUnhealthyAt(snapshots, i, time) {
          assert LastUnhealthyAt(init, i, time);
        }
      }
    }
  }

  /** The time the correlation works with is that one. */
  lemma UnhealthyTimeIff(e: Evidence, time: int)
    ensures UnhealthyTime(e) == Some(time) <==> LastSeenUnhealthy(e, time)
  {
    if e.snapshots.Some? {
      LastUnhealthyIff(e.snapshots.value, time);
    }
  }

  /** Two agents, at two places of the list, were last seen unhealthy. */
  ghost predicate TwoSeenUnhealthy(agents: seq<Evidence>) {
    exists i, j, s, t :: 0 <= i < j < |agents| && LastSeenUnhealthy(agents[i], s) && LastSeenUnhealthy(agents[j], t)
  }

  /** At least two agents were, and any two of them within five minutes. */
  ghost predicate SeenTogether(agents: seq<Evidence>) {
    && TwoSeenUnhealthy(agents)
    && forall a, b, s, t :: a in agents && b in agents && LastSeenUnhealthy(a, s) && LastSeenUnhealthy(b, t) ==> s - t <= 5 * 60 * 1000
  }

  ghost predicate TemporallyCorrelated(agents: seq<Evidence>) {
    var timed := Filter((e: Evidence) => UnhealthyTime(e).Some?, agents);
    |timed| >= 2 && forall a, b :: a in timed && b in timed ==> UnhealthyTime(a).value - UnhealthyTime(b).value <= WINDOW_MS
  }

  /** What the temporal flag means. */
  lemma CorrelatedIff(agents: seq<Evidence>)
    ensures TemporallyCorrelated(agents) <==> SeenTogether(agents)
  {
    hide LastSeenUnhealthy;
    var has := (e: Evidence) => UnhealthyTime(e).Some?;
    TwoKeptIff(has, agents);
    forall e, t
      ensures UnhealthyTime(e) == Some(t) <==> LastSeenUnhealthy(e, t)
    {
      UnhealthyTimeIff(e, t);
    }
    forall e
      ensures e in Filter(has, agents) <==> e in agents && has(e)
    {
      FilterMembers(has, agents, e);
    }
    forall e
      ensures has(e) <==> exists t :: LastSeenUnhealthy(e, t)
    {
      if has(e) {
        assert LastSeenUnhealthy(e, UnhealthyTime(e).value);
      }
    }
    hide UnhealthyTime;
    if TemporallyCorrelated(agents) {
      forall a, b, s, t | a in agents && b in agents && LastSeenUnhealthy(a, s) && LastSeenUnhealthy(b, t)
        ensures s - t <= 5 * 60 * 1000
      {
        assert UnhealthyTime(a) == Some(s) && UnhealthyTime(b) == Some(t);
      }
    }
    if SeenTogether(agents) {
      forall a, b | a in Filter(has, agents) && b in Filter(has, agents)
        ensures UnhealthyTime(a).value - UnhealthyTime(b).value <= WINDOW_MS
      {
        assert UnhealthyTime(a) == Some(UnhealthyTime(a).value) && UnhealthyTime(b) == Some(UnhealthyTime(b).value);
      }
    }
  }

  predicate Earlier(a: int, b: int) {
    a < b
  }

  predicate NotLater(a: int, b: int) {
    a <= b
  }

  function TimesOf(agents: seq<Evidence>): seq<int> {
    if agents == [] then []
    else
      var time := UnhealthyTime(agents[|agents| - 1]);
      TimesOf(agents[..|agents| - 1]) + if time.Some? then [time.value] else []
  }

  lemma {:induction false} TimesMatch(agents: seq<Evidence>)
    ensures var timed := Filter((e: Evidence) => UnhealthyTime(e).Some?, agents);
      && |TimesOf(agents)| == |timed|
      && (forall e :: e in timed ==> UnhealthyTime(e).value in TimesOf(agents))
      && (forall t :: t in TimesOf(agents) ==> exists e :: e in timed && UnhealthyTime(e).value == t)
  {
    var has := (e: Evidence) => UnhealthyTime(e).Some?;
    if agents != [] {
      var init, last := agents[..|agents| - 1], agents[|agents| - 1];
      assert agents == init + [last];
      TimesMatch(init);
      FilterAppend(has, init, [last]);
      assert Filter(has, [last]) == if has(last) then [last] else [];
      if has(last) {
        assert last in Filter(has, agents);
      }
    }
  }

  /** `hasTemporalCorrelation`: collect the times, sort them, compare the ends. */
  method HasTemporalCorrelation(agents: seq<Evidence>) returns (correlated: bool)
    ensures correlated == TemporallyCorrelated(agents) == SeenTogether(agents)
  {
    hide SeenTogether, UnhealthyTime;
    CorrelatedIff(agents);
    var times: seq<int> := [];
    for i := 0 to |agents|
      invariant times == TimesOf(agents[..i])
    {
      var time := UnhealthyTime(agents[i]);
      assert agents[..i + 1][..i] == agents[..i];
      if time.Some? {
        times := times + [time.value];
      }
    }
    assert agents[..|agents|] == agents;
    TimesMatch(agents);
    if |times| < 2 {
      return false;
    }
    var sorted := SortBy(Earlier, times);
    SortByOrders(Earlier, NotLater, times);
    EndsBoundAll(sorted);
    forall t ensures t in sorted <==> t in times {
      PermutedMembers(sorted, times, t);
    }
    correlated := sorted[|sorted| - 1] - sorted[0] <= WINDOW_MS;
    assert sorted[0] in times && sorted[|sorted| - 1] in times;
  }

  lemma EndsBoundAll(sorted: seq<int>)
    requires Ordered(NotLater, sorted) && sorted != []
    ensures forall x :: x in sorted ==> sorted[0] <= x <= sorted[|sorted| - 1]
  {
    forall i | 0 <= i < |sorted|
      ensures sorted[0] <= sorted[i] <= sorted[|sorted| - 1]
    {
      assert i > 0 ==> NotLater(sorted[0], sorted[i]);
      assert i < |sorted| - 1 ==> NotLater(sorted[i], sorted[|sorted| - 1]);
    }
  }

  // ---- building clusters ----

  datatype Built = Built(rule: Rule, members: seq<Evidence>, confidence: real, temporal: bool)

  function Matching(rule: Rule, evidence: seq<Evidence>): seq<Evidence> {
    Filter((e: Evidence) => e.agentKind in rule.agentKinds, evidence)
  }

  function Passed(rule: Rule, evidence: seq<Evidence>): seq<Evidence> {
    Filter((e: Evidence) => Passes(rule, e), Matching(rule, evidence))
  }

  /** The agents a rule would claim. */
  function MembersOf(rule: Rule, evidence: seq<Evidence>): seq<Evidence> {
    var passed := Passed(rule, evidence);
    if rule.requireSharedEntityId then Filter((e: Evidence) => SharesEntity(e, passed), passed) else passed
  }

  function PatternMatches(rule: Rule, evidence: seq<Evidence>): nat {
    |Filter((e: Evidence) => SharesPattern(rule, e), Matching(rule, evidence))|
  }

  /** Rounding to hundredths, halves up. */
  function Rounded(x: real): real {
    (x * 100.0 + 0.5).Floor as real / 100.0
  }

  function Confidence(rule: Rule, signalMatches: nat, matching: nat, patternMatches: nat, temporal: bool): real
    requires matching > 0
  {
    var base := 0.3 + (signalMatches as real / matching as real) * 0.3;
    var boosted := if patternMatches >= 2 || (rule.sharedPatterns == [] && signalMatches >= 2) then base + rule.confidenceBoost else base;
    var timed := if temporal then boosted + 0.15 else boosted;
    Rounded(if timed > 1.0 then 1.0 else timed)
  }

  /** The confidence before rounding: the base, the share of agents that pass, the rule's boost for shared
      patterns (or, in a rule without patterns, for two agents that pass) and the bonus for timing. */
  function Estimate(rule: Rule, passed: nat, matching: nat, patterns: nat, timed: bool): real
    requires matching > 0
  {
    0.3 + 0.3 * passed as real / matching as real
    + (if patterns >= 2 then rule.confidenceBoost else if |rule.sharedPatterns| == 0 && passed >= 2 then rule.confidenceBoost else 0.0)
    + (if timed then 0.15 else 0.0)
  }

  /** The confidence is the estimate, capped at one, to the nearest hundredth with halves up. */
  lemma ConfidenceIsTheEstimate(rule: Rule, passed: nat, matching: nat, patterns: nat, timed: bool) returns (hundredths: int)
    requires matching > 0
    ensures var estimate := Estimate(rule, passed, matching, patterns, timed);
      var capped := if estimate <= 1.0 then estimate else 1.0;
      && Confidence(rule, passed, matching, patterns, timed) == hundredths as real / 100.0
      && hundredths as real <= 100.0 * capped + 0.5 < hundredths as real + 1.0
  {
    var estimate := Estimate(rule, passed, matching, patterns, timed);
    var capped := if estimate <= 1.0 then estimate else 1.0;
    ScaledRatio(passed as real, matching as real);
    assert Confidence(rule, passed, matching, patterns, timed) == Rounded(capped);
    hundredths := (capped * 100.0 + 0.5).Floor;
  }

  lemma ScaledRatio(x: real, y: real)
    requires y != 0.0
    ensures 0.3 * x / y == x / y * 0.3
  {
  }

  /** What a rule builds from the evidence, if it fires. */
  ghost function BuildOne(rule: Rule, evidence: seq<Evidence>): Option<Built> {
    var matching := Matching(rule, evidence);
    var passed := Passed(rule, evidence);
    var members := MembersOf(rule, evidence);
    if |matching| < 2 || |passed| < 2 || (rule.requireSharedEntityId && members == []) then None
    else
      var temporal := TemporallyCorrelated(members);
      Some(Built(rule, members, Confidence(rule, |passed|, |matching|, PatternMatches(rule, evidence), temporal), temporal))
  }

  ghost function BuildAll(rules: seq<Rule>, evidence: seq<Evidence>): seq<Built> {
    if rules == [] then []
    else
      var one := BuildOne(rules[|rules| - 1], evidence);
      BuildAll(rules[..|rules| - 1], evidence) + if one.Some? then [one.value] else []
  }

  /** The agents grouped under each entity id, as the map `idToAgents` holds them. */
  ghost predicate Grouped(groups: map<string, set<Evidence>>, agents: seq<Evidence>) {
    forall id, e :: (id in groups && e in groups[id]) <==> (e in agents && id in e.entityIds)
  }

  /** `sharingAgents`: everyone in a group that spans two agent kinds. */
  method SharingAgents(passed: seq<Evidence>) returns (sharing: set<Evidence>)
    ensures forall e :: e in sharing <==> e in passed && SharesEntity(e, passed)
  {
    var groups: map<string, set<Evidence>> := map[];
    for i := 0 to |passed|
      invariant Grouped(groups, passed[..i])
    {
      var agent := passed[i];
      assert passed[..i + 1] == passed[..i] + [agent];
      groups := AddToGroups(groups, passed[..i], agent);
    }
    assert passed[..|passed|] == passed;
    sharing := set id, e | id in groups && e in groups[id] && SpansTwoKinds(groups[id]) :: e;
    forall e ensures e in sharing <==> e in passed && SharesEntity(e, passed) {
      if e in passed && SharesEntity(e, passed) {
        var id, other :| id in e.entityIds && other in passed && id in other.entityIds && other.agentKind != e.agentKind;
        assert e in groups[id] && other in groups[id];
      }
      if e in sharing {
        var id :| id in groups && e in groups[id] && SpansTwoKinds(groups[id]);
        var a, b :| a in groups[id] && b in groups[id] && a.agentKind != b.agentKind;
        assert (a in passed && id in a.entityIds) && (b in passed && id in b.entityIds);
      }
    }
  }

  predicate SpansTwoKinds(group: set<Evidence>) {
    exists a, b :: a in group && b in group && a.agentKind != b.agentKind
  }

  method AddToGroups(groups: map<string, set<Evidence>>, ghost before: seq<Evidence>, agent: Evidence)
    returns (later: map<string, set<Evidence>>)
    requires Grouped(groups, before)
    ensures Grouped(later, before + [agent])
  {
    later := groups;
    for j := 0 to |agent.entityIds|
      invariant forall id, e :: (id in later && e in later[id]) <==>
        (e in before && id in e.entityIds) || (e == agent && id in agent.entityIds[..j])
    {
      var id := agent.entityIds[j];
      assert agent.entityIds[..j + 1] == agent.entityIds[..j] + [id];
      later := later[id := (if id in later then later[id] else {}) + {agent}];
    }
    assert agent.entityIds[..|agent.entityIds|] == agent.entityIds;
  }

  /** One pass of the rule loop. */
  method ApplyRule(rule: Rule, evidence: seq<Evidence>) returns (one: Option<Built>)
    ensures one == BuildOne(rule, evidence)
  {
    hide TemporallyCorrelated, SeenTogether, Confidence, Passes, SharesPattern, SharesEntity;
    var matching := Matching(rule, evidence);
    if |matching| < 2 {
      return None;
    }
    var patternMatches := 0;
    var passed: seq<Evidence> := [];
    for i := 0 to |matching|
      invariant passed == Filter((e: Evidence) => Passes(rule, e), matching[..i])
      invariant patternMatches == |Filter((e: Evidence) => SharesPattern(rule, e), matching[..i])|
    {
      var agent := matching[i];
      assert matching[..i + 1] == matching[..i] + [agent];
      FilterLast((e: Evidence) => Passes(rule, e), matching[..i], agent);
      FilterLast((e: Evidence) => SharesPattern(rule, e), matching[..i], agent);
      if Passes(rule, agent) {
        passed := passed + [agent];
      }
      if SharesPattern(rule, agent) {
        patternMatches := patternMatches + 1;
      }
    }
    assert matching[..|matching|] == matching;
    if |passed| < 2 {
      return None;
    }
    var members := passed;
    if rule.requireSharedEntityId {
      var sharing := SharingAgents(passed);
      members := Filter((e: Evidence) => e in sharing, passed);
      FilterAgrees((e: Evidence) => e in sharing, (e: Evidence) => SharesEntity(e, passed), passed);
      if sharing == {} {
        NoSharers(rule, evidence, sharing);
        return None;
      }
      SomeSharers(members, passed, sharing);
    }
    var temporal := HasTemporalCorrelation(members);
    one := Some(Built(rule, members, Confidence(rule, |passed|, |matching|, patternMatches, temporal), temporal));
  }

  lemma FilterLast<T>(keep: T -> bool, s: seq<T>, x: T)
    ensures Filter(keep, s + [x]) == Filter(keep, s) + if keep(x) then [x] else []
  {
    FilterAppend(keep, s, [x]);
    assert Filter(keep, [x]) == if keep(x) then [x] else [];
  }

  lemma NoSharers(rule: Rule, evidence: seq<Evidence>, sharing: set<Evidence>)
    requires rule.requireSharedEntityId
    requires forall e :: e in sharing <==> e in Passed(rule, evidence) && SharesEntity(e, Passed(rule, evidence))
    ensures MembersOf(rule, evidence) != [] ==> sharing != {}
  {
    var passed := Passed(rule, evidence);
    var members := MembersOf(rule, evidence);
    if members != [] {
      FilterMembers((e: Evidence) => SharesEntity(e, passed), passed, members[0]);
      assert members[0] in sharing;
    }
  }

  lemma SomeSharers(members: seq<Evidence>, passed: seq<Evidence>, sharing: set<Evidence>)
    requires members == Filter((e: Evidence) => e in sharing, passed)
    requires sharing != {} && forall e :: e in sharing ==> e in passed
    ensures members != []
  {
    var e :| e in sharing;
    FilterMembers((e: Evidence) => e in sharing, passed, e);
  }
}
