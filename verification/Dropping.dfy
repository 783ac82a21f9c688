/** Targets that correlation names nowhere: in no cluster, and not in the uncorrelated list, which names
    agent kinds (src/framework/root-cause-synthesis.ts). */
module Dropping {
  import opened Plans
  import opened Lists
  import opened Synthesis
  import opened Deduplication
  import opened Reporting
  import opened Sharing

  ghost predicate Dropped(rules: seq<Rule>, evidence: seq<Evidence>, e: Evidence) {
    var result := Synthesize(rules, evidence);
    e in evidence && !InCluster(result.clusters, e) && e.agentKind !in result.uncorrelated
  }

  ghost predicate DropsNothing(rules: seq<Rule>, evidence: seq<Evidence>) {
    forall e :: !Dropped(rules, evidence, e)
  }

  lemma ListedIff(rules: seq<Rule>, evidence: seq<Evidence>, e: Evidence)
    requires e in evidence && |evidence| > 1
    ensures var result := Synthesize(rules, evidence);
      e.agentKind in result.uncorrelated <==> !exists other: Evidence :: other.agentKind == e.agentKind && InCluster(result.clusters, other)
  {
    var clusters := Synthesize(rules, evidence).clusters;
    var i :| 0 <= i < |evidence| && evidence[i] == e;
    assert KindList(evidence)[i] == e.agentKind;
    FilterMembers((kind: string) => kind !in ClusteredKinds(clusters), KindList(evidence), e.agentKind);
  }

  /** A target is dropped exactly when no rule that reports a cluster matches it and one matches another
      target of its kind. */
  lemma DroppedIff(rules: seq<Rule>, evidence: seq<Evidence>, e: Evidence)
    requires e in evidence && |evidence| > 1
    ensures Dropped(rules, evidence, e) <==>
      !Named(rules, evidence, e) && exists other: Evidence :: other.agentKind == e.agentKind && Named(rules, evidence, other)
  {
    hide Synthesize, Named, InCluster;
    ListedIff(rules, evidence, e);
    forall x
      ensures InCluster(Synthesize(rules, evidence).clusters, x) <==> Named(rules, evidence, x)
    {
      InClusterIff(rules, evidence, x);
    }
  }

  lemma LoneTargetIsListed(rules: seq<Rule>, evidence: seq<Evidence>, e: Evidence)
    requires e in evidence && |evidence| <= 1
    ensures !Dropped(rules, evidence, e)
  {
    assert KindList(evidence)[0] == e.agentKind;
  }

  lemma NamedIsEvidence(rules: seq<Rule>, evidence: seq<Evidence>, e: Evidence)
    requires Named(rules, evidence, e)
    ensures e in evidence
  {
    hide MembersOf, BuildAll, Reports, Passes;
    var ranked := Candidates(rules, evidence);
    var k :| 0 <= k < |ranked| && Reports(ranked, k) && e in MembersOf(ranked[k].rule, evidence);
    MembersPassed(ranked[k].rule, evidence, e);
  }

  // ---- evidence that no rule table drops anything of ----

  ghost predicate KindsDiffer(evidence: seq<Evidence>) {
    forall i, j :: 0 <= i < j < |evidence| ==> evidence[i].agentKind != evidence[j].agentKind
  }

  /** Where each target has a kind of its own, no rule table drops one. */
  lemma DistinctKindsDropNothing(rules: seq<Rule>, evidence: seq<Evidence>)
    requires KindsDiffer(evidence)
    ensures DropsNothing(rules, evidence)
  {
    hide Named;
    forall e
      ensures !Dropped(rules, evidence, e)
    {
      if e in evidence && |evidence| <= 1 {
        LoneTargetIsListed(rules, evidence, e);
      } else if e in evidence {
        DroppedIff(rules, evidence, e);
        forall other: Evidence | other.agentKind == e.agentKind && Named(rules, evidence, other)
          ensures other == e
        {
          NamedIsEvidence(rules, evidence, other);
        }
      }
    }
  }

  // ---- rules that do not compete ----

  ghost predicate Matched(rules: seq<Rule>, evidence: seq<Evidence>, e: Evidence) {
    exists r :: Fires(rules, evidence, r) && e in MembersOf(r, evidence)
  }

  /** A candidate has two members: where entities must be shared, each comes with its partner. */
  lemma CandidateHasTwo(rule: Rule, evidence: seq<Evidence>)
    requires BuildOne(rule, evidence).Some?
    ensures |MembersOf(rule, evidence)| >= 2
  {
    var members := MembersOf(rule, evidence);
    if rule.requireSharedEntityId {
      BuiltMembersShareEntities(rule, evidence, members[0]);
    }
  }

  lemma FirstCandidateOf(ranked: seq<Built>, b: Built, k: nat) returns (first: nat)
    requires k < |ranked| && ranked[k] == b
    ensures first <= k && ranked[first] == b && forall j :: 0 <= j < first ==> ranked[j] != b
  {
    first := k;
    if j :| 0 <= j < k && ranked[j] == b {
      first := FirstCandidateOf(ranked, b, j);
    }
  }

  lemma UncontestedReports(rules: seq<Rule>, evidence: seq<Evidence>, r: Rule) returns (k: nat)
    requires Fires(rules, evidence, r) && forall e :: e in MembersOf(r, evidence) ==> !Contested(rules, evidence, e)
    ensures k < |Candidates(rules, evidence)| && Reports(Candidates(rules, evidence), k) && Candidates(rules, evidence)[k].rule == r
  {
    hide BuildOne, MembersOf, Candidates;
    var ranked := Candidates(rules, evidence);
    var some := FiringIsCandidate(rules, evidence, r);
    k := FirstCandidateOf(ranked, ranked[some], some);
    CandidateMembers(rules, evidence, k);
    BuiltRule(r, evidence);
    if !IsAdvisory(ranked[k]) {
      forall e | e in ranked[k].members
        ensures !Held(ranked, k, e)
      {
        if j :| 0 <= j < k && Wins(ranked, j) && e in ranked[j].members {
          UncontestedHolder(rules, evidence, r, j, e);
        }
      }
      NothingHeldLeavesAll(ranked, k);
      CandidateHasTwo(r, evidence);
    }
  }

  /** Where no two specific rules compete for a target, the drop is read off the rules that fire. */
  lemma DroppedWithoutContentionIff(rules: seq<Rule>, evidence: seq<Evidence>, e: Evidence)
    requires e in evidence && |evidence| > 1 && forall x :: !Contested(rules, evidence, x)
    ensures Dropped(rules, evidence, e) <==>
      !Matched(rules, evidence, e) && exists other: Evidence :: other.agentKind == e.agentKind && Matched(rules, evidence, other)
  {
    hide Dropped, MembersOf, Candidates, Reports, BuildOne, Contested;
    DroppedIff(rules, evidence, e);
    forall x
      ensures Named(rules, evidence, x) <==> Matched(rules, evidence, x)
    {
      if r :| Fires(rules, evidence, r) && x in MembersOf(r, evidence) {
        var k := UncontestedReports(rules, evidence, r);
      }
      if Named(rules, evidence, x) {
        var ranked := Candidates(rules, evidence);
        var k :| 0 <= k < |ranked| && Reports(ranked, k) && x in MembersOf(ranked[k].rule, evidence);
        CandidateMembers(rules, evidence, k);
        assert Fires(rules, evidence, ranked[k].rule);
      }
    }
  }

  // ---- rule tables that drop nothing ----

  /** Signals exist that make the rule fire. */
  ghost predicate CanFire(r: Rule) {
    exists a, b, s, t :: Triggers(r, a, s) && Triggers(r, b, t) && (r.requireSharedEntityId ==> a != b)
  }

  predicate Triggers(r: Rule, kind: string, signal: string) {
    kind in r.agentKinds && signal in RequiredTypes(r, kind)
  }

  function Target(ref: nat, kind: string, signals: seq<string>): Evidence {
    Evidence(ref, kind, signals, None, [], None, ["entity"])
  }

  lemma PassingTriggers(r: Rule, e: Evidence) returns (signal: string)
    requires e.agentKind in r.agentKinds && Passes(r, e)
    ensures Triggers(r, e.agentKind, signal)
  {
    signal :| signal in RequiredTypes(r, e.agentKind) && signal in SignalTypes(e);
  }

  lemma FiringCanFire(r: Rule, evidence: seq<Evidence>)
    requires BuildOne(r, evidence).Some?
    ensures CanFire(r)
  {
    hide Passes;
    CandidateHasTwo(r, evidence);
    var members := MembersOf(r, evidence);
    var a := members[0];
    MembersPassed(r, evidence, a);
    var s := PassingTriggers(r, a);
    if r.requireSharedEntityId {
      BuiltMembersShareEntities(r, evidence, a);
      var id, b :| id in a.entityIds && b in members && id in b.entityIds && b.agentKind != a.agentKind;
      MembersPassed(r, evidence, b);
      var t := PassingTriggers(r, b);
    }
  }

  /** Two targets that make the rule fire, and a silent one of each kind. */
  function Scene(a: string, s: string, b: string, t: string): seq<Evidence> {
    [Target(0, a, [s]), Target(1, b, [t]), Target(2, a, []), Target(3, b, [])]
  }

  lemma SilentIsUnnamed(rules: seq<Rule>, evidence: seq<Evidence>, e: Evidence)
    requires e.signals == [] && e.health.None?
    ensures !Named(rules, evidence, e)
  {
    hide BuildAll, Reports, MembersOf;
    var ranked := Candidates(rules, evidence);
    if k :| 0 <= k < |ranked| && Reports(ranked, k) && e in MembersOf(ranked[k].rule, evidence) {
      MembersPassed(ranked[k].rule, evidence, e);
    }
  }

  lemma SceneFires(r: Rule, a: string, s: string, b: string, t: string)
    requires Triggers(r, a, s) && Triggers(r, b, t) && (r.requireSharedEntityId ==> a != b)
    ensures var both := Scene(a, s, b, t)[..2];
      Matching(r, Scene(a, s, b, t)) == Scene(a, s, b, t) && Passed(r, Scene(a, s, b, t)) == both && MembersOf(r, Scene(a, s, b, t)) == both
    ensures BuildOne(r, Scene(a, s, b, t)).Some?
  {
    hide SharesEntity, Filter;
    var scene := Scene(a, s, b, t);
    var first, second := scene[0], scene[1];
    assert s in first.signals && s in SignalTypes(first) && t in second.signals && t in SignalTypes(second);
    FilterAll((e: Evidence) => e.agentKind in r.agentKinds, scene);
    FilterFour((e: Evidence) => Passes(r, e), first, second, scene[2], scene[3]);
    assert scene[..2] == [first] + [second];
    if r.requireSharedEntityId {
      ScenePairs(a, s, b, t);
      FilterAll((e: Evidence) => SharesEntity(e, scene[..2]), scene[..2]);
    }
  }

  lemma ScenePairs(a: string, s: string, b: string, t: string)
    requires a != b
    ensures var both := Scene(a, s, b, t)[..2]; forall e :: e in both ==> SharesEntity(e, both)
  {
    var both := Scene(a, s, b, t)[..2];
    assert both == [Target(0, a, [s]), Target(1, b, [t])];
    SharesThrough("entity", both[0], both[1], both);
    SharesThrough("entity", both[1], both[0], both);
  }

  /** Whatever else the table holds, a member of a candidate ends up in a cluster. */
  lemma SomeMemberIsNamed(rules: seq<Rule>, evidence: seq<Evidence>, r: Rule) returns (e: Evidence)
    requires Fires(rules, evidence, r)
    ensures e in MembersOf(r, evidence) && Named(rules, evidence, e)
  {
    hide BuildOne, MembersOf, Candidates;
    var ranked := Candidates(rules, evidence);
    var k := FiringIsCandidate(rules, evidence, r);
    CandidateMembers(rules, evidence, k);
    BuiltRule(r, evidence);
    CandidateHasTwo(r, evidence);
    var members := ranked[k].members;
    if Reports(ranked, k) {
      e := members[0];
    } else {
      if forall x :: x in members ==> !Held(ranked, k, x) {
        NothingHeldLeavesAll(ranked, k);
        assert false;
      }
      e :| e in members && Held(ranked, k, e);
      var j :| 0 <= j < k && Wins(ranked, j) && e in ranked[j].members;
      CandidateMembers(rules, evidence, j);
      assert Reports(ranked, j);
    }
  }

  lemma FiringTableDrops(rules: seq<Rule>, r: Rule) returns (evidence: seq<Evidence>, e: Evidence)
    requires r in rules && CanFire(r)
    ensures Dropped(rules, evidence, e)
  {
    hide Dropped, Named, BuildOne, MembersOf;
    var a, b, s, t :| Triggers(r, a, s) && Triggers(r, b, t) && (r.requireSharedEntityId ==> a != b);
    evidence := Scene(a, s, b, t);
    SceneFires(r, a, s, b, t);
    var named := SomeMemberIsNamed(rules, evidence, r);
    e := if named == evidence[0] then evidence[2] else evidence[3];
    SilentIsUnnamed(rules, evidence, e);
    DroppedIff(rules, evidence, e);
  }

  /** Two instances out of resources and two that say nothing. */
  const FOUR_INSTANCES: seq<Evidence> := Scene("aws-rds", "resource_exhaustion", "aws-rds", "resource_exhaustion")

  /** In any table with the source's platform rule the silent instances are in no cluster, and their kind
      is not listed either. */
  lemma SilentInstanceIsDropped(rules: seq<Rule>)
    requires PLATFORM in rules
    ensures var result, silent := Synthesize(rules, FOUR_INSTANCES), Target(2, "aws-rds", []);
      silent in FOUR_INSTANCES && !InCluster(result.clusters, silent) && "aws-rds" !in result.uncorrelated
  {
    hide Synthesize, Named, InCluster, BuildOne, MembersOf;
    var silent := Target(2, "aws-rds", []);
    assert silent == FOUR_INSTANCES[2];
    SceneFires(PLATFORM, "aws-rds", "resource_exhaustion", "aws-rds", "resource_exhaustion");
    var named := SomeMemberIsNamed(rules, FOUR_INSTANCES, PLATFORM);
    SilentIsUnnamed(rules, FOUR_INSTANCES, silent);
    DroppedIff(rules, FOUR_INSTANCES, silent);
  }

  /** A rule table drops no target of any evidence exactly when none of its rules can ever fire. */
  lemma TableDropsNothingIff(rules: seq<Rule>)
    ensures (forall evidence :: DropsNothing(rules, evidence)) <==> (forall r :: r in rules ==> !CanFire(r))
  {
    hide Dropped, CanFire;
    if r :| r in rules && CanFire(r) {
      var evidence, e := FiringTableDrops(rules, r);
      assert !DropsNothing(rules, evidence);
    } else {
      forall evidence, e
        ensures !Dropped(rules, evidence, e)
      {
        IdleTableDropsNothing(rules, evidence, e);
      }
    }
  }

  lemma IdleTableDropsNothing(rules: seq<Rule>, evidence: seq<Evidence>, e: Evidence)
    requires forall r :: r in rules ==> !CanFire(r)
    ensures !Dropped(rules, evidence, e)
  {
    hide CanFire, Candidates;
    if e in evidence && |evidence| > 1 {
      DroppedIff(rules, evidence, e);
      if other :| Named(rules, evidence, other) {
        var k: nat :| k < |Candidates(rules, evidence)|;
        CandidateMembers(rules, evidence, k);
        FiringCanFire(Candidates(rules, evidence)[k].rule, evidence);
      }
    } else if e in evidence {
      LoneTargetIsListed(rules, evidence, e);
    }
  }
}
