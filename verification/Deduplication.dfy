/** Ranking and claim-once de-duplication of correlation clusters
    (src/framework/root-cause-synthesis.ts), and what they guarantee. */
module Deduplication {
  import opened Lists
  import opened Synthesis

  predicate Stronger(a: Built, b: Built) {
    a.confidence > b.confidence
  }

  predicate NotWeaker(a: Built, b: Built) {
    a.confidence >= b.confidence
  }

  /** Strongest first; ties keep the order in which the rules are declared. */
  function Rank(built: seq<Built>): (r: seq<Built>)
    ensures |r| == |built|
  {
    SortBy(Stronger, built)
  }

  ghost predicate Ranked(built: seq<Built>) {
    forall i, j :: 0 <= i <= j < |built| ==> built[i].confidence >= built[j].confidence
  }

  lemma RankSorts(built: seq<Built>)
    ensures Ranked(Rank(built)) && multiset(Rank(built)) == multiset(built)
  {
    SortByOrders(Stronger, NotWeaker, built);
    var ranked := Rank(built);
    forall i, j | 0 <= i <= j < |ranked|
      ensures ranked[i].confidence >= ranked[j].confidence
    {
      assert i < j ==> NotWeaker(ranked[i], ranked[j]);
    }
  }

  /** Candidates of equal confidence stay in the order in which their rules are declared. */
  lemma TiesKeepTheirPlaces(built: seq<Built>, confidence: real)
    ensures var tied := (b: Built) => b.confidence == confidence; Filter(tied, Rank(built)) == Filter(tied, built)
  {
    SortByIsStable(Stronger, NotWeaker, built, (b: Built) => b.confidence == confidence);
  }

  // ---- claiming ----

  datatype Cluster = Cluster(
    rule: Rule,
    members: seq<Evidence>,
    confidence: real,
    temporal: bool,
    investigationOrder: seq<string>)

  predicate IsAdvisory(b: Built) {
    b.rule.name in ADVISORY
  }

  function Kinds(agents: seq<Evidence>): set<string> {
    set e | e in agents :: e.agentKind
  }

  function OrderFor(rule: Rule, members: seq<Evidence>): seq<string> {
    Filter((kind: string) => kind in Kinds(members), rule.investigationOrder)
  }

  /** The order a cluster recommends names exactly the kinds of its members that the rule's order names, at
      the places they have there. */
  lemma OrderIsTheRules(rule: Rule, members: seq<Evidence>) returns (places: seq<nat>)
    ensures Places((kind: string) => exists e :: e in members && e.agentKind == kind, rule.investigationOrder, OrderFor(rule, members), places)
  {
    var has, named := (kind: string) => kind in Kinds(members), (kind: string) => exists e :: e in members && e.agentKind == kind;
    places := FilterPlaces(has, rule.investigationOrder);
    assert forall kind :: has(kind) == named(kind);
  }

  function Unclaimed(members: seq<Evidence>, claimed: set<Evidence>): seq<Evidence> {
    Filter((e: Evidence) => e !in claimed, members)
  }

  function Members(agents: seq<Evidence>): set<Evidence> {
    set e | e in agents
  }

  /** What a cluster reports: its survivors, with the temporal flag recomputed if it lost any. */
  ghost function Report(b: Built, survivors: seq<Evidence>): Cluster {
    Cluster(b.rule, survivors, b.confidence,
            if |survivors| < |b.members| then TemporallyCorrelated(survivors) else b.temporal,
            OrderFor(b.rule, survivors))
  }

  datatype Claims = Claims(specific: seq<Cluster>, advisory: seq<Cluster>, claimed: set<Evidence>)

  /** The state of the loop after the first `n` ranked candidates. */
  ghost function ClaimUpTo(ranked: seq<Built>, n: nat): Claims
    requires n <= |ranked|
  {
    if n == 0 then Claims([], [], {})
    else
      var c := ClaimUpTo(ranked, n - 1);
      var b := ranked[n - 1];
      var survivors := Unclaimed(b.members, c.claimed);
      if IsAdvisory(b) then
        c.(advisory := c.advisory + [Cluster(b.rule, b.members, b.confidence, b.temporal, OrderFor(b.rule, b.members))])
      else if |survivors| < 2 then c
      else Claims(c.specific + [Report(b, survivors)], c.advisory, c.claimed + Members(survivors))
  }

  datatype Result = Result(clusters: seq<Cluster>, uncorrelated: seq<string>)

  function KindList(evidence: seq<Evidence>): (kinds: seq<string>)
    ensures |kinds| == |evidence|
  {
    seq(|evidence|, i requires 0 <= i < |evidence| => evidence[i].agentKind)
  }

  function ClusteredKinds(clusters: seq<Cluster>): set<string> {
    set c, e | c in clusters && e in c.members :: e.agentKind
  }

  /** `synthesizeByRules`, for any rule table. Cluster ids are positions in the list. */
  ghost function Synthesize(rules: seq<Rule>, evidence: seq<Evidence>): Result {
    if |evidence| <= 1 then Result([], KindList(evidence))
    else
      var ranked := Rank(BuildAll(rules, evidence));
      var claims := ClaimUpTo(ranked, |ranked|);
      var clusters := claims.specific + claims.advisory;
      Result(clusters, Filter((kind: string) => kind !in ClusteredKinds(clusters), KindList(evidence)))
  }

  method SynthesizeByRules(rules: seq<Rule>, evidence: seq<Evidence>) returns (result: Result)
    ensures result == Synthesize(rules, evidence)
  {
    if |evidence| <= 1 {
      return Result([], KindList(evidence));
    }
    var built := BuildClusters(rules, evidence);
    var specific, advisory := ClaimInOrder(Rank(built));
    var clusters := specific + advisory;
    result := Result(clusters, Filter((kind: string) => kind !in ClusteredKinds(clusters), KindList(evidence)));
  }

  /** The first loop: every rule that fires contributes a candidate. */
  method BuildClusters(rules: seq<Rule>, evidence: seq<Evidence>) returns (built: seq<Built>)
    ensures built == BuildAll(rules, evidence)
  {
    hide BuildOne;
    built := [];
    for i := 0 to |rules|
      invariant built == BuildAll(rules[..i], evidence)
    {
      var one := ApplyRule(rules[i], evidence);
      assert rules[..i + 1][..i] == rules[..i];
      if one.Some? {
        built := built + [one.value];
      }
    }
    assert rules[..|rules|] == rules;
  }

  /** The second loop: strongest first, an agent is claimed once. */
  method ClaimInOrder(ranked: seq<Built>) returns (specific: seq<Cluster>, advisory: seq<Cluster>)
    ensures var claims := ClaimUpTo(ranked, |ranked|); specific == claims.specific && advisory == claims.advisory
  {
    hide Unclaimed, Members, OrderFor, IsAdvisory, TemporallyCorrelated;
    specific, advisory := [], [];
    var claimed: set<Evidence> := {};
    for n := 0 to |ranked|
      invariant Claims(specific, advisory, claimed) == ClaimUpTo(ranked, n)
    {
      var b := ranked[n];
      if IsAdvisory(b) {
        advisory := advisory + [Cluster(b.rule, b.members, b.confidence, b.temporal, OrderFor(b.rule, b.members))];
        continue;
      }
      var survivors := Unclaimed(b.members, claimed);
      if |survivors| < 2 {
        continue;
      }
      claimed := claimed + Members(survivors);
      var temporal := b.temporal;
      if |survivors| < |b.members| {
        temporal := HasTemporalCorrelation(survivors);
      }
      specific := specific + [Cluster(b.rule, survivors, b.confidence, temporal, OrderFor(b.rule, survivors))];
    }
  }

  // ---- what claiming guarantees ----

  ghost predicate Disjoint(clusters: seq<Cluster>) {
    forall i, j, e :: 0 <= i < j < |clusters| && e in clusters[i].members ==> e !in clusters[j].members
  }

  ghost predicate ClaimedIsUnion(c: Claims) {
    forall e :: e in c.claimed <==> exists i :: 0 <= i < |c.specific| && e in c.specific[i].members
  }

  /** A reported cluster is what some candidate became. */
  ghost predicate ComesFrom(cluster: Cluster, b: Built) {
    && !IsAdvisory(b) && cluster.rule == b.rule && cluster.confidence == b.confidence
    && |cluster.members| >= 2 && (forall e :: e in cluster.members ==> e in b.members)
    && cluster.investigationOrder == OrderFor(b.rule, cluster.members)
  }

  ghost predicate AllComeFrom(specific: seq<Cluster>, ranked: seq<Built>, n: nat)
    requires n <= |ranked|
  {
    forall i :: 0 <= i < |specific| ==> HasSource(specific[i], ranked, n)
  }

  ghost predicate HasSource(cluster: Cluster, ranked: seq<Built>, n: nat)
    requires n <= |ranked|
  {
    exists k :: 0 <= k < n && ComesFrom(cluster, ranked[k])
  }

  /** In order of confidence, and none weaker than a candidate already seen. */
  ghost predicate OrderedClusters(specific: seq<Cluster>) {
    forall i, j :: 0 <= i <= j < |specific| ==> specific[i].confidence >= specific[j].confidence
  }

  ghost predicate ClaimInvariant(ranked: seq<Built>, n: nat, c: Claims)
    requires n <= |ranked|
  {
    && Disjoint(c.specific)
    && ClaimedIsUnion(c)
    && AllComeFrom(c.specific, ranked, n)
    && OrderedClusters(c.specific)
    && (forall i, k :: 0 <= i < |c.specific| && n <= k < |ranked| ==> c.specific[i].confidence >= ranked[k].confidence)
  }

  lemma SurvivorsAreUnclaimed(members: seq<Evidence>, claimed: set<Evidence>)
    ensures forall e :: e in Unclaimed(members, claimed) <==> e in members && e !in claimed
  {
    forall e ensures e in Unclaimed(members, claimed) <==> e in members && e !in claimed {
      FilterMembers((x: Evidence) => x !in claimed, members, e);
    }
  }

  lemma {:induction false} ClaimingKeepsInvariant(ranked: seq<Built>, n: nat)
    requires n <= |ranked| && Ranked(ranked)
    ensures ClaimInvariant(ranked, n, ClaimUpTo(ranked, n))
  {
    if n > 0 {
      ClaimingKeepsInvariant(ranked, n - 1);
      var c, later := ClaimUpTo(ranked, n - 1), ClaimUpTo(ranked, n);
      var b := ranked[n - 1];
      var survivors := Unclaimed(b.members, c.claimed);
      SurvivorsAreUnclaimed(b.members, c.claimed);
      StillComeFrom(c.specific, ranked, n);
      if !IsAdvisory(b) && |survivors| >= 2 {
        AddingAClusterKeeps(ranked, n, c, later, survivors);
      }
    }
  }

  lemma StillComeFrom(specific: seq<Cluster>, ranked: seq<Built>, n: nat)
    requires 0 < n <= |ranked| && AllComeFrom(specific, ranked, n - 1)
    ensures AllComeFrom(specific, ranked, n)
  {
    forall i | 0 <= i < |specific|
      ensures HasSource(specific[i], ranked, n)
    {
      assert HasSource(specific[i], ranked, n - 1);
      var k :| 0 <= k < n - 1 && ComesFrom(specific[i], ranked[k]);
    }
  }

  lemma AddingAClusterKeeps(ranked: seq<Built>, n: nat, c: Claims, later: Claims, survivors: seq<Evidence>)
    requires 0 < n <= |ranked| && Ranked(ranked)
    requires ClaimInvariant(ranked, n - 1, c) && AllComeFrom(c.specific, ranked, n)
    requires !IsAdvisory(ranked[n - 1]) && |survivors| >= 2
    requires forall e :: e in survivors <==> e in ranked[n - 1].members && e !in c.claimed
    requires later == Claims(c.specific + [Report(ranked[n - 1], survivors)], c.advisory, c.claimed + Members(survivors))
    ensures ClaimInvariant(ranked, n, later)
  {
    hide ComesFrom, HasSource, TemporallyCorrelated, OrderFor;
    var added := Report(ranked[n - 1], survivors);
    AddedHasSource(ranked, n, survivors);
    ClaimedIsUnionStill(c, later, added);
    assert Disjoint(later.specific) by {
      forall i, j, e | 0 <= i < j < |later.specific| && e in later.specific[i].members
        ensures e !in later.specific[j].members
      {
        assert later.specific[i] == c.specific[i];
        assert j == |c.specific| ==> e in c.claimed;
      }
    }
    forall i | 0 <= i < |later.specific|
      ensures HasSource(later.specific[i], ranked, n)
    {
      assert i < |c.specific| ==> HasSource(c.specific[i], ranked, n);
    }
  }

  lemma AddedHasSource(ranked: seq<Built>, n: nat, survivors: seq<Evidence>)
    requires 0 < n <= |ranked| && !IsAdvisory(ranked[n - 1]) && |survivors| >= 2
    requires forall e :: e in survivors ==> e in ranked[n - 1].members
    ensures HasSource(Report(ranked[n - 1], survivors), ranked, n)
  {
    assert ComesFrom(Report(ranked[n - 1], survivors), ranked[n - 1]);
  }

  lemma ClaimedIsUnionStill(c: Claims, later: Claims, added: Cluster)
    requires ClaimedIsUnion(c)
    requires later.specific == c.specific + [added] && later.claimed == c.claimed + Members(added.members)
    ensures ClaimedIsUnion(later)
  {
    assert later.specific[|c.specific|] == added;
    forall e
      ensures e in later.claimed <==> exists i :: 0 <= i < |later.specific| && e in later.specific[i].members
    {
      if e in c.claimed {
        var i :| 0 <= i < |c.specific| && e in c.specific[i].members;
        assert later.specific[i] == c.specific[i];
      }
    }
  }

  /** Claims only grow. */
  lemma {:induction false} ClaimsGrow(ranked: seq<Built>, m: nat, n: nat)
    requires m <= n <= |ranked|
    ensures ClaimUpTo(ranked, m).claimed <= ClaimUpTo(ranked, n).claimed
    ensures ClaimUpTo(ranked, m).specific <= ClaimUpTo(ranked, n).specific
  {
    if m < n {
      ClaimsGrow(ranked, m, n - 1);
    }
  }

  lemma {:induction false} UnclaimedShrinks(members: seq<Evidence>, fewer: set<Evidence>, more: set<Evidence>)
    requires fewer <= more
    ensures |Unclaimed(members, more)| <= |Unclaimed(members, fewer)|
  {
    if members != [] {
      UnclaimedShrinks(members[1..], fewer, more);
    }
  }

  /** Candidate `k` is reported, with every member it had not lost to a stronger cluster. */
  ghost predicate ReportedFor(c: Claims, ranked: seq<Built>, k: nat)
    requires k < |ranked|
  {
    exists i :: 0 <= i < |c.specific| && ComesFrom(c.specific[i], ranked[k]) &&
      forall e :: e in ranked[k].members && e !in c.specific[i].members ==>
        exists j :: 0 <= j < i && e in c.specific[j].members
  }

  /** Greedy maximality: a candidate that is not reported has at most one member nobody claimed, and a
      reported one lost members only to clusters ranked before it. */
  lemma EveryCandidateIsSettled(ranked: seq<Built>, k: nat)
    requires k < |ranked| && Ranked(ranked) && !IsAdvisory(ranked[k])
    ensures var final := ClaimUpTo(ranked, |ranked|);
      ReportedFor(final, ranked, k) || |Unclaimed(ranked[k].members, final.claimed)| <= 1
  {
    hide ClaimUpTo, ClaimInvariant;
    var before, final := ClaimUpTo(ranked, k), ClaimUpTo(ranked, |ranked|);
    ClaimsGrow(ranked, k, |ranked|);
    if |Unclaimed(ranked[k].members, before.claimed)| < 2 {
      UnclaimedShrinks(ranked[k].members, before.claimed, final.claimed);
    } else {
      ClaimsGrow(ranked, k + 1, |ranked|);
      ReportedAtItsTurn(ranked, k);
      ReportStands(ranked, k, final);
    }
  }

  /** A candidate with two unclaimed members becomes the next cluster, losing only claimed members. */
  lemma ReportedAtItsTurn(ranked: seq<Built>, k: nat)
    requires k < |ranked| && Ranked(ranked) && !IsAdvisory(ranked[k])
    requires |Unclaimed(ranked[k].members, ClaimUpTo(ranked, k).claimed)| >= 2
    ensures var before, after := ClaimUpTo(ranked, k), ClaimUpTo(ranked, k + 1);
      && |after.specific| == |before.specific| + 1 && before.specific <= after.specific
      && ComesFrom(after.specific[|before.specific|], ranked[k])
      && forall e :: e in ranked[k].members && e !in after.specific[|before.specific|].members ==>
           exists j :: 0 <= j < |before.specific| && e in before.specific[j].members
  {
    hide Ranked, TemporallyCorrelated;
    var before := ClaimUpTo(ranked, k);
    SurvivorsAreUnclaimed(ranked[k].members, before.claimed);
    assert ClaimedIsUnion(before) by {
      ClaimingKeepsInvariant(ranked, k);
    }
  }

  lemma ReportStands(ranked: seq<Built>, k: nat, final: Claims)
    requires k < |ranked|
    requires var before, after := ClaimUpTo(ranked, k), ClaimUpTo(ranked, k + 1);
      && |after.specific| == |before.specific| + 1 && before.specific <= after.specific && after.specific <= final.specific
      && ComesFrom(after.specific[|before.specific|], ranked[k])
      && forall e :: e in ranked[k].members && e !in after.specific[|before.specific|].members ==>
           exists j :: 0 <= j < |before.specific| && e in before.specific[j].members
    ensures ReportedFor(final, ranked, k)
  {
    hide ClaimUpTo, ComesFrom;
    var before, after := ClaimUpTo(ranked, k), ClaimUpTo(ranked, k + 1);
    var i := |before.specific|;
    assert final.specific[i] == after.specific[i];
    forall e | e in ranked[k].members && e !in final.specific[i].members
      ensures exists j :: 0 <= j < i && e in final.specific[j].members
    {
      var j :| 0 <= j < |before.specific| && e in before.specific[j].members;
      assert final.specific[j] == before.specific[j];
    }
  }

  // ---- what building guarantees ----

  ghost predicate SoundBuilt(rules: seq<Rule>, evidence: seq<Evidence>, b: Built) {
    && b.rule in rules
    && (forall e :: e in b.members ==> e in evidence && e.agentKind in b.rule.agentKinds && Passes(b.rule, e))
    && 0.3 <= b.confidence <= 1.0
    && (b.rule.requireSharedEntityId ==> forall e :: e in b.members ==> SharesEntity(e, Passed(b.rule, evidence)))
  }

  ghost predicate BoostsNonNegative(rules: seq<Rule>) {
    forall r :: r in rules ==> r.confidenceBoost >= 0.0
  }

  lemma FloorIsMonotone(a: real, b: real)
    requires a <= b
    ensures a.Floor <= b.Floor
  {
  }

  lemma RoundingIsMonotone(x: real, y: real)
    requires x <= y
    ensures Rounded(x) <= Rounded(y)
  {
    FloorIsMonotone(x * 100.0 + 0.5, y * 100.0 + 0.5);
  }

  lemma ConfidenceInRange(rule: Rule, signalMatches: nat, matching: nat, patternMatches: nat, temporal: bool)
    requires matching > 0 && rule.confidenceBoost >= 0.0
    ensures 0.3 <= Confidence(rule, signalMatches, matching, patternMatches, temporal) <= 1.0
  {
    var ratio := signalMatches as real / matching as real;
    assert ratio >= 0.0;
    var base := 0.3 + ratio * 0.3;
    var boosted := if patternMatches >= 2 || (rule.sharedPatterns == [] && signalMatches >= 2) then base + rule.confidenceBoost else base;
    var timed := if temporal then boosted + 0.15 else boosted;
    var capped := if timed > 1.0 then 1.0 else timed;
    assert Confidence(rule, signalMatches, matching, patternMatches, temporal) == Rounded(capped);
    RoundingIsMonotone(0.3, capped);
    RoundingIsMonotone(capped, 1.0);
    assert Rounded(0.3) == 0.3 && Rounded(1.0) == 1.0;
  }

  lemma MembersPassed(rule: Rule, evidence: seq<Evidence>, e: Evidence)
    requires e in MembersOf(rule, evidence)
    ensures e in evidence && e.agentKind in rule.agentKinds && Passes(rule, e)
    ensures rule.requireSharedEntityId ==> SharesEntity(e, Passed(rule, evidence))
  {
    var passed := Passed(rule, evidence);
    FilterMembers((x: Evidence) => SharesEntity(x, passed), passed, e);
    FilterMembers((x: Evidence) => Passes(rule, x), Matching(rule, evidence), e);
    FilterMembers((x: Evidence) => x.agentKind in rule.agentKinds, evidence, e);
  }

  lemma {:induction false} BuiltsAreSound(rules: seq<Rule>, evidence: seq<Evidence>, all: seq<Rule>)
    requires BoostsNonNegative(all) && forall r :: r in rules ==> r in all
    ensures forall b :: b in BuildAll(rules, evidence) ==> SoundBuilt(all, evidence, b)
  {
    if rules != [] {
      var init, last := rules[..|rules| - 1], rules[|rules| - 1];
      BuiltsAreSound(init, evidence, all);
      var one := BuildOne(last, evidence);
      if one.Some? {
        forall e | e in one.value.members
          ensures e in evidence && e.agentKind in last.agentKinds && Passes(last, e)
          ensures last.requireSharedEntityId ==> SharesEntity(e, Passed(last, evidence))
        {
          MembersPassed(last, evidence, e);
        }
        ConfidenceInRange(last, |Passed(last, evidence)|, |Matching(last, evidence)|, PatternMatches(last, evidence), one.value.temporal);
      }
    }
  }

  /** The clusters that are not advisory overlays: they come first in the result. */
  ghost function Specific(rules: seq<Rule>, evidence: seq<Evidence>): seq<Cluster> {
    var ranked := Rank(BuildAll(rules, evidence));
    if |evidence| <= 1 then [] else ClaimUpTo(ranked, |ranked|).specific
  }

  ghost predicate SoundCluster(rules: seq<Rule>, evidence: seq<Evidence>, c: Cluster) {
    && c.rule in rules && c.rule.name !in ADVISORY
    && |c.members| >= 2
    && (forall e :: e in c.members ==> e in evidence && e.agentKind in c.rule.agentKinds && Passes(c.rule, e))
    && 0.3 <= c.confidence <= 1.0
  }

  /** The reported specific clusters: disjoint by evidence identity, at least two members each, all of
      them past their rule's signal check, strongest first, confidence within [0.3, 1]. */
  lemma ReportedClustersAreSound(rules: seq<Rule>, evidence: seq<Evidence>)
    requires BoostsNonNegative(rules)
    ensures var specific := Specific(rules, evidence);
      && specific <= Synthesize(rules, evidence).clusters
      && Disjoint(specific)
      && OrderedClusters(specific)
      && forall i :: 0 <= i < |specific| ==> SoundCluster(rules, evidence, specific[i])
  {
    if |evidence| > 1 {
      var built := BuildAll(rules, evidence);
      var ranked := Rank(built);
      RankSorts(built);
      BuiltsAreSound(rules, evidence, rules);
      ClaimingKeepsInvariant(ranked, |ranked|);
      var specific := Specific(rules, evidence);
      forall i | 0 <= i < |specific|
        ensures SoundCluster(rules, evidence, specific[i])
      {
        assert HasSource(specific[i], ranked, |ranked|);
        var k :| 0 <= k < |ranked| && ComesFrom(specific[i], ranked[k]);
        assert ranked[k] in multiset(ranked);
        assert ranked[k] in built;
      }
    }
  }

  /** Every candidate a rule builds is either reported or has at most one unclaimed member left. */
  lemma DiscardedCandidatesAreSpent(rules: seq<Rule>, evidence: seq<Evidence>, b: Built)
    requires |evidence| > 1 && b in BuildAll(rules, evidence) && !IsAdvisory(b)
    ensures var ranked := Rank(BuildAll(rules, evidence));
      var final := ClaimUpTo(ranked, |ranked|);
      exists k :: 0 <= k < |ranked| && ranked[k] == b &&
        (ReportedFor(final, ranked, k) || |Unclaimed(b.members, final.claimed)| <= 1)
  {
    var built := BuildAll(rules, evidence);
    var ranked := Rank(built);
    RankSorts(built);
    assert b in multiset(ranked);
    var k :| 0 <= k < |ranked| && ranked[k] == b;
    EveryCandidateIsSettled(ranked, k);
  }

  lemma SharesThrough(id: string, e: Evidence, other: Evidence, agents: seq<Evidence>)
    requires id in e.entityIds && other in agents && id in other.entityIds && other.agentKind != e.agentKind
    ensures SharesEntity(e, agents)
  {
  }

  /** When a rule requires a shared entity, every member of the candidate it builds shares one with
      another member of a different kind. */
  lemma BuiltMembersShareEntities(rule: Rule, evidence: seq<Evidence>, e: Evidence)
    requires rule.requireSharedEntityId && e in MembersOf(rule, evidence)
    ensures SharesEntity(e, MembersOf(rule, evidence))
  {
    hide Passed;
    var passed := Passed(rule, evidence);
    var shares := (x: Evidence) => SharesEntity(x, passed);
    FilterMembers(shares, passed, e);
    var id, other :| id in e.entityIds && other in passed && id in other.entityIds && other.agentKind != e.agentKind;
    hide SharesEntity;
    SharesThrough(id, other, e, passed);
    FilterMembers(shares, passed, other);
    SharesThrough(id, e, other, MembersOf(rule, evidence));
  }
}
