/** Which candidates end up as clusters, said of the rules and the evidence alone, without the claimed set
    of the loop (src/framework/root-cause-synthesis.ts). */
module Reporting {
  import opened Plans
  import opened Lists
  import opened Synthesis
  import opened Deduplication

  /** The candidate becomes a specific cluster: two of its members are in no stronger one that does. */
  ghost predicate Wins(ranked: seq<Built>, k: nat)
    requires k < |ranked|
    decreases k, 2
  {
    !IsAdvisory(ranked[k]) && |Left(ranked, k)| >= 2
  }

  /** What stronger winners leave of a candidate. */
  ghost function Left(ranked: seq<Built>, k: nat): seq<Evidence>
    requires k < |ranked|
    decreases k, 1
  {
    Filter(e => !Held(ranked, k, e), ranked[k].members)
  }

  /** Some winner among the first `n` candidates matches the agent. */
  ghost predicate Held(ranked: seq<Built>, n: nat, e: Evidence)
    requires n <= |ranked|
    decreases n, 0
  {
    exists j :: 0 <= j < n && Wins(ranked, j) && e in ranked[j].members
  }

  lemma LeftMembers(ranked: seq<Built>, k: nat, e: Evidence)
    requires k < |ranked|
    ensures e in Left(ranked, k) <==> e in ranked[k].members && !Held(ranked, k, e)
  {
    FilterMembers(x => !Held(ranked, k, x), ranked[k].members, e);
  }

  lemma HeldNext(ranked: seq<Built>, n: nat, e: Evidence)
    requires n < |ranked|
    ensures Held(ranked, n + 1, e) <==> Held(ranked, n, e) || (Wins(ranked, n) && e in ranked[n].members)
  {
  }

  lemma SurvivorsAreLeft(ranked: seq<Built>, k: nat, claimed: set<Evidence>)
    requires k < |ranked| && forall e :: e in claimed <==> Held(ranked, k, e)
    ensures Unclaimed(ranked[k].members, claimed) == Left(ranked, k)
  {
    FilterAgrees((e: Evidence) => e !in claimed, e => !Held(ranked, k, e), ranked[k].members);
  }

  lemma NothingHeldLeavesAll(ranked: seq<Built>, k: nat)
    requires k < |ranked| && forall e :: e in ranked[k].members ==> !Held(ranked, k, e)
    ensures Left(ranked, k) == ranked[k].members
  {
    FilterAll(e => !Held(ranked, k, e), ranked[k].members);
  }

  /** The clusters of the winners, strongest first. */
  ghost function Winners(ranked: seq<Built>, n: nat): seq<Cluster>
    requires n <= |ranked|
  {
    if n == 0 then []
    else Winners(ranked, n - 1) + if Wins(ranked, n - 1) then [Report(ranked[n - 1], Left(ranked, n - 1))] else []
  }

  /** The loop claims exactly what winners match, and reports exactly the winners. */
  lemma {:induction false} ClaimedIsHeld(ranked: seq<Built>, n: nat)
    requires n <= |ranked|
    ensures ClaimUpTo(ranked, n).specific == Winners(ranked, n)
    ensures forall e :: e in ClaimUpTo(ranked, n).claimed <==> Held(ranked, n, e)
  {
    hide Held, Left, IsAdvisory, Unclaimed, Report;
    if n > 0 {
      var before, b := ClaimUpTo(ranked, n - 1), ranked[n - 1];
      ClaimedIsHeld(ranked, n - 1);
      SurvivorsAreLeft(ranked, n - 1, before.claimed);
      forall e
        ensures e in ClaimUpTo(ranked, n).claimed <==> Held(ranked, n, e)
      {
        HeldNext(ranked, n - 1, e);
        LeftMembers(ranked, n - 1, e);
      }
    } else {
      NothingHeld(ranked);
    }
  }

  lemma NothingHeld(ranked: seq<Built>)
    ensures forall e :: !Held(ranked, 0, e)
  {
  }

  /** Every reported cluster is what its candidate has left. */
  lemma {:induction false} WinnerOf(ranked: seq<Built>, n: nat, i: nat) returns (k: nat)
    requires n <= |ranked| && i < |Winners(ranked, n)|
    ensures k < n && Wins(ranked, k) && Winners(ranked, n)[i] == Report(ranked[k], Left(ranked, k))
  {
    hide Wins, Left, Report;
    if i < |Winners(ranked, n - 1)| {
      k := WinnerOf(ranked, n - 1, i);
    } else {
      k := n - 1;
    }
  }

  // ---- a target is in a cluster when a rule that reports one matches it ----

  ghost predicate InCluster(clusters: seq<Cluster>, e: Evidence) {
    exists c :: c in clusters && e in c.members
  }

  lemma InSpecific(ranked: seq<Built>, e: Evidence)
    requires Ranked(ranked)
    ensures InCluster(ClaimUpTo(ranked, |ranked|).specific, e) <==> Held(ranked, |ranked|, e)
  {
    hide ClaimUpTo, Held, Disjoint, AllComeFrom, OrderedClusters, Ranked;
    ClaimingKeepsInvariant(ranked, |ranked|);
    ClaimedIsHeld(ranked, |ranked|);
  }

  lemma {:induction false} InAdvisory(ranked: seq<Built>, n: nat, e: Evidence)
    requires n <= |ranked|
    ensures InCluster(ClaimUpTo(ranked, n).advisory, e) <==> exists k :: 0 <= k < n && IsAdvisory(ranked[k]) && e in ranked[k].members
  {
    hide IsAdvisory, Unclaimed, OrderFor;
    if n > 0 {
      InAdvisory(ranked, n - 1, e);
      var before, after := ClaimUpTo(ranked, n - 1).advisory, ClaimUpTo(ranked, n).advisory;
      var b := ranked[n - 1];
      var cluster := Cluster(b.rule, b.members, b.confidence, b.temporal, OrderFor(b.rule, b.members));
      assert after == before + if IsAdvisory(b) then [cluster] else [];
      if IsAdvisory(b) {
        assert after[|before|] == cluster;
        assert InCluster(after, e) <==> InCluster(before, e) || e in b.members;
      }
    }
  }

  /** The candidate is reported, as an overlay or as a specific cluster. */
  ghost predicate Reports(ranked: seq<Built>, k: nat)
    requires k < |ranked|
  {
    IsAdvisory(ranked[k]) || Wins(ranked, k)
  }

  ghost function Candidates(rules: seq<Rule>, evidence: seq<Evidence>): seq<Built> {
    Rank(BuildAll(rules, evidence))
  }

  /** The specific clusters are those of the winners. */
  lemma ReportedAreTheWinners(rules: seq<Rule>, evidence: seq<Evidence>)
    requires |evidence| > 1
    ensures Specific(rules, evidence) == Winners(Candidates(rules, evidence), |Candidates(rules, evidence)|)
  {
    ClaimedIsHeld(Candidates(rules, evidence), |Candidates(rules, evidence)|);
  }

  /** The flag of a specific cluster says of its own members, trimmed or not, whether they were seen unhealthy
      together. */
  lemma FlagIsOfTheMembers(rules: seq<Rule>, evidence: seq<Evidence>, i: nat)
    requires i < |Specific(rules, evidence)|
    ensures Specific(rules, evidence)[i].temporal <==> SeenTogether(Specific(rules, evidence)[i].members)
  {
    hide SeenTogether, TemporallyCorrelated, Held, Wins, MembersOf;
    var ranked := Candidates(rules, evidence);
    ReportedAreTheWinners(rules, evidence);
    var k := WinnerOf(ranked, |ranked|, i);
    CandidateMembers(rules, evidence, k);
    CorrelatedIff(Specific(rules, evidence)[i].members);
    if |Left(ranked, k)| == |ranked[k].members| {
      FilterKeepsAll(e => !Held(ranked, k, e), ranked[k].members);
    }
  }

  /** Some rule that reports a cluster matches the target. */
  ghost predicate Named(rules: seq<Rule>, evidence: seq<Evidence>, e: Evidence) {
    var ranked := Candidates(rules, evidence);
    exists k :: 0 <= k < |ranked| && Reports(ranked, k) && e in MembersOf(ranked[k].rule, evidence)
  }

  lemma {:induction false} BuiltMembers(rules: seq<Rule>, evidence: seq<Evidence>, b: Built)
    requires b in BuildAll(rules, evidence)
    ensures b.members == MembersOf(b.rule, evidence)
    ensures b.rule in rules && BuildOne(b.rule, evidence) == Some(b)
  {
    var one := BuildOne(rules[|rules| - 1], evidence);
    if !(one.Some? && b == one.value) {
      BuiltMembers(rules[..|rules| - 1], evidence, b);
    }
  }

  lemma CandidateMembers(rules: seq<Rule>, evidence: seq<Evidence>, k: nat)
    requires k < |Candidates(rules, evidence)|
    ensures var b := Candidates(rules, evidence)[k];
      b.members == MembersOf(b.rule, evidence) && b.rule in rules && BuildOne(b.rule, evidence) == Some(b)
  {
    hide BuildAll, MembersOf, BuildOne;
    var built := BuildAll(rules, evidence);
    RankSorts(built);
    assert Rank(built)[k] in multiset(Rank(built));
    BuiltMembers(rules, evidence, Rank(built)[k]);
  }

  lemma {:induction false} FiringIsBuilt(rules: seq<Rule>, evidence: seq<Evidence>, rule: Rule)
    requires rule in rules && BuildOne(rule, evidence).Some?
    ensures BuildOne(rule, evidence).value in BuildAll(rules, evidence)
  {
    hide BuildOne;
    if rule != rules[|rules| - 1] {
      assert rule in rules[..|rules| - 1];
      FiringIsBuilt(rules[..|rules| - 1], evidence, rule);
    }
  }

  lemma FiringIsCandidate(rules: seq<Rule>, evidence: seq<Evidence>, rule: Rule) returns (k: nat)
    requires rule in rules && BuildOne(rule, evidence).Some?
    ensures k < |Candidates(rules, evidence)| && Candidates(rules, evidence)[k] == BuildOne(rule, evidence).value
  {
    hide BuildAll, BuildOne;
    var built := BuildAll(rules, evidence);
    FiringIsBuilt(rules, evidence, rule);
    RankSorts(built);
    assert BuildOne(rule, evidence).value in multiset(Rank(built));
    k :| 0 <= k < |Rank(built)| && Rank(built)[k] == BuildOne(rule, evidence).value;
  }

  /** A target is in a cluster exactly when a reporting rule matches it. */
  lemma InClusterIff(rules: seq<Rule>, evidence: seq<Evidence>, e: Evidence)
    requires |evidence| > 1
    ensures InCluster(Synthesize(rules, evidence).clusters, e) <==> Named(rules, evidence, e)
  {
    hide BuildAll, ClaimUpTo, Wins, IsAdvisory, MembersOf, BuildOne;
    var ranked := Candidates(rules, evidence);
    RankSorts(BuildAll(rules, evidence));
    InSpecific(ranked, e);
    InAdvisory(ranked, |ranked|, e);
    forall k | 0 <= k < |ranked|
      ensures ranked[k].members == MembersOf(ranked[k].rule, evidence)
    {
      CandidateMembers(rules, evidence, k);
    }
    var claims := ClaimUpTo(ranked, |ranked|);
    assert InCluster(claims.specific + claims.advisory, e) <==> InCluster(claims.specific, e) || InCluster(claims.advisory, e);
  }

  // ---- rules that compete for a target ----

  /** The rule builds a candidate from this evidence. */
  ghost predicate Fires(rules: seq<Rule>, evidence: seq<Evidence>, rule: Rule) {
    rule in rules && BuildOne(rule, evidence).Some?
  }

  /** Two specific rules build candidates with the agent in them. */
  ghost predicate Contested(rules: seq<Rule>, evidence: seq<Evidence>, e: Evidence) {
    exists r: Rule, s: Rule :: r != s && r.name !in ADVISORY && s.name !in ADVISORY
      && Fires(rules, evidence, r) && Fires(rules, evidence, s) && e in MembersOf(r, evidence) && e in MembersOf(s, evidence)
  }

  lemma BuiltRule(r: Rule, evidence: seq<Evidence>)
    requires BuildOne(r, evidence).Some?
    ensures BuildOne(r, evidence).value.rule == r
  {
  }

  /** Only a candidate of the same rule can hold an uncontested agent. */
  lemma UncontestedHolder(rules: seq<Rule>, evidence: seq<Evidence>, r: Rule, j: nat, e: Evidence)
    requires Fires(rules, evidence, r) && r.name !in ADVISORY && e in MembersOf(r, evidence) && !Contested(rules, evidence, e)
    requires j < |Candidates(rules, evidence)| && Wins(Candidates(rules, evidence), j) && e in Candidates(rules, evidence)[j].members
    ensures Candidates(rules, evidence)[j] == BuildOne(r, evidence).value
  {
    hide BuildOne, MembersOf, Candidates;
    CandidateMembers(rules, evidence, j);
  }
}
