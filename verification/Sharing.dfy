/** The shared-entity requirement of a rule after claiming: it is checked when a candidate is built and
    not again when the candidate is trimmed (src/framework/root-cause-synthesis.ts). */
module Sharing {
  import opened Plans
  import opened Lists
  import opened Synthesis
  import opened Deduplication
  import opened Reporting

  ghost predicate Partners(e: Evidence, other: Evidence) {
    other.agentKind != e.agentKind && exists id :: id in e.entityIds && id in other.entityIds
  }

  lemma SharingIsHavingAPartner(e: Evidence, agents: seq<Evidence>)
    ensures SharesEntity(e, agents) <==> exists other :: other in agents && Partners(e, other)
  {
    if SharesEntity(e, agents) {
      var id, other :| id in e.entityIds && other in agents && id in other.entityIds && other.agentKind != e.agentKind;
      assert Partners(e, other);
    }
    if other :| other in agents && Partners(e, other) {
      var id :| id in e.entityIds && id in other.entityIds;
      SharesThrough(id, e, other, agents);
    }
  }

  ghost predicate AllShare(c: Cluster) {
    forall e :: e in c.members ==> SharesEntity(e, c.members)
  }

  /** Some partner of the agent in the candidate is in no stronger cluster. */
  ghost predicate KeepsAPartner(ranked: seq<Built>, k: nat, e: Evidence)
    requires k < |ranked|
  {
    exists other :: other in ranked[k].members && Partners(e, other) && !Held(ranked, k, other)
  }

  /** The candidate a specific cluster comes from. */
  lemma Origin(rules: seq<Rule>, evidence: seq<Evidence>, i: nat) returns (k: nat)
    requires i < |Specific(rules, evidence)|
    ensures var ranked := Candidates(rules, evidence);
      && k < |ranked| && Wins(ranked, k) && Specific(rules, evidence)[i] == Report(ranked[k], Left(ranked, k))
      && ranked[k].members == MembersOf(ranked[k].rule, evidence) && Fires(rules, evidence, ranked[k].rule)
      && BuildOne(ranked[k].rule, evidence) == Some(ranked[k])
  {
    hide BuildAll, BuildOne, MembersOf, Report, Wins, Left;
    var ranked := Candidates(rules, evidence);
    ReportedAreTheWinners(rules, evidence);
    k := WinnerOf(ranked, |ranked|, i);
    CandidateMembers(rules, evidence, k);
  }

  /** Whether a reported cluster still shares entities: exactly when each agent its rule matches and no
      stronger cluster took has a partner that none took either. */
  lemma ReportedSharingIff(rules: seq<Rule>, evidence: seq<Evidence>, i: nat) returns (k: nat)
    requires i < |Specific(rules, evidence)|
    ensures var ranked := Candidates(rules, evidence);
      && k < |ranked| && Wins(ranked, k) && Specific(rules, evidence)[i] == Report(ranked[k], Left(ranked, k))
      && (AllShare(Specific(rules, evidence)[i]) <==>
            forall e :: e in ranked[k].members && !Held(ranked, k, e) ==> KeepsAPartner(ranked, k, e))
  {
    hide Specific, Candidates, MembersOf, BuildOne, SharesEntity, Partners, Held, Wins, Left;
    var ranked, c := Candidates(rules, evidence), Specific(rules, evidence)[i];
    k := Origin(rules, evidence, i);
    forall e
      ensures e in c.members <==> e in ranked[k].members && !Held(ranked, k, e)
      ensures SharesEntity(e, c.members) <==> KeepsAPartner(ranked, k, e)
    {
      SharingIsHavingAPartner(e, c.members);
      forall other
        ensures other in c.members <==> other in ranked[k].members && !Held(ranked, k, other)
      {
        LeftMembers(ranked, k, other);
      }
    }
  }

  /** A cluster that lost no agent keeps what its rule requires. */
  lemma UntrimmedKeepsSharing(rules: seq<Rule>, evidence: seq<Evidence>, i: nat)
    requires i < |Specific(rules, evidence)| && Specific(rules, evidence)[i].rule.requireSharedEntityId
    requires |Specific(rules, evidence)[i].members| == |MembersOf(Specific(rules, evidence)[i].rule, evidence)|
    ensures AllShare(Specific(rules, evidence)[i])
  {
    hide Specific, Candidates, MembersOf, BuildOne, SharesEntity, Held, Wins;
    var ranked, c := Candidates(rules, evidence), Specific(rules, evidence)[i];
    var k := Origin(rules, evidence, i);
    FilterKeepsAll(e => !Held(ranked, k, e), ranked[k].members);
    forall e | e in c.members
      ensures SharesEntity(e, c.members)
    {
      BuiltMembersShareEntities(c.rule, evidence, e);
    }
  }

  lemma WinnerIsUnheld(rules: seq<Rule>, evidence: seq<Evidence>, k: nat)
    requires k < |Candidates(rules, evidence)| && Wins(Candidates(rules, evidence), k)
    requires forall e :: e in MembersOf(Candidates(rules, evidence)[k].rule, evidence) ==> !Contested(rules, evidence, e)
    ensures Left(Candidates(rules, evidence), k) == Candidates(rules, evidence)[k].members
  {
    hide Candidates, MembersOf, BuildOne, Contested, Left;
    var ranked := Candidates(rules, evidence);
    CandidateMembers(rules, evidence, k);
    forall e | e in ranked[k].members
      ensures !Held(ranked, k, e)
    {
      if j :| 0 <= j < k && Wins(ranked, j) && e in ranked[j].members {
        UncontestedHolder(rules, evidence, ranked[k].rule, j, e);
        LeftMembers(ranked, k, Left(ranked, k)[0]);
      }
    }
    NothingHeldLeavesAll(ranked, k);
  }

  /** If no other specific rule that fires matches an agent of a sharing rule, its cluster shares. */
  lemma UncontestedKeepsSharing(rules: seq<Rule>, evidence: seq<Evidence>, i: nat)
    requires i < |Specific(rules, evidence)| && Specific(rules, evidence)[i].rule.requireSharedEntityId
    requires forall e :: e in MembersOf(Specific(rules, evidence)[i].rule, evidence) ==> !Contested(rules, evidence, e)
    ensures AllShare(Specific(rules, evidence)[i])
  {
    hide Specific, Candidates, MembersOf, BuildOne, Contested, Left, Wins, AllShare;
    var k := Origin(rules, evidence, i);
    WinnerIsUnheld(rules, evidence, k);
    UntrimmedKeepsSharing(rules, evidence, i);
  }

  // ---- an input on which trimming breaks the requirement ----

  /** Two of the source's rules, `rds-platform-degraded` and `iac-out-of-band-change`. */
  const PLATFORM: Rule := Rule(
    "rds-platform-degraded", ["aws-rds", "postgresql", "managed-database"], ["resource_exhaustion", "connection", "timeout"],
    map["aws-rds" := ["resource_exhaustion"]], false, [], ["aws-rds", "postgresql", "managed-database"], 0.3)

  const OUT_OF_BAND: Rule := Rule(
    "iac-out-of-band-change", ["iac-drift", "aws-rds"],
    ["config_mismatch", "resource_exhaustion", "connection", "timeout", "error_rate"],
    map["iac-drift" := ["config_mismatch"]], true, [], ["iac-drift", "aws-rds"], 0.3)

  function Drift(ref: nat, id: string): Evidence {
    Evidence(ref, "iac-drift", ["config_mismatch"], None, [], None, [id])
  }

  function Exhausted(ref: nat, id: string): Evidence {
    Evidence(ref, "aws-rds", ["resource_exhaustion"], None, [], None, [id])
  }

  /** Two databases, each changed outside Terraform and each out of resources. */
  const TWO_DATABASES: seq<Evidence> := [Drift(0, "x"), Exhausted(1, "x"), Drift(2, "y"), Exhausted(3, "y")]

  lemma NotTimed(agents: seq<Evidence>)
    requires forall e :: e in agents ==> e.health.None? && e.snapshots.None?
    ensures !TemporallyCorrelated(agents)
  {
    FilterNone((e: Evidence) => UnhealthyTime(e).Some?, agents);
  }

  lemma DriftPasses(ref: nat, id: string)
    ensures Passes(OUT_OF_BAND, Drift(ref, id)) && Passes(OUT_OF_BAND, Exhausted(ref, id)) && Passes(PLATFORM, Exhausted(ref, id))
    ensures "iac-drift" !in PLATFORM.agentKinds && "aws-rds" in PLATFORM.agentKinds
  {
    assert "iac-drift"[0] != "aws-rds"[0] && "iac-drift"[0] != "postgresql"[0] && "iac-drift"[0] != "managed-database"[0];
    assert "config_mismatch" in RequiredTypes(OUT_OF_BAND, "iac-drift") && "config_mismatch" in SignalTypes(Drift(ref, id)) by {
      assert "config_mismatch" in Drift(ref, id).signals;
    }
    assert "resource_exhaustion" in Exhausted(ref, id).signals;
    assert "resource_exhaustion" in SignalTypes(Exhausted(ref, id));
    assert "resource_exhaustion" in RequiredTypes(OUT_OF_BAND, "aws-rds");
    assert "resource_exhaustion" in RequiredTypes(PLATFORM, "aws-rds");
  }

  lemma PlatformMembers()
    ensures var both := [Exhausted(1, "x"), Exhausted(3, "y")];
      && Matching(PLATFORM, TWO_DATABASES) == both && Passed(PLATFORM, TWO_DATABASES) == both && MembersOf(PLATFORM, TWO_DATABASES) == both
  {
    hide Passes, SharesEntity, Filter;
    DriftPasses(1, "x");
    DriftPasses(3, "y");
    var both := [Exhausted(1, "x"), Exhausted(3, "y")];
    FilterFour((e: Evidence) => e.agentKind in PLATFORM.agentKinds, Drift(0, "x"), Exhausted(1, "x"), Drift(2, "y"), Exhausted(3, "y"));
    FilterAll((e: Evidence) => Passes(PLATFORM, e), both);
  }

  lemma PlatformBuilds()
    ensures BuildOne(PLATFORM, TWO_DATABASES) == Some(Built(PLATFORM, [Exhausted(1, "x"), Exhausted(3, "y")], 0.9, false))
  {
    hide Matching, Passed, MembersOf, Confidence, TemporallyCorrelated;
    PlatformMembers();
    NotTimed([Exhausted(1, "x"), Exhausted(3, "y")]);
    FullAgreement(PLATFORM, 2, PatternMatches(PLATFORM, TWO_DATABASES));
  }

  /** All matching agents agree, nothing is timed: 0.3 + 0.3 and the boost. */
  lemma FullAgreement(rule: Rule, n: nat, patternMatches: nat)
    requires n >= 2 && rule.sharedPatterns == [] && rule.confidenceBoost == 0.3
    ensures Confidence(rule, n, n, patternMatches, false) == 0.9
  {
    assert n as real / n as real == 1.0;
    assert (90.0 + 0.5).Floor == 90;
  }

  lemma OutOfBandMembers()
    ensures Matching(OUT_OF_BAND, TWO_DATABASES) == TWO_DATABASES
    ensures Passed(OUT_OF_BAND, TWO_DATABASES) == TWO_DATABASES
    ensures MembersOf(OUT_OF_BAND, TWO_DATABASES) == TWO_DATABASES
  {
    hide Passes, SharesEntity;
    DriftPasses(0, "x");
    DriftPasses(1, "x");
    DriftPasses(2, "y");
    DriftPasses(3, "y");
    FilterAll((e: Evidence) => e.agentKind in OUT_OF_BAND.agentKinds, TWO_DATABASES);
    FilterAll((e: Evidence) => Passes(OUT_OF_BAND, e), TWO_DATABASES);
    AllPaired();
    FilterAll((e: Evidence) => SharesEntity(e, TWO_DATABASES), TWO_DATABASES);
  }

  lemma OutOfBandBuilds()
    ensures BuildOne(OUT_OF_BAND, TWO_DATABASES) == Some(Built(OUT_OF_BAND, TWO_DATABASES, 0.9, false))
  {
    hide Matching, Passed, MembersOf, Confidence, TemporallyCorrelated;
    OutOfBandMembers();
    NotTimed(TWO_DATABASES);
    FullAgreement(OUT_OF_BAND, 4, PatternMatches(OUT_OF_BAND, TWO_DATABASES));
  }

  lemma AllPaired()
    ensures forall e :: e in TWO_DATABASES ==> SharesEntity(e, TWO_DATABASES)
  {
    assert "iac-drift"[0] != "aws-rds"[0];
    SharesThrough("x", Drift(0, "x"), Exhausted(1, "x"), TWO_DATABASES);
    SharesThrough("x", Exhausted(1, "x"), Drift(0, "x"), TWO_DATABASES);
    SharesThrough("y", Drift(2, "y"), Exhausted(3, "y"), TWO_DATABASES);
    SharesThrough("y", Exhausted(3, "y"), Drift(2, "y"), TWO_DATABASES);
  }

  /** On the two databases the platform rule takes both instances, and the drift rule is reported with
      two drift findings that share nothing. */
  lemma TrimmingCanBreakSharing()
    ensures var specific := Specific([PLATFORM, OUT_OF_BAND], TWO_DATABASES);
      && |specific| == 2 && specific[1].rule == OUT_OF_BAND && OUT_OF_BAND.requireSharedEntityId
      && specific[1].members == [Drift(0, "x"), Drift(2, "y")]
      && forall e :: e in specific[1].members ==> !SharesEntity(e, specific[1].members)
  {
    var platform := Built(PLATFORM, [Exhausted(1, "x"), Exhausted(3, "y")], 0.9, false);
    var drift := Built(OUT_OF_BAND, TWO_DATABASES, 0.9, false);
    BothBuilt(platform, drift);
    BothClaimed(platform, drift);
  }

  lemma BothBuilt(platform: Built, drift: Built)
    requires platform == Built(PLATFORM, [Exhausted(1, "x"), Exhausted(3, "y")], 0.9, false)
    requires drift == Built(OUT_OF_BAND, TWO_DATABASES, 0.9, false)
    ensures Rank(BuildAll([PLATFORM, OUT_OF_BAND], TWO_DATABASES)) == [platform, drift]
  {
    PlatformBuilds();
    OutOfBandBuilds();
    TwoBuilt(PLATFORM, OUT_OF_BAND, TWO_DATABASES, platform, drift);
    TiesKeepTheirOrder(platform, drift);
  }

  lemma TwoBuilt(first: Rule, second: Rule, evidence: seq<Evidence>, a: Built, b: Built)
    requires BuildOne(first, evidence) == Some(a) && BuildOne(second, evidence) == Some(b)
    ensures BuildAll([first, second], evidence) == [a, b]
  {
    hide BuildOne;
    assert [first, second][..1] == [first] && [first][..0] == [];
    assert BuildAll([], evidence) == [];
    assert BuildAll([first], evidence) == [a];
  }

  lemma TiesKeepTheirOrder(a: Built, b: Built)
    requires a.confidence == b.confidence
    ensures Rank([a, b]) == [a, b]
  {
    assert [a, b][..1] == [a] && [a][..0] == [];
    assert Rank([a]) == [a];
    assert InsertBy(Stronger, [a], b) == [a] + InsertBy(Stronger, [], b);
  }

  lemma NothingTaken(members: seq<Evidence>, claimed: set<Evidence>)
    requires forall e :: e in members ==> e !in claimed
    ensures Unclaimed(members, claimed) == members
  {
    FilterAll((e: Evidence) => e !in claimed, members);
  }

  lemma DatabasesTaken(claimed: set<Evidence>)
    requires claimed == {Exhausted(1, "x"), Exhausted(3, "y")}
    ensures Unclaimed(TWO_DATABASES, claimed) == [Drift(0, "x"), Drift(2, "y")]
  {
    hide Filter;
    FilterFour((e: Evidence) => e !in claimed, Drift(0, "x"), Exhausted(1, "x"), Drift(2, "y"), Exhausted(3, "y"));
    assert Drift(0, "x").ref == 0 && Drift(2, "y").ref == 2;
  }

  lemma OneKindSharesNothing(agents: seq<Evidence>, kind: string, e: Evidence)
    requires e in agents && forall a :: a in agents ==> a.agentKind == kind
    ensures !SharesEntity(e, agents)
  {
  }

  lemma BothClaimed(platform: Built, drift: Built)
    requires platform == Built(PLATFORM, [Exhausted(1, "x"), Exhausted(3, "y")], 0.9, false)
    requires drift == Built(OUT_OF_BAND, TWO_DATABASES, 0.9, false)
    ensures var specific := ClaimUpTo([platform, drift], 2).specific;
      && |specific| == 2 && specific[1].rule == OUT_OF_BAND && specific[1].members == [Drift(0, "x"), Drift(2, "y")]
      && forall e :: e in specific[1].members ==> !SharesEntity(e, specific[1].members)
  {
    hide TemporallyCorrelated, OrderFor, Unclaimed, SharesEntity;
    assert "rds-platform-degraded"[0] != "observer-environment"[0] && "iac-out-of-band-change"[0] != "observer-environment"[0];
    var ranked := [platform, drift];
    var rest := [Drift(0, "x"), Drift(2, "y")];
    NothingTaken(platform.members, {});
    var claims := ClaimUpTo(ranked, 1);
    assert ClaimUpTo(ranked, 0) == Claims([], [], {});
    assert claims.specific == [Report(platform, platform.members)];
    assert claims.claimed == {Exhausted(1, "x"), Exhausted(3, "y")};
    DatabasesTaken(claims.claimed);
    assert ClaimUpTo(ranked, 2).specific == claims.specific + [Report(drift, rest)];
    forall e | e in rest
      ensures !SharesEntity(e, rest)
    {
      OneKindSharesNothing(rest, "iac-drift", e);
    }
  }
}
