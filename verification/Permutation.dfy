/** The order in which evidence arrives does not matter. */
module Permutation {
  import opened Lists
  import opened Synthesis
  import opened Deduplication

  /** Two candidates built from reordered evidence: the same up to the order of their members. */
  ghost predicate SameBuilt(a: Built, b: Built) {
    a.rule == b.rule && a.confidence == b.confidence && a.temporal == b.temporal && Permuted(a.members, b.members)
  }

  ghost predicate SameBuilts(a: seq<Built>, b: seq<Built>) {
    |a| == |b| && forall i :: 0 <= i < |a| ==> SameBuilt(a[i], b[i])
  }

  lemma TemporalPermuted(s: seq<Evidence>, t: seq<Evidence>)
    requires Permuted(s, t)
    ensures TemporallyCorrelated(s) == TemporallyCorrelated(t)
  {
    var has := (e: Evidence) => UnhealthyTime(e).Some?;
    FilterPermuted(has, s, t);
    forall e ensures e in Filter(has, s) <==> e in Filter(has, t) {
      PermutedMembers(Filter(has, s), Filter(has, t), e);
    }
  }

  lemma SharingPermuted(rule: Rule, s: seq<Evidence>, t: seq<Evidence>)
    requires Permuted(s, t)
    ensures Permuted(Filter((e: Evidence) => SharesEntity(e, s), s), Filter((e: Evidence) => SharesEntity(e, t), t))
  {
    var inS := (e: Evidence) => SharesEntity(e, s);
    var inT := (e: Evidence) => SharesEntity(e, t);
    forall e ensures e in s <==> e in t {
      PermutedMembers(s, t, e);
    }
    FilterPermuted(inS, s, t);
    FilterAgrees(inS, inT, t);
  }

  lemma BuildOnePermuted(rule: Rule, s: seq<Evidence>, t: seq<Evidence>)
    requires Permuted(s, t)
    ensures var a, b := BuildOne(rule, s), BuildOne(rule, t);
      a.Some? == b.Some? && (a.Some? ==> SameBuilt(a.value, b.value))
  {
    FilterPermuted((e: Evidence) => e.agentKind in rule.agentKinds, s, t);
    FilterPermuted((e: Evidence) => Passes(rule, e), Matching(rule, s), Matching(rule, t));
    FilterPermuted((e: Evidence) => SharesPattern(rule, e), Matching(rule, s), Matching(rule, t));
    if rule.requireSharedEntityId {
      SharingPermuted(rule, Passed(rule, s), Passed(rule, t));
    }
    PermutedSameLength(MembersOf(rule, s), MembersOf(rule, t));
    TemporalPermuted(MembersOf(rule, s), MembersOf(rule, t));
  }

  lemma {:induction false} BuildAllPermuted(rules: seq<Rule>, s: seq<Evidence>, t: seq<Evidence>)
    requires Permuted(s, t)
    ensures SameBuilts(BuildAll(rules, s), BuildAll(rules, t))
  {
    hide BuildOne, SameBuilt, Permuted;
    if rules != [] {
      BuildAllPermuted(rules[..|rules| - 1], s, t);
      BuildOnePermuted(rules[|rules| - 1], s, t);
    }
  }

  lemma {:induction false} InsertSame(ranked: seq<Built>, ranked': seq<Built>, b: Built, b': Built)
    requires SameBuilts(ranked, ranked') && SameBuilt(b, b')
    ensures SameBuilts(InsertBy(Stronger, ranked, b), InsertBy(Stronger, ranked', b'))
  {
    if ranked != [] {
      assert SameBuilt(ranked[0], ranked'[0]);
      if !Stronger(b, ranked[0]) {
        InsertSame(ranked[1..], ranked'[1..], b, b');
      }
    }
  }

  lemma {:induction false} RankSame(built: seq<Built>, built': seq<Built>)
    requires SameBuilts(built, built')
    ensures SameBuilts(Rank(built), Rank(built'))
  {
    if built != [] {
      var n := |built| - 1;
      RankSame(built[..n], built'[..n]);
      InsertSame(Rank(built[..n]), Rank(built'[..n]), built[n], built'[n]);
    }
  }

  /** Two reported clusters with the same rule, confidence, temporal flag, investigation order and,
      by identity, the same members. */
  ghost predicate SameCluster(a: Cluster, b: Cluster) {
    && a.rule == b.rule && a.confidence == b.confidence && a.temporal == b.temporal
    && a.investigationOrder == b.investigationOrder && Permuted(a.members, b.members)
  }

  ghost predicate SameClusters(a: seq<Cluster>, b: seq<Cluster>) {
    |a| == |b| && forall i :: 0 <= i < |a| ==> SameCluster(a[i], b[i])
  }

  lemma OrderPermuted(rule: Rule, s: seq<Evidence>, t: seq<Evidence>)
    requires Permuted(s, t)
    ensures OrderFor(rule, s) == OrderFor(rule, t) && Members(s) == Members(t)
  {
    forall e ensures e in s <==> e in t {
      PermutedMembers(s, t, e);
    }
    assert Kinds(s) == Kinds(t);
    FilterAgrees((kind: string) => kind in Kinds(s), (kind: string) => kind in Kinds(t), rule.investigationOrder);
  }

  ghost predicate SameClaims(a: Claims, b: Claims) {
    SameClusters(a.specific, b.specific) && SameClusters(a.advisory, b.advisory) && a.claimed == b.claimed
  }

  lemma SurvivorsPermuted(b: Built, b': Built, claimed: set<Evidence>)
    requires SameBuilt(b, b')
    ensures Permuted(Unclaimed(b.members, claimed), Unclaimed(b'.members, claimed))
    ensures |Unclaimed(b.members, claimed)| == |Unclaimed(b'.members, claimed)| && |b.members| == |b'.members|
    ensures SameCluster(Report(b, Unclaimed(b.members, claimed)), Report(b', Unclaimed(b'.members, claimed)))
    ensures Members(Unclaimed(b.members, claimed)) == Members(Unclaimed(b'.members, claimed))
  {
    FilterPermuted((e: Evidence) => e !in claimed, b.members, b'.members);
    PermutedSameLength(b.members, b'.members);
    var survivors, survivors' := Unclaimed(b.members, claimed), Unclaimed(b'.members, claimed);
    TemporalPermuted(survivors, survivors');
    OrderPermuted(b.rule, survivors, survivors');
  }

  lemma {:induction false} ClaimSame(ranked: seq<Built>, ranked': seq<Built>, n: nat)
    requires SameBuilts(ranked, ranked') && n <= |ranked|
    ensures SameClaims(ClaimUpTo(ranked, n), ClaimUpTo(ranked', n))
  {
    hide SameCluster, TemporallyCorrelated, Permuted, OrderFor;
    if n > 0 {
      ClaimSame(ranked, ranked', n - 1);
      var b, b' := ranked[n - 1], ranked'[n - 1];
      assert SameBuilt(b, b');
      SurvivorsPermuted(b, b', ClaimUpTo(ranked, n - 1).claimed);
      AdvisorySame(b, b');
    }
  }

  lemma AdvisorySame(b: Built, b': Built)
    requires SameBuilt(b, b')
    ensures SameCluster(Cluster(b.rule, b.members, b.confidence, b.temporal, OrderFor(b.rule, b.members)),
                        Cluster(b'.rule, b'.members, b'.confidence, b'.temporal, OrderFor(b'.rule, b'.members)))
  {
    OrderPermuted(b.rule, b.members, b'.members);
  }

  lemma KindsOfSame(a: seq<Cluster>, b: seq<Cluster>)
    requires SameClusters(a, b)
    ensures ClusteredKinds(a) <= ClusteredKinds(b)
  {
    forall kind | kind in ClusteredKinds(a)
      ensures kind in ClusteredKinds(b)
    {
      var c, e :| c in a && e in c.members && e.agentKind == kind;
      var i :| 0 <= i < |a| && a[i] == c;
      assert SameCluster(a[i], b[i]);
      PermutedMembers(a[i].members, b[i].members, e);
      assert b[i] in b && e in b[i].members;
    }
  }

  lemma SameIsSymmetric(a: seq<Cluster>, b: seq<Cluster>)
    requires SameClusters(a, b)
    ensures SameClusters(b, a)
  {
    forall i | 0 <= i < |b| ensures SameCluster(b[i], a[i]) {
      assert SameCluster(a[i], b[i]);
    }
  }

  lemma {:induction false} KindCounts(s: seq<Evidence>, kind: string)
    ensures multiset(KindList(s))[kind] == |Filter((e: Evidence) => e.agentKind == kind, s)|
  {
    if s != [] {
      KindCounts(s[1..], kind);
      assert KindList(s) == [s[0].agentKind] + KindList(s[1..]);
    }
  }

  lemma KindListPermuted(s: seq<Evidence>, t: seq<Evidence>)
    requires Permuted(s, t)
    ensures Permuted(KindList(s), KindList(t))
  {
    forall kind: string
      ensures multiset(KindList(s))[kind] == multiset(KindList(t))[kind]
    {
      KindCounts(s, kind);
      KindCounts(t, kind);
      FilterPermuted((e: Evidence) => e.agentKind == kind, s, t);
    }
  }

  lemma ClustersPermuted(rules: seq<Rule>, s: seq<Evidence>, t: seq<Evidence>)
    requires Permuted(s, t) && |s| == |t|
    ensures SameClusters(Synthesize(rules, s).clusters, Synthesize(rules, t).clusters)
  {
    hide SameCluster, SameBuilt, Permuted, BuildAll, ClaimUpTo;
    if |s| > 1 {
      var ranked, ranked' := Rank(BuildAll(rules, s)), Rank(BuildAll(rules, t));
      BuildAllPermuted(rules, s, t);
      RankSame(BuildAll(rules, s), BuildAll(rules, t));
      ClaimSame(ranked, ranked', |ranked|);
    }
  }

  /** Reordering the evidence leaves the sequence of reported clusters as it is, and only permutes the
      uncorrelated list. */
  lemma EvidenceOrderDoesNotMatter(rules: seq<Rule>, s: seq<Evidence>, t: seq<Evidence>)
    requires Permuted(s, t)
    ensures SameClusters(Synthesize(rules, s).clusters, Synthesize(rules, t).clusters)
    ensures Permuted(Synthesize(rules, s).uncorrelated, Synthesize(rules, t).uncorrelated)
  {
    PermutedSameLength(s, t);
    ClustersPermuted(rules, s, t);
    KindListPermuted(s, t);
    var a, b := Synthesize(rules, s).clusters, Synthesize(rules, t).clusters;
    KindsOfSame(a, b);
    SameIsSymmetric(a, b);
    KindsOfSame(b, a);
    if |s| > 1 {
      var keepA := (kind: string) => kind !in ClusteredKinds(a);
      var keepB := (kind: string) => kind !in ClusteredKinds(b);
      FilterPermuted(keepA, KindList(s), KindList(t));
      FilterAgrees(keepA, keepB, KindList(t));
    }
  }
}
