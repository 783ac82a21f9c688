/** The canonical-hypothesis backstop (src/framework/canonical-hypothesis.ts). The sentence table, the
    routing keywords and the whole-word matcher are parameters. */
module Canonical {
  import opened Plans
  import opened Text

  datatype Hypothesis = Hypothesis(
    id: string,
    rank: int,
    summary: string,
    confidence: string,
    hypothesisType: string,
    evidenceRefs: seq<string>,
    missingEvidence: seq<string>,
    competing: seq<string>)

  /** What the backstop looks up: sentences and keywords by scenario, and whether a keyword appears in a text. */
  datatype Vocabulary = Vocabulary(
    sentence: string -> Option<string>,
    keywords: string -> seq<string>,
    appears: (string, string) -> bool)

  // ---- comparing summaries ----

  function FirstWord(s: string): (w: string)
    ensures |w| <= |s|
  {
    if s == "" || IsSpace(s[0]) then "" else [s[0]] + FirstWord(s[1..])
  }

  function Words(s: string): seq<string>
    decreases |s|
  {
    if s == "" then []
    else if IsSpace(s[0]) then Words(s[1..])
    else [FirstWord(s)] + Words(s[|FirstWord(s)|..])
  }

  function Joined(words: seq<string>): string {
    if words == [] then "" else if |words| == 1 then words[0] else words[0] + " " + Joined(words[1..])
  }

  function NormalizeForMatch(s: string): string {
    Joined(Words(Lower(s)))
  }

  // ---- what matching sets aside ----

  predicate Solid(s: string) {
    forall k :: 0 <= k < |s| ==> !IsSpace(s[k])
  }

  lemma {:induction false} FirstWordIs(w: string, rest: string)
    requires Solid(w) && (rest == "" || IsSpace(rest[0]))
    ensures FirstWord(w + rest) == w
  {
    hide IsSpace;
    if w == "" {
      assert w + rest == rest;
    } else {
      assert (w + rest)[1..] == w[1..] + rest;
      FirstWordIs(w[1..], rest);
    }
  }

  lemma WordsFrom(w: string, rest: string)
    requires w != "" && Solid(w) && (rest == "" || IsSpace(rest[0]))
    ensures Words(w + rest) == [w] + Words(rest)
  {
    hide IsSpace;
    FirstWordIs(w, rest);
    assert (w + rest)[|w|..] == rest;
  }

  lemma {:induction false} LeadingBlank(b: string, rest: string)
    requires Blank(b)
    ensures Words(b + rest) == Words(rest)
  {
    hide IsSpace;
    if b == "" {
      assert b + rest == rest;
    } else {
      assert (b + rest)[1..] == b[1..] + rest;
      BlankParts(b, 1);
      LeadingBlank(b[1..], rest);
    }
  }

  lemma FirstWordFrames(s: string) returns (rest: string)
    ensures s == FirstWord(s) + rest && Solid(FirstWord(s)) && (rest == "" || IsSpace(rest[0]))
  {
    hide IsSpace;
    if s == "" || IsSpace(s[0]) {
      rest := s;
      assert s == "" + rest;
    } else {
      rest := FirstWordFrames(s[1..]);
      assert s == [s[0]] + s[1..];
    }
  }

  /** Two texts with white space between them have the words of both. */
  lemma {:induction false} WordsApart(a: string, run: string, b: string)
    requires run != "" && Blank(run)
    ensures Words(a + run + b) == Words(a) + Words(b)
    decreases |a|
  {
    hide IsSpace, Words;
    if a == "" {
      assert a + run + b == run + b;
      LeadingBlank(run, b);
      assert Words("") == [] by { NoWords(); }
    } else if IsSpace(a[0]) {
      WordsApart(a[1..], run, b);
      BlankParts([a[0]], 0);
      LeadingBlank([a[0]], a[1..]);
      LeadingBlank([a[0]], a[1..] + run + b);
      assert [a[0]] + a[1..] == a && [a[0]] + (a[1..] + run + b) == a + run + b;
    } else {
      var w := FirstWord(a);
      var rest := FirstWordFrames(a);
      WordsApart(rest, run, b);
      WordsFrom(w, rest);
      assert run + b == run + b && IsSpace(run[0]);
      assert (rest + run + b)[0] == if rest == "" then run[0] else rest[0];
      WordsFrom(w, rest + run + b);
      assert w + (rest + run + b) == a + run + b;
    }
  }

  lemma NoWords()
    ensures Words("") == []
  {
  }

  /** The list is joined by single spaces. */
  lemma {:induction false} JoinedApart(a: seq<string>, b: seq<string>)
    requires a != [] && b != []
    ensures Joined(a + b) == Joined(a) + " " + Joined(b)
  {
    assert (a + b)[1..] == a[1..] + b;
    if |a| == 1 {
      assert a[1..] + b == b;
    } else {
      JoinedApart(a[1..], b);
      assert a[0] + " " + (Joined(a[1..]) + " " + Joined(b)) == a[0] + " " + Joined(a[1..]) + " " + Joined(b);
    }
  }

  lemma JoinedOne(w: string)
    ensures Joined([w]) == w && Joined([]) == ""
  {
  }

  lemma HasWords(s: string)
    ensures Words(s) != [] <==> !Blank(s)
  {
    hide IsSpace;
    if s != "" && IsSpace(s[0]) {
      BlankParts(s, 1);
      HasWords(s[1..]);
    }
  }

  lemma LowerBlank(s: string)
    ensures Blank(Lower(s)) <==> Blank(s)
  {
    forall k | 0 <= k < |s|
      ensures IsSpace(Lower(s)[k]) <==> IsSpace(s[k])
    {
      LowerKeepsSeparators(s[k]);
    }
    if Blank(Lower(s)) {
      assert forall k :: 0 <= k < |s| ==> IsSpace(Lower(s)[k]);
    }
  }

  /** For matching, texts with white space between them are joined by a single space; a text without any is
      only taken in lower case; and white space alone is nothing. */
  lemma MatchingSqueezes(a: string, run: string, b: string)
    requires run != "" && Blank(run) && !Blank(a) && !Blank(b)
    ensures NormalizeForMatch(a + run + b) == NormalizeForMatch(a) + " " + NormalizeForMatch(b)
    ensures NormalizeForMatch(run + a) == NormalizeForMatch(a) == NormalizeForMatch(a + run)
  {
    hide IsSpace, LowerChar, Words, Joined;
    LowerBlank(run);
    LowerBlank(a);
    LowerBlank(b);
    HasWords(Lower(a));
    HasWords(Lower(b));
    assert Lower(a + run + b) == Lower(a) + Lower(run) + Lower(b);
    assert Lower(run + a) == Lower(run) + Lower(a) && Lower(a + run) == Lower(a) + Lower(run) + "";
    WordsApart(Lower(a), Lower(run), Lower(b));
    WordsApart(Lower(a), Lower(run), "");
    LeadingBlank(Lower(run), Lower(a));
    NoWords();
    JoinedApart(Words(Lower(a)), Words(Lower(b)));
    assert Words(Lower(a)) + [] == Words(Lower(a));
  }

  lemma MatchingKeeps(w: string)
    requires Solid(w)
    ensures NormalizeForMatch(w) == Lower(w)
  {
    hide IsSpace;
    forall k | 0 <= k < |w|
      ensures !IsSpace(Lower(w)[k])
    {
      LowerKeepsSeparators(w[k]);
    }
    if w != "" {
      WordsFrom(Lower(w), "");
      assert Lower(w) + "" == Lower(w);
      JoinedOne(Lower(w));
    }
  }

  predicate Restates(summary: string, canonical: string) {
    Contains(NormalizeForMatch(summary), NormalizeForMatch(canonical))
  }

  predicate ContainCanonical(hypotheses: seq<Hypothesis>, canonical: string) {
    exists i :: 0 <= i < |hypotheses| && Restates(hypotheses[i].summary, canonical)
  }

  function Summaries(hypotheses: seq<Hypothesis>): seq<string> {
    seq(|hypotheses|, i requires 0 <= i < |hypotheses| => hypotheses[i].summary)
  }

  predicate Overlaps(hypotheses: seq<Hypothesis>, scenario: string, words: Vocabulary) {
    var keywords := words.keywords(scenario);
    exists i :: 0 <= i < |keywords| && words.appears(Joined(Summaries(hypotheses)), keywords[i])
  }

  /** Some hypothesis states the sentence; some keyword of the family appears in the summaries. */
  lemma LooksEverywhere(hypotheses: seq<Hypothesis>, canonical: string, scenario: string, words: Vocabulary)
    ensures ContainCanonical(hypotheses, canonical) <==> exists h :: h in hypotheses && Restates(h.summary, canonical)
    ensures Overlaps(hypotheses, scenario, words) <==>
      exists word :: word in words.keywords(scenario) && words.appears(Joined(Summaries(hypotheses)), word)
  {
    hide Restates, Joined;
  }

  // ---- the fresh identifier ----

  /** The k-th identifier tried: the plain one, then numbered from two. */
  function Candidate(scenario: string, k: nat): string {
    if k == 0 then "canonical-" + scenario else "canonical-" + scenario + "-" + Numeral(k + 1)
  }

  lemma CandidatesDiffer(scenario: string, i: nat, j: nat)
    requires Candidate(scenario, i) == Candidate(scenario, j)
    ensures i == j
  {
    var base := "canonical-" + scenario;
    if i > 0 && j > 0 {
      assert Candidate(scenario, i)[|base| + 1..] == Numeral(i + 1);
      assert Candidate(scenario, j)[|base| + 1..] == Numeral(j + 1);
      NumeralInjective(i + 1, j + 1);
    }
  }

  ghost predicate AllTaken(used: set<string>, scenario: string, k: nat) {
    forall j :: 0 <= j < k ==> Candidate(scenario, j) in used
  }

  /** Pigeonhole: a finite set of identifiers holds no more candidates than it has members. */
  lemma {:induction false} TakenAreCounted(used: set<string>, scenario: string, k: nat)
    requires AllTaken(used, scenario, k)
    ensures k <= |used|
  {
    if k > 0 {
      var last := Candidate(scenario, k - 1);
      forall j | 0 <= j < k - 1
        ensures Candidate(scenario, j) in used - {last}
      {
        if Candidate(scenario, j) == last {
          CandidatesDiffer(scenario, j, k - 1);
        }
      }
      TakenAreCounted(used - {last}, scenario, k - 1);
    }
  }

  lemma OneMoreTaken(used: set<string>, scenario: string, k: nat)
    requires AllTaken(used, scenario, k) && Candidate(scenario, k) in used
    ensures AllTaken(used, scenario, k + 1) && k + 1 <= |used|
  {
    TakenAreCounted(used, scenario, k + 1);
  }

  /** The first candidate that is not in use. */
  ghost function FreshIndex(used: set<string>, scenario: string, from: nat): (k: nat)
    requires AllTaken(used, scenario, from)
    ensures from <= k <= |used|
    ensures AllTaken(used, scenario, k) && Candidate(scenario, k) !in used
    decreases |used| + 1 - from
  {
    TakenAreCounted(used, scenario, from);
    if Candidate(scenario, from) in used then
      OneMoreTaken(used, scenario, from);
      FreshIndex(used, scenario, from + 1)
    else from
  }

  lemma FirstFreeIsUnique(used: set<string>, scenario: string, i: nat, j: nat)
    requires AllTaken(used, scenario, i) && Candidate(scenario, i) !in used
    requires AllTaken(used, scenario, j) && Candidate(scenario, j) !in used
    ensures i == j
  {
  }

  function Ids(hypotheses: seq<Hypothesis>): set<string> {
    set i | 0 <= i < |hypotheses| :: hypotheses[i].id
  }

  // ---- the backstop ----

  /** The sentence to add, if there is a reason to add one. */
  function Missing(hypotheses: seq<Hypothesis>, scenarios: seq<string>, abstained: bool, words: Vocabulary): Option<string> {
    if abstained || hypotheses == [] || scenarios == [] || scenarios[0] == "" then None
    else
      var canonical := words.sentence(scenarios[0]);
      if canonical.None? || canonical.value == "" then None
      else if ContainCanonical(hypotheses, canonical.value) || !Overlaps(hypotheses, scenarios[0], words) then None
      else canonical
  }

  /** The hypothesis ranked first, or the first listed when none is. */
  function Primary(hypotheses: seq<Hypothesis>): (h: Hypothesis)
    requires hypotheses != []
    ensures h in hypotheses
    ensures h.rank == 1 || (h == hypotheses[0] && forall i :: 0 <= i < |hypotheses| ==> hypotheses[i].rank != 1)
  {
    var first := FirstRanked(hypotheses);
    if first.Some? then first.value else hypotheses[0]
  }

  function FirstRanked(hypotheses: seq<Hypothesis>): (h: Option<Hypothesis>)
    ensures h.Some? ==> h.value in hypotheses && h.value.rank == 1
    ensures h.None? ==> forall i :: 0 <= i < |hypotheses| ==> hypotheses[i].rank != 1
  {
    if hypotheses == [] then None
    else if hypotheses[0].rank == 1 then Some(hypotheses[0])
    else FirstRanked(hypotheses[1..])
  }

  ghost function Backstop(hypotheses: seq<Hypothesis>, scenarios: seq<string>, abstained: bool, words: Vocabulary): seq<Hypothesis> {
    var canonical := Missing(hypotheses, scenarios, abstained, words);
    if canonical.None? then hypotheses else
      var id := Candidate(scenarios[0], FreshIndex(Ids(hypotheses), scenarios[0], 0));
      hypotheses + [Primary(hypotheses).(id := id, rank := |hypotheses| + 1, summary := canonical.value)]
  }

  /** `applyCanonicalHypothesisBackstop`: the search for an unused identifier ends. */
  method ApplyCanonicalHypothesisBackstop(hypotheses: seq<Hypothesis>, scenarios: seq<string>, abstained: bool, words: Vocabulary)
    returns (r: seq<Hypothesis>)
    ensures r == Backstop(hypotheses, scenarios, abstained, words)
  {
    var canonical := Missing(hypotheses, scenarios, abstained, words);
    if canonical.None? {
      return hypotheses;
    }
    hide Missing, FirstRanked, Numeral, Ids, AllTaken;
    var primary := Primary(hypotheses);
    var used := Ids(hypotheses);
    var id := "canonical-" + scenarios[0];
    var suffix := 2;
    while id in used
      invariant suffix >= 2 && id == Candidate(scenarios[0], suffix - 2)
      invariant AllTaken(used, scenarios[0], suffix - 2)
      decreases |used| + 2 - suffix
    {
      OneMoreTaken(used, scenarios[0], suffix - 2);
      id := "canonical-" + scenarios[0] + "-" + Numeral(suffix);
      suffix := suffix + 1;
    }
    FirstFreeIsUnique(used, scenarios[0], suffix - 2, FreshIndex(used, scenarios[0], 0));
    r := hypotheses + [Hypothesis(id, |hypotheses| + 1, canonical.value, primary.confidence, primary.hypothesisType,
                                  primary.evidenceRefs, primary.missingEvidence, primary.competing)];
  }

  /** The input is kept, at most one hypothesis follows it, and its identifier is new. */
  lemma BackstopAddsAtMostOne(hypotheses: seq<Hypothesis>, scenarios: seq<string>, abstained: bool, words: Vocabulary)
    ensures var r := Backstop(hypotheses, scenarios, abstained, words);
      && hypotheses <= r && |r| <= |hypotheses| + 1
      && forall i, j :: 0 <= i < j < |r| && r[i].id == r[j].id ==> j < |hypotheses|
  {
    var r := Backstop(hypotheses, scenarios, abstained, words);
    forall i, j | 0 <= i < j < |r| && r[i].id == r[j].id
      ensures j < |hypotheses|
    {
      assert hypotheses[i].id in Ids(hypotheses);
    }
  }

  /** For a routed family with a sentence, the result states it exactly when the input already did or
      shared the family's vocabulary. */
  lemma BackstopDecides(hypotheses: seq<Hypothesis>, scenarios: seq<string>, words: Vocabulary)
    requires hypotheses != [] && scenarios != [] && scenarios[0] != ""
    requires words.sentence(scenarios[0]).Some? && words.sentence(scenarios[0]).value != ""
    ensures var canonical := words.sentence(scenarios[0]).value;
      ContainCanonical(Backstop(hypotheses, scenarios, false, words), canonical) <==>
      ContainCanonical(hypotheses, canonical) || Overlaps(hypotheses, scenarios[0], words)
  {
    var canonical := words.sentence(scenarios[0]).value;
    var r := Backstop(hypotheses, scenarios, false, words);
    if Missing(hypotheses, scenarios, false, words).Some? {
      ContainsItself(NormalizeForMatch(canonical));
      assert Restates(r[|hypotheses|].summary, canonical);
    }
  }

  /** The k-th name tried for a family. */
  predicate IsCandidate(id: string, scenario: string, k: nat) {
    id == if k == 0 then "canonical-" + scenario else "canonical-" + scenario + "-" + Numeral(k + 1)
  }

  ghost predicate NameTaken(hypotheses: seq<Hypothesis>, scenario: string, k: nat) {
    exists h :: h in hypotheses && IsCandidate(h.id, scenario, k)
  }

  /** What is added: the sentence, ranked last, under the first name not taken, with everything else as in
      the hypothesis ranked first, or in the first one where none is. */
  lemma WhatIsAdded(hypotheses: seq<Hypothesis>, scenarios: seq<string>, abstained: bool, words: Vocabulary) returns (p: nat, k: nat)
    requires Backstop(hypotheses, scenarios, abstained, words) != hypotheses
    ensures hypotheses != [] && scenarios != [] && words.sentence(scenarios[0]).Some?
    ensures p < |hypotheses| && (forall i :: 0 <= i < p ==> hypotheses[i].rank != 1)
    ensures hypotheses[p].rank == 1 || (p == 0 && forall i :: 0 <= i < |hypotheses| ==> hypotheses[i].rank != 1)
    ensures var r := Backstop(hypotheses, scenarios, abstained, words);
      && r == hypotheses + [r[|hypotheses|]]
      && var added := r[|hypotheses|];
         && added == hypotheses[p].(id := added.id, rank := |hypotheses| + 1, summary := words.sentence(scenarios[0]).value)
         && IsCandidate(added.id, scenarios[0], k)
         && (forall h :: h in hypotheses ==> h.id != added.id)
         && forall j :: 0 <= j < k ==> NameTaken(hypotheses, scenarios[0], j)
  {
    hide ContainCanonical, Overlaps, Numeral;
    var r := Backstop(hypotheses, scenarios, abstained, words);
    k := FreshIndex(Ids(hypotheses), scenarios[0], 0);
    p := FirstPlace(hypotheses);
    var id, sentence := Candidate(scenarios[0], k), words.sentence(scenarios[0]).value;
    assert r == hypotheses + [hypotheses[p].(id := id, rank := |hypotheses| + 1, summary := sentence)];
    forall h | h in hypotheses
      ensures h.id in Ids(hypotheses)
    {
      var i :| 0 <= i < |hypotheses| && hypotheses[i] == h;
    }
    forall j | 0 <= j < k
      ensures NameTaken(hypotheses, scenarios[0], j)
    {
      assert Candidate(scenarios[0], j) in Ids(hypotheses);
      var i :| 0 <= i < |hypotheses| && hypotheses[i].id == Candidate(scenarios[0], j);
      assert hypotheses[i] in hypotheses;
    }
  }

  lemma {:induction false} FirstPlace(hypotheses: seq<Hypothesis>) returns (p: nat)
    requires hypotheses != []
    ensures p < |hypotheses| && Primary(hypotheses) == hypotheses[p] && forall i :: 0 <= i < p ==> hypotheses[i].rank != 1
    ensures hypotheses[p].rank == 1 || (p == 0 && forall i :: 0 <= i < |hypotheses| ==> hypotheses[i].rank != 1)
  {
    p := 0;
    if FirstRanked(hypotheses).Some? {
      p := FirstRankedPlace(hypotheses);
    }
  }

  lemma {:induction false} FirstRankedPlace(hypotheses: seq<Hypothesis>) returns (p: nat)
    requires FirstRanked(hypotheses).Some?
    ensures p < |hypotheses| && FirstRanked(hypotheses) == Some(hypotheses[p]) && hypotheses[p].rank == 1
    ensures forall i :: 0 <= i < p ==> hypotheses[i].rank != 1
  {
    p := 0;
    if hypotheses[0].rank != 1 {
      var q := FirstRankedPlace(hypotheses[1..]);
      p := q + 1;
    }
  }

  /** Something is added exactly when the diagnosis did not abstain, has a hypothesis and a routed family with
      a sentence, no hypothesis states the sentence and some summary uses one of the family's words. */
  lemma BackstopAddsIff(hypotheses: seq<Hypothesis>, scenarios: seq<string>, abstained: bool, words: Vocabulary)
    ensures Backstop(hypotheses, scenarios, abstained, words) != hypotheses <==>
      && !abstained && |hypotheses| > 0 && |scenarios| > 0 && |scenarios[0]| > 0
      && words.sentence(scenarios[0]).Some? && |words.sentence(scenarios[0]).value| > 0
      && !ContainCanonical(hypotheses, words.sentence(scenarios[0]).value)
      && Overlaps(hypotheses, scenarios[0], words)
  {
    hide ContainCanonical, Overlaps;
    assert forall h: Hypothesis :: |hypotheses + [h]| > |hypotheses|;
  }

  /** Applying the backstop to its own result changes nothing. */
  lemma BackstopIsIdempotent(hypotheses: seq<Hypothesis>, scenarios: seq<string>, abstained: bool, words: Vocabulary)
    ensures var r := Backstop(hypotheses, scenarios, abstained, words);
      Backstop(r, scenarios, abstained, words) == r
  {
    if Missing(hypotheses, scenarios, abstained, words).Some? {
      BackstopDecides(hypotheses, scenarios, words);
    }
  }

  /** With `n` numbered identifiers already taken the search tries all of them: the bound is reached. */
  lemma SearchBoundIsReached(scenario: string, n: nat)
    ensures var used := set j | 0 <= j < n :: Candidate(scenario, j);
      |used| == n && FreshIndex(used, scenario, 0) == n
  {
    var used := set j | 0 <= j < n :: Candidate(scenario, j);
    CandidateSetSize(scenario, n);
    TakenAreCounted(used, scenario, n);
    if Candidate(scenario, n) in used {
      var j :| 0 <= j < n && Candidate(scenario, j) == Candidate(scenario, n);
      CandidatesDiffer(scenario, j, n);
    }
    FirstFreeIsUnique(used, scenario, n, FreshIndex(used, scenario, 0));
  }

  lemma {:induction false} CandidateSetSize(scenario: string, n: nat)
    ensures |set j | 0 <= j < n :: Candidate(scenario, j)| <= n
  {
    if n > 0 {
      CandidateSetSize(scenario, n - 1);
      var smaller := set j | 0 <= j < n - 1 :: Candidate(scenario, j);
      assert (set j | 0 <= j < n :: Candidate(scenario, j)) == smaller + {Candidate(scenario, n - 1)};
    }
  }
}
