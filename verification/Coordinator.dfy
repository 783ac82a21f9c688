/** The approval decision (src/framework/coordinator.ts). */
module Coordinator {
  import opened Plans
  import opened Text
  import opened Risk

  predicate ShouldAutoApprove(risk: RiskLevel, trust: TrustLevel, catalogCovered: bool, requireApprovalForAllElevated: bool) {
    if risk == High || risk == Critical then false
    else if risk == Elevated && requireApprovalForAllElevated then false
    else if catalogCovered then true
    else if risk == Elevated then trust == Autopilot || trust == FullAutonomy
    else trust != Observe
  }

  function TrustRank(trust: TrustLevel): (r: nat)
    ensures r <= 3
  {
    match trust
    case Observe => 0
    case Copilot => 1
    case Autopilot => 2
    case FullAutonomy => 3
  }

  /** How many risk levels, counted from routine, need no human. */
  function AutomaticLevels(trust: TrustLevel, catalogCovered: bool, requireApprovalForAllElevated: bool): nat {
    if !catalogCovered && TrustRank(trust) == 0 then 0
    else if (catalogCovered || TrustRank(trust) >= 2) && !requireApprovalForAllElevated then 2
    else 1
  }

  /** The decision is a threshold on risk, and never reaches high. */
  lemma ApprovalIsAThreshold(risk: RiskLevel, trust: TrustLevel, covered: bool, strict: bool)
    ensures ShouldAutoApprove(risk, trust, covered, strict) <==> Rank(risk) < AutomaticLevels(trust, covered, strict)
    ensures AutomaticLevels(trust, covered, strict) <= Rank(High)
  {
  }

  /** What is approved automatically stays so at lower risk, with more trust, with coverage and without
      the policy. */
  lemma ApprovalIsMonotone(risk: RiskLevel, trust: TrustLevel, covered: bool, strict: bool,
                           lower: RiskLevel, more: TrustLevel, coveredToo: bool, stricter: bool)
    requires ShouldAutoApprove(risk, trust, covered, strict)
    requires Rank(lower) <= Rank(risk) && TrustRank(trust) <= TrustRank(more) && (covered ==> coveredToo) && (stricter ==> strict)
    ensures ShouldAutoApprove(lower, more, coveredToo, stricter)
  {
    ApprovalIsAThreshold(risk, trust, covered, strict);
    ApprovalIsAThreshold(lower, more, coveredToo, stricter);
  }

  datatype Decision = Approved | Skip | Rejected

  /** How `requestApproval` reads what was typed. */
  function ParseAnswer(answer: string): Decision {
    var normalized := Folded(answer);
    if normalized == "approve" || normalized == "a" || normalized == "yes" || normalized == "y" then Approved
    else if normalized == "skip" || normalized == "s" then Skip
    else Rejected
  }

  /** What counts as an answer: one of four words for approval and one of two for skipping, up to white space
      at both ends and letter case. */
  ghost predicate SaysApprove(answer: string) {
    Says(answer, "approve") || Says(answer, "a") || Says(answer, "yes") || Says(answer, "y")
  }

  ghost predicate SaysSkip(answer: string) {
    Says(answer, "skip") || Says(answer, "s")
  }

  /** Everything else is a refusal. */
  lemma AnswerIff(answer: string)
    ensures ParseAnswer(answer) == Approved <==> SaysApprove(answer)
    ensures ParseAnswer(answer) == Skip <==> SaysSkip(answer)
    ensures !(SaysApprove(answer) && SaysSkip(answer))
  {
    hide Folded, Says, IsPlain;
    PlainWords();
    SaysIff(answer, "approve");
    SaysIff(answer, "a");
    SaysIff(answer, "yes");
    SaysIff(answer, "y");
    SaysIff(answer, "skip");
    SaysIff(answer, "s");
    assert "approve"[0] != "skip"[0] && "yes"[0] != "skip"[0] && "a"[0] != "s"[0] && "y"[0] != "s"[0];
  }

  lemma PlainWords()
    ensures IsPlain("approve") && IsPlain("a") && IsPlain("yes") && IsPlain("y") && IsPlain("skip") && IsPlain("s")
  {
    hide IsPlain;
    LettersArePlain("approve");
    LettersArePlain("a");
    LettersArePlain("yes");
    LettersArePlain("y");
    LettersArePlain("skip");
    LettersArePlain("s");
  }

  /** The decision strings of `ApprovalResult`. */
  function DecisionText(decision: Decision): string {
    match decision
    case Approved => "approved"
    case Skip => "skipped"
    case Rejected => "rejected"
  }

  /** The text recorded for an answer. */
  ghost function Recorded(answer: string): string {
    if SaysApprove(answer) then "approved" else if SaysSkip(answer) then "skipped" else "rejected"
  }

  lemma RecordedIff(answer: string)
    ensures DecisionText(ParseAnswer(answer)) == Recorded(answer)
  {
    hide SaysApprove, SaysSkip, ParseAnswer;
    AnswerIff(answer);
  }
}
