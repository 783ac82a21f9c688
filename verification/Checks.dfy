/** Which checks reach the backend, and when a list of preconditions holds (src/framework/check-helpers.ts,
    src/framework/engine.ts). */
module Checks {
  import opened Plans
  import opened Text
  import opened Lists
  import opened Runs

  /** Some character of the text is not white space. */
  predicate HasText(text: Option<string>) {
    text.Some? && exists i :: 0 <= i < |text.value| && !IsSpace(text.value[i])
  }

  /** The check asserts something: it has a statement, or it is of a kind that always does, or it is a
      placeholder or a field check that names an operation. */
  predicate AsksBackend(check: Check) {
    || HasText(check.statement)
    || (check.kind != "expression" && check.kind != "placeholder" && check.kind != "api_field")
    || ((check.kind == "placeholder" || check.kind == "api_field") && HasText(check.operation))
  }

  lemma NoOpIff(check: Check)
    ensures IsNoOpCheck(check) <==> !AsksBackend(check)
  {
    hide IsSpace;
  }

  /** The questions a list of checks puts to the backend, in order, all of them answered as they should. */
  function Passed(issuer: Step, checks: seq<Check>): (events: History)
    ensures forall i :: 0 <= i < |events| ==> events[i].CheckAsked? && events[i].issuer == issuer
  {
    var asking := Filter(AsksBackend, checks);
    seq(|asking|, i requires 0 <= i < |asking| => CheckAsked(issuer, asking[i], Holds))
  }

  lemma PassedJoin(issuer: Step, first: Check, rest: seq<Check>)
    ensures Passed(issuer, [first] + rest) == (if AsksBackend(first) then [CheckAsked(issuer, first, Holds)] else []) + Passed(issuer, rest)
  {
    hide AsksBackend;
    assert ([first] + rest)[1..] == rest;
  }

  /** Every check of the list that asks the backend holds once those before it have. */
  ghost predicate AllHold(w: World, issuer: Step, checks: seq<Check>, h: History) {
    forall i :: 0 <= i < |checks| && AsksBackend(checks[i]) ==> HoldsAt(w, issuer, checks, h, i)
  }

  ghost predicate HoldsAt(w: World, issuer: Step, checks: seq<Check>, h: History, i: nat)
    requires i < |checks|
  {
    w.checks(h + Passed(issuer, checks[..i]), checks[i]) == Holds
  }

  lemma AskIff(w: World, issuer: Step, check: Check, h: History)
    ensures Ask(w, issuer, check, h).reply == (if AsksBackend(check) then w.checks(h, check) else Holds)
    ensures Ask(w, issuer, check, h).history
         == if AsksBackend(check) then h + [CheckAsked(issuer, check, w.checks(h, check))] else h
  {
    NoOpIff(check);
  }

  lemma HoldsLater(w: World, issuer: Step, checks: seq<Check>, h: History, i: nat)
    requires 0 < i < |checks|
    requires AsksBackend(checks[0]) ==> w.checks(h, checks[0]) == Holds
    ensures HoldsAt(w, issuer, checks, h, i) <==> HoldsAt(w, issuer, checks[1..], Ask(w, issuer, checks[0], h).history, i - 1)
  {
    hide AsksBackend, Passed, Ask;
    AskIff(w, issuer, checks[0], h);
    PassedJoin(issuer, checks[0], checks[1..][..i - 1]);
    assert checks[..i] == [checks[0]] + checks[1..][..i - 1];
    var next := Ask(w, issuer, checks[0], h).history;
    assert h + Passed(issuer, checks[..i]) == next + Passed(issuer, checks[1..][..i - 1]);
  }

  /** The loop over a list of checks lets them through exactly when all of them hold, having asked each one
      that asks anything. */
  lemma {:induction false} AskAllIff(w: World, issuer: Step, checks: seq<Check>, h: History)
    ensures var asked := AskAll(w, issuer, checks, h);
      && (asked.reply == Holds <==> AllHold(w, issuer, checks, h))
      && (asked.reply == Holds ==> asked.history == h + Passed(issuer, checks))
  {
    hide AsksBackend, Passed, Ask, HoldsAt;
    if checks == [] {
      assert Passed(issuer, []) == [] by { NothingPassed(issuer); }
    } else {
      var first := Ask(w, issuer, checks[0], h);
      AskIff(w, issuer, checks[0], h);
      FirstHolds(w, issuer, checks, h);
      if first.reply == Holds {
        AskAllIff(w, issuer, checks[1..], first.history);
        forall i | 0 < i < |checks|
          ensures HoldsAt(w, issuer, checks, h, i) <==> HoldsAt(w, issuer, checks[1..], first.history, i - 1)
        {
          HoldsLater(w, issuer, checks, h, i);
        }
        AllHoldTail(w, issuer, checks, h, first.history);
        PassedJoin(issuer, checks[0], checks[1..]);
        assert checks == [checks[0]] + checks[1..];
      }
    }
  }

  lemma NothingPassed(issuer: Step)
    ensures Passed(issuer, []) == []
  {
  }

  lemma FirstHolds(w: World, issuer: Step, checks: seq<Check>, h: History)
    requires checks != []
    ensures HoldsAt(w, issuer, checks, h, 0) <==> w.checks(h, checks[0]) == Holds
  {
    NothingPassed(issuer);
    assert checks[..0] == [] && h + [] == h;
  }

  lemma AllHoldTail(w: World, issuer: Step, checks: seq<Check>, h: History, next: History)
    requires checks != [] && (AsksBackend(checks[0]) ==> HoldsAt(w, issuer, checks, h, 0))
    requires forall i :: 0 < i < |checks| ==> (HoldsAt(w, issuer, checks, h, i) <==> HoldsAt(w, issuer, checks[1..], next, i - 1))
    ensures AllHold(w, issuer, checks, h) <==> AllHold(w, issuer, checks[1..], next)
  {
    hide AsksBackend, HoldsAt;
    assert forall i :: 0 < i < |checks| ==> checks[i] == checks[1..][i - 1];
    if AllHold(w, issuer, checks[1..], next) {
      forall i | 0 <= i < |checks| && AsksBackend(checks[i])
        ensures HoldsAt(w, issuer, checks, h, i)
      {
        if i > 0 {
          assert HoldsAt(w, issuer, checks[1..], next, i - 1);
        }
      }
    }
    if AllHold(w, issuer, checks, h) {
      forall i | 0 <= i < |checks[1..]| && AsksBackend(checks[1..][i])
        ensures HoldsAt(w, issuer, checks[1..], next, i)
      {
        assert HoldsAt(w, issuer, checks, h, i + 1);
      }
    }
  }
}
