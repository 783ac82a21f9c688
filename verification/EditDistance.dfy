/** Command suggestions by edit distance (src/cli/args.ts). */
module EditDistance {
  import opened Plans
  import opened Text

  function Min(x: nat, y: nat): nat {
    if x <= y then x else y
  }

  /** The recurrence the rows tabulate, on prefixes. */
  function Dist(a: string, b: string): (d: nat)
    decreases |a| + |b|
  {
    if a == "" then |b|
    else if b == "" then |a|
    else
      var a', b' := a[..|a| - 1], b[..|b| - 1];
      Min(Min(Dist(a', b) + 1, Dist(a, b') + 1), Dist(a', b') + if a[|a| - 1] == b[|b| - 1] then 0 else 1)
  }

  function Step(a: string, b: string): nat
    requires a != "" && b != ""
  {
    if a[|a| - 1] == b[|b| - 1] then 0 else 1
  }

  lemma Unfold(a: string, b: string)
    ensures a == "" ==> Dist(a, b) == |b|
    ensures b == "" ==> Dist(a, b) == |a|
    ensures a != "" && b != "" ==>
      var a', b' := a[..|a| - 1], b[..|b| - 1];
      Dist(a, b) == Min(Min(Dist(a', b) + 1, Dist(a, b') + 1), Dist(a', b') + Step(a, b))
  {
  }

  /** One cell of the table from its three neighbours. */
  lemma Cell(a: string, b: string, i: nat, j: nat)
    requires 1 <= i <= |a| && 1 <= j <= |b|
    ensures Dist(a[..i], b[..j]) ==
      Min(Min(Dist(a[..i - 1], b[..j]) + 1, Dist(a[..i], b[..j - 1]) + 1),
          Dist(a[..i - 1], b[..j - 1]) + if a[i - 1] == b[j - 1] then 0 else 1)
  {
    hide Dist;
    assert a[..i][..i - 1] == a[..i - 1] && b[..j][..j - 1] == b[..j - 1];
    Unfold(a[..i], b[..j]);
  }

  lemma Borders(a: string, b: string)
    ensures forall j :: 0 <= j <= |b| ==> Dist(a[..0], b[..j]) == j
    ensures forall i :: 0 <= i <= |a| ==> Dist(a[..i], b[..0]) == i
  {
  }

  ghost predicate RowOf(row: seq<nat>, a: string, b: string, i: nat, width: nat)
    requires i <= |a| && width <= |b| + 1
  {
    |row| == width && forall j :: 0 <= j < width ==> row[j] == Dist(a[..i], b[..j])
  }

  /** `levenshtein`: the table, row by row. */
  method Levenshtein(a: string, b: string) returns (distance: nat)
    ensures distance == Dist(a, b)
  {
    hide Dist;
    Borders(a, b);
    var rows: seq<seq<nat>> := [seq(|b| + 1, j requires 0 <= j < |b| + 1 => j)];
    for i := 1 to |a| + 1
      invariant |rows| == i
      invariant forall k :: 0 <= k < i ==> RowOf(rows[k], a, b, k, |b| + 1)
    {
      var row: seq<nat> := [i];
      for j := 1 to |b| + 1
        invariant RowOf(row, a, b, i, j)
      {
        Cell(a, b, i, j);
        assert RowOf(rows[i - 1], a, b, i - 1, |b| + 1);
        row := row + [Min(Min(rows[i - 1][j] + 1, row[j - 1] + 1), rows[i - 1][j - 1] + if a[i - 1] == b[j - 1] then 0 else 1)];
      }
      rows := rows + [row];
    }
    assert RowOf(rows[|a|], a, b, |a|, |b| + 1);
    assert a[..|a|] == a && b[..|b|] == b;
    distance := rows[|a|][|b|];
  }

  // ---- what the number means ----

  datatype Edit = Keep | Substitute(c: char) | Insert(c: char) | Delete

  /** Running a script over a word from left to right; `None` when it does not fit the word. */
  function Run(script: seq<Edit>, a: string): Option<string> {
    if script == [] then if a == "" then Some("") else None
    else
      match script[0]
      case Keep => if a == "" then None else Prepend(a[0], Run(script[1..], a[1..]))
      case Substitute(c) => if a == "" then None else Prepend(c, Run(script[1..], a[1..]))
      case Insert(c) => Prepend(c, Run(script[1..], a))
      case Delete => if a == "" then None else Run(script[1..], a[1..])
  }

  function Prepend(c: char, rest: Option<string>): Option<string> {
    if rest.Some? then Some([c] + rest.value) else None
  }

  function Cost(script: seq<Edit>): nat {
    if script == [] then 0 else (if script[0].Keep? then 0 else 1) + Cost(script[1..])
  }

  lemma {:induction false} RunSnoc(script: seq<Edit>, last: Edit, a: string, tail: string, b: string, end: string)
    requires Run(script, a) == Some(b) && Run([last], tail) == Some(end)
    ensures Run(script + [last], a + tail) == Some(b + end)
    ensures Cost(script + [last]) == Cost(script) + Cost([last])
  {
    if script == [] {
      assert script + [last] == [last] && a + tail == tail && b + end == end;
    } else {
      assert (script + [last])[1..] == script[1..] + [last] && (script + [last])[0] == script[0];
      if script[0].Insert? {
        RunSnoc(script[1..], last, a, tail, b[1..], end);
        assert b + end == [b[0]] + (b[1..] + end);
      } else {
        assert (a + tail)[1..] == a[1..] + tail && (a + tail)[0] == a[0];
        if script[0].Delete? {
          RunSnoc(script[1..], last, a[1..], tail, b, end);
        } else {
          RunSnoc(script[1..], last, a[1..], tail, b[1..], end);
          assert b + end == [b[0]] + (b[1..] + end);
        }
      }
    }
  }

  lemma SingleEdits(x: char, y: char)
    ensures Run([Insert(y)], "") == Some([y]) && Cost([Insert(y)]) == 1
    ensures Run([Delete], [x]) == Some("") && Cost([Delete]) == 1
    ensures Run([Keep], [x]) == Some([x]) && Cost([Keep]) == 0
    ensures Run([Substitute(y)], [x]) == Some([y]) && Cost([Substitute(y)]) == 1
  {
    assert [x][1..] == "";
    assert [Insert(y)][1..] == [] && [Delete][1..] == [] && [Keep][1..] == [] && [Substitute(y)][1..] == [];
    assert Run([], "") == Some("");
    assert [x] + "" == [x] && [y] + "" == [y];
  }

  /** A script extended by an edit at the end of both words. */
  lemma ExtendScript(s: seq<Edit>, last: Edit, a: string, tail: string, b: string, end: string, whole: string, goal: string)
    requires Run(s, a) == Some(b) && Run([last], tail) == Some(end)
    requires whole == a + tail && goal == b + end
    ensures Run(s + [last], whole) == Some(goal) && Cost(s + [last]) == Cost(s) + Cost([last])
  {
    RunSnoc(s, last, a, tail, b, end);
  }

  /** Some script turns one word into the other at exactly the distance. */
  lemma {:induction false} OptimalScript(a: string, b: string) returns (script: seq<Edit>)
    ensures Run(script, a) == Some(b) && Cost(script) == Dist(a, b)
    decreases |a| + |b|
  {
    hide Run, Cost, Dist;
    Unfold(a, b);
    if a == "" && b == "" {
      script := [];
      assert Run([], "") == Some("") && Cost([]) == 0 by { EmptyScript(); }
    } else if a == "" || (b != "" && Dist(a, b) == Dist(a, b[..|b| - 1]) + 1) {
      var init, last := b[..|b| - 1], b[|b| - 1];
      Unfold(a, init);
      var s := OptimalScript(a, init);
      SingleEdits(last, last);
      ExtendScript(s, Insert(last), a, "", init, [last], a, b);
      script := s + [Insert(last)];
    } else if b == "" || Dist(a, b) == Dist(a[..|a| - 1], b) + 1 {
      var init, last := a[..|a| - 1], a[|a| - 1];
      Unfold(init, b);
      var s := OptimalScript(init, b);
      SingleEdits(last, last);
      ExtendScript(s, Delete, init, [last], b, "", a, b);
      script := s + [Delete];
    } else {
      var a', x, b', y := a[..|a| - 1], a[|a| - 1], b[..|b| - 1], b[|b| - 1];
      var s := OptimalScript(a', b');
      var last := if x == y then Keep else Substitute(y);
      SingleEdits(x, y);
      ExtendScript(s, last, a', [x], b', [y], a, b);
      script := s + [last];
    }
  }

  lemma EmptyScript()
    ensures Run([], "") == Some("") && Cost([]) == 0
  {
  }

  /** What is left of both words once the last edit of a script is taken off. */
  ghost predicate Peels(script: seq<Edit>, last: Edit, a: string, b: string) {
    match last
    case Insert(_) => b != "" && Run(script, a) == Some(b[..|b| - 1])
    case Delete => a != "" && Run(script, a[..|a| - 1]) == Some(b)
    case Keep => a != "" && b != "" && a[|a| - 1] == b[|b| - 1] && Run(script, a[..|a| - 1]) == Some(b[..|b| - 1])
    case Substitute(_) => a != "" && b != "" && Run(script, a[..|a| - 1]) == Some(b[..|b| - 1])
  }

  lemma PeelOne(last: Edit, a: string, b: string)
    requires Run([last], a) == Some(b)
    ensures Peels([], last, a, b)
  {
    assert [last][1..] == [];
    if last.Insert? {
      assert Run([], a).Some? && b == [last.c] + "";
    }
  }

  lemma {:induction false} RunPeels(script: seq<Edit>, last: Edit, a: string, b: string)
    requires Run(script + [last], a) == Some(b)
    ensures Peels(script, last, a, b)
  {
    if script == [] {
      assert script + [last] == [last];
      PeelOne(last, a, b);
    } else {
      assert (script + [last])[1..] == script[1..] + [last] && (script + [last])[0] == script[0];
      if script[0].Insert? {
        RunPeels(script[1..], last, a, b[1..]);
      } else if script[0].Delete? {
        RunPeels(script[1..], last, a[1..], b);
      } else {
        RunPeels(script[1..], last, a[1..], b[1..]);
      }
      PeelsUnder(script, last, a, b);
    }
  }

  /** Peeling commutes with the first edit. */
  lemma PeelsUnder(script: seq<Edit>, last: Edit, a: string, b: string)
    requires script != []
    requires match script[0]
      case Insert(c) => b != "" && b[0] == c && Peels(script[1..], last, a, b[1..])
      case Delete => a != "" && Peels(script[1..], last, a[1..], b)
      case Keep => a != "" && b != "" && b[0] == a[0] && Peels(script[1..], last, a[1..], b[1..])
      case Substitute(c) => a != "" && b != "" && b[0] == c && Peels(script[1..], last, a[1..], b[1..])
    ensures Peels(script, last, a, b)
  {
    if |a| > 1 {
      assert a[..|a| - 1][1..] == a[1..][..|a[1..]| - 1];
    }
    if |b| > 1 {
      assert b[..|b| - 1] == [b[0]] + b[1..][..|b[1..]| - 1];
    }
    assert b != "" ==> b == [b[0]] + b[1..];
  }

  lemma {:induction false} CostSnoc(script: seq<Edit>, last: Edit)
    ensures Cost(script + [last]) == Cost(script) + if last.Keep? then 0 else 1
  {
    if script == [] {
      assert script + [last] == [last] && [last][1..] == [];
    } else {
      assert (script + [last])[1..] == script[1..] + [last] && (script + [last])[0] == script[0];
      CostSnoc(script[1..], last);
    }
  }

  /** No script is cheaper. */
  lemma {:induction false} NoCheaperScript(script: seq<Edit>, a: string, b: string)
    requires Run(script, a) == Some(b)
    ensures Dist(a, b) <= Cost(script)
    decreases |script|
  {
    if script != [] {
      hide Dist, Run;
      var init, last := script[..|script| - 1], script[|script| - 1];
      assert script == init + [last];
      RunPeels(init, last, a, b);
      CostSnoc(init, last);
      Unfold(a, b);
      if last.Insert? {
        NoCheaperScript(init, a, b[..|b| - 1]);
        Unfold(a, b[..|b| - 1]);
      } else if last.Delete? {
        NoCheaperScript(init, a[..|a| - 1], b);
        Unfold(a[..|a| - 1], b);
      } else {
        NoCheaperScript(init, a[..|a| - 1], b[..|b| - 1]);
      }
    }
  }

  /** The table's corner is the cheapest cost over all edit scripts. */
  lemma DistanceIsMinimumCost(a: string, b: string)
    ensures exists script :: Run(script, a) == Some(b) && Cost(script) == Dist(a, b)
    ensures forall script :: Run(script, a) == Some(b) ==> Dist(a, b) <= Cost(script)
  {
    var s := OptimalScript(a, b);
    forall script | Run(script, a) == Some(b) ensures Dist(a, b) <= Cost(script) {
      NoCheaperScript(script, a, b);
    }
  }

  lemma {:induction false} DistanceToSelf(a: string)
    ensures Dist(a, a) == 0
  {
    if a != "" {
      DistanceToSelf(a[..|a| - 1]);
    }
  }

  lemma {:induction false} ZeroMeansEqual(a: string, b: string)
    requires Dist(a, b) == 0
    ensures a == b
    decreases |a| + |b|
  {
    if a != "" && b != "" {
      ZeroMeansEqual(a[..|a| - 1], b[..|b| - 1]);
      assert a == a[..|a| - 1] + [a[|a| - 1]] && b == b[..|b| - 1] + [b[|b| - 1]];
    }
  }

  lemma {:induction false} Symmetric(a: string, b: string)
    ensures Dist(a, b) == Dist(b, a)
    decreases |a| + |b|
  {
    if a != "" && b != "" {
      Symmetric(a[..|a| - 1], b);
      Symmetric(a, b[..|b| - 1]);
      Symmetric(a[..|a| - 1], b[..|b| - 1]);
    }
  }

  lemma {:induction false} LengthBound(a: string, b: string)
    ensures |a| <= |b| + Dist(a, b)
    decreases |a| + |b|
  {
    if a != "" && b != "" {
      LengthBound(a[..|a| - 1], b);
      LengthBound(a, b[..|b| - 1]);
      LengthBound(a[..|a| - 1], b[..|b| - 1]);
    }
  }

  lemma {:induction false} Triangle(a: string, b: string, c: string)
    ensures Dist(a, c) <= Dist(a, b) + Dist(b, c)
    decreases |a| + |b| + |c|
  {
    if a == "" {
      Symmetric(b, c);
      LengthBound(c, b);
    } else if c == "" {
      LengthBound(a, b);
    } else if b == "" {
      LengthBoundBoth(a, c);
    } else {
      var a', b', c' := a[..|a| - 1], b[..|b| - 1], c[..|c| - 1];
      Triangle(a', b, c);
      Triangle(a, b, c');
      Triangle(a, b', c);
      Triangle(a', b', c);
      Triangle(a, b', c');
      Triangle(a', b', c');
      assert Dist(a, c) <= Dist(a', c) + 1 && Dist(a, c) <= Dist(a, c') + 1;
      assert Dist(a, c) <= Dist(a', c') + if a[|a| - 1] == c[|c| - 1] then 0 else 1;
    }
  }

  lemma {:induction false} LengthBoundBoth(a: string, c: string)
    ensures Dist(a, c) <= |a| + |c|
    decreases |a| + |c|
  {
    if a != "" && c != "" {
      LengthBoundBoth(a[..|a| - 1], c);
    }
  }

  /** The distance is a metric. */
  lemma DistanceIsMetric(a: string, b: string, c: string)
    ensures Dist(a, b) == 0 <==> a == b
    ensures Dist(a, b) == Dist(b, a)
    ensures Dist(a, c) <= Dist(a, b) + Dist(b, c)
  {
    DistanceToSelf(a);
    if Dist(a, b) == 0 {
      ZeroMeansEqual(a, b);
    }
    Symmetric(a, b);
    Triangle(a, b, c);
  }

  // ---- suggestions ----

  ghost predicate FirstNearest(names: seq<string>, token: string, i: nat) {
    && i < |names|
    && (forall j :: 0 <= j < |names| ==> Dist(token, names[i]) <= Dist(token, names[j]))
    && (forall j :: 0 <= j < i ==> Dist(token, names[i]) < Dist(token, names[j]))
  }

  /** `nearestCommand`. A suggestion is made exactly when some command is within three edits of the token
      in lower case, and it is the first of the closest ones. */
  method NearestCommand(names: seq<string>, token: string) returns (suggestion: Option<string>)
    ensures suggestion.Some? <==> exists name :: name in names && Dist(Lower(token), name) <= 3
    ensures suggestion.Some? ==> exists i: nat :: FirstNearest(names, Lower(token), i) && suggestion.value == names[i]
  {
    hide Lower;
    var word := Lower(token);
    var best: Option<string> := None;
    var bestDistance: Option<nat> := None;
    ghost var at := 0;
    for i := 0 to |names|
      invariant bestDistance.None? <==> i == 0
      invariant bestDistance.Some? ==> FirstNearest(names[..i], word, at) && best == Some(names[at])
      invariant bestDistance.Some? ==> bestDistance.value == Dist(word, names[at])
    {
      var distance := Levenshtein(word, names[i]);
      assert names[..i + 1] == names[..i] + [names[i]];
      if bestDistance.None? || distance < bestDistance.value {
        bestDistance := Some(distance);
        best := Some(names[i]);
        at := i;
      }
    }
    assert names[..|names|] == names;
    suggestion := if bestDistance.Some? && bestDistance.value <= 3 then best else None;
  }
}
