/** Sequence helpers: order-keeping filters, permutations and the stable sort. */
module Lists {
  /** `Array.prototype.filter`. */
  function Filter<T>(keep: T -> bool, s: seq<T>): (r: seq<T>)
    ensures |r| <= |s|
    ensures forall i :: 0 <= i < |r| ==> keep(r[i])
  {
    if s == [] then []
    else if keep(s[0]) then [s[0]] + Filter(keep, s[1..])
    else Filter(keep, s[1..])
  }

  lemma {:induction false} FilterMembers<T>(keep: T -> bool, s: seq<T>, x: T)
    ensures x in Filter(keep, s) <==> x in s && keep(x)
  {
    if s != [] {
      FilterMembers(keep, s[1..], x);
      assert s == [s[0]] + s[1..];
    }
  }

  lemma {:induction false} FilterAppend<T>(keep: T -> bool, s: seq<T>, t: seq<T>)
    ensures Filter(keep, s + t) == Filter(keep, s) + Filter(keep, t)
  {
    if s == [] {
      assert s + t == t;
    } else {
      assert (s + t)[1..] == s[1..] + t && (s + t)[0] == s[0];
      FilterAppend(keep, s[1..], t);
    }
  }

  /** Two filters in a row keep what their conjunction keeps. */
  lemma {:induction false} FilterTwice<T>(p: T -> bool, q: T -> bool, both: T -> bool, s: seq<T>)
    requires forall x :: x in s ==> both(x) == (p(x) && q(x))
    ensures Filter(q, Filter(p, s)) == Filter(both, s)
  {
    if s != [] {
      assert s[0] in s;
      FilterTwice(p, q, both, s[1..]);
      if p(s[0]) {
        assert Filter(p, s)[1..] == Filter(p, s[1..]);
      }
    }
  }

  /** Filters that agree on the list select the same elements. */
  lemma {:induction false} FilterAgrees<T>(p: T -> bool, q: T -> bool, s: seq<T>)
    requires forall x :: x in s ==> p(x) == q(x)
    ensures Filter(p, s) == Filter(q, s)
  {
    if s != [] {
      assert s[0] in s;
      FilterAgrees(p, q, s[1..]);
    }
  }

  lemma FilterFour<T>(keep: T -> bool, p: T, q: T, r: T, s: T)
    ensures Filter(keep, [p, q, r, s]) == (if keep(p) then [p] else []) + (if keep(q) then [q] else [])
                                        + (if keep(r) then [r] else []) + (if keep(s) then [s] else [])
  {
    FilterOne(keep, p);
    FilterOne(keep, q);
    FilterOne(keep, r);
    FilterOne(keep, s);
    assert [p, q, r, s] == [p] + [q] + [r] + [s];
    FilterAppend(keep, [p] + [q] + [r], [s]);
    FilterAppend(keep, [p] + [q], [r]);
    FilterAppend(keep, [p], [q]);
  }

  lemma FilterOne<T>(keep: T -> bool, x: T)
    ensures Filter(keep, [x]) == if keep(x) then [x] else []
  {
    assert [x][1..] == [];
  }

  lemma FilterAll<T>(keep: T -> bool, s: seq<T>)
    requires forall x :: x in s ==> keep(x)
    ensures Filter(keep, s) == s
  {
    if s != [] {
      assert s[0] in s;
      FilterAll(keep, s[1..]);
    }
  }

  lemma FilterNone<T>(keep: T -> bool, s: seq<T>)
    requires forall x :: x in s ==> !keep(x)
    ensures Filter(keep, s) == []
  {
    if s != [] {
      assert s[0] in s;
      FilterNone(keep, s[1..]);
    }
  }

  /** A filter that shortens nothing keeps everything. */
  lemma {:induction false} FilterKeepsAll<T>(keep: T -> bool, s: seq<T>)
    requires |Filter(keep, s)| == |s|
    ensures Filter(keep, s) == s
  {
    if s != [] {
      FilterKeepsAll(keep, s[1..]);
      assert s == [s[0]] + s[1..];
    }
  }

  lemma {:induction false} TwoKeptIff<T>(keep: T -> bool, s: seq<T>)
    ensures |Filter(keep, s)| >= 1 <==> exists i :: 0 <= i < |s| && keep(s[i])
    ensures |Filter(keep, s)| >= 2 <==> exists i, j :: 0 <= i < j < |s| && keep(s[i]) && keep(s[j])
  {
    if s != [] {
      var rest := s[1..];
      TwoKeptIff(keep, rest);
      if i :| 0 <= i < |rest| && keep(rest[i]) {
        assert keep(s[i + 1]);
      }
      if i, j :| 0 <= i < j < |rest| && keep(rest[i]) && keep(rest[j]) {
        assert keep(s[i + 1]) && keep(s[j + 1]);
      }
      if i :| 0 <= i < |s| && keep(s[i]) {
        assert i > 0 ==> keep(rest[i - 1]);
      }
      if i, j :| 0 <= i < j < |s| && keep(s[i]) && keep(s[j]) {
        assert keep(rest[j - 1]) && (i > 0 ==> keep(rest[i - 1]));
      }
    }
  }

  /** A filter keeps, in order, exactly the places whose elements pass. */
  ghost predicate Places<T(!new)>(keep: T -> bool, s: seq<T>, r: seq<T>, places: seq<nat>) {
    && |places| == |r|
    && (forall i :: 0 <= i < |places| ==> places[i] < |s| && r[i] == s[places[i]] && keep(s[places[i]]))
    && (forall i, j :: 0 <= i < j < |places| ==> places[i] < places[j])
    && (forall p :: 0 <= p < |s| && keep(s[p]) ==> p in places)
  }

  lemma PlacesExtend<T(!new)>(keep: T -> bool, init: seq<T>, last: T, r: seq<T>, places: seq<nat>)
    requires Places(keep, init, r, places)
    ensures keep(last) ==> Places(keep, init + [last], r + [last], places + [|init|])
    ensures !keep(last) ==> Places(keep, init + [last], r, places)
  {
    var s, more := init + [last], places + [|init|];
    forall p | 0 <= p < |s| && keep(s[p])
      ensures p in more && (p < |init| ==> p in places)
    {
      if p < |init| {
        assert keep(init[p]);
        var i :| 0 <= i < |places| && places[i] == p;
        assert more[i] == p;
      } else {
        assert more[|places|] == p;
      }
    }
  }

  lemma {:induction false} FilterPlaces<T(!new)>(keep: T -> bool, s: seq<T>) returns (places: seq<nat>)
    ensures Places(keep, s, Filter(keep, s), places)
  {
    hide Places;
    places := [];
    if s == [] {
      assert Places(keep, s, [], []) by { NoPlaces(keep); }
    } else {
      var init, last := s[..|s| - 1], s[|s| - 1];
      var earlier := FilterPlaces(keep, init);
      assert s == init + [last];
      FilterAppend(keep, init, [last]);
      FilterOne(keep, last);
      PlacesExtend(keep, init, last, Filter(keep, init), earlier);
      assert Filter(keep, init) + [] == Filter(keep, init);
      places := if keep(last) then earlier + [|init|] else earlier;
    }
  }

  lemma NoPlaces<T(!new)>(keep: T -> bool)
    ensures Places(keep, [], [], [])
  {
  }

  ghost predicate Permuted<T>(s: seq<T>, t: seq<T>) {
    multiset(s) == multiset(t)
  }

  lemma {:induction false} FilterCounts<T>(keep: T -> bool, s: seq<T>, x: T)
    ensures multiset(Filter(keep, s))[x] == if keep(x) then multiset(s)[x] else 0
  {
    if s != [] {
      FilterCounts(keep, s[1..], x);
      assert s == [s[0]] + s[1..];
      if keep(s[0]) {
        assert Filter(keep, s) == [s[0]] + Filter(keep, s[1..]);
      }
    }
  }

  /** Filtering keeps permutations permutations. */
  lemma FilterPermuted<T(!new)>(keep: T -> bool, s: seq<T>, t: seq<T>)
    requires Permuted(s, t)
    ensures Permuted(Filter(keep, s), Filter(keep, t))
    ensures |Filter(keep, s)| == |Filter(keep, t)|
  {
    forall x: T
      ensures multiset(Filter(keep, s))[x] == multiset(Filter(keep, t))[x]
    {
      FilterCounts(keep, s, x);
      FilterCounts(keep, t, x);
    }
    PermutedSameLength(Filter(keep, s), Filter(keep, t));
  }

  lemma PermutedSameLength<T>(s: seq<T>, t: seq<T>)
    requires Permuted(s, t)
    ensures |s| == |t|
  {
    assert |multiset(s)| == |s|;
    assert |multiset(t)| == |t|;
  }

  lemma PermutedMembers<T>(s: seq<T>, t: seq<T>, x: T)
    requires Permuted(s, t)
    ensures x in s <==> x in t
  {
    assert x in s <==> x in multiset(s);
    assert x in t <==> x in multiset(t);
  }

  // ---- Array.prototype.sort ----

  /** A new element goes in front of the first one it comes before, and so behind its equals. */
  function InsertBy<T>(before: (T, T) -> bool, sorted: seq<T>, x: T): (r: seq<T>)
    ensures |r| == |sorted| + 1
  {
    if sorted == [] || before(x, sorted[0]) then [x] + sorted else [sorted[0]] + InsertBy(before, sorted[1..], x)
  }

  function SortBy<T>(before: (T, T) -> bool, s: seq<T>): (r: seq<T>)
    ensures |r| == |s|
  {
    if s == [] then [] else InsertBy(before, SortBy(before, s[..|s| - 1]), s[|s| - 1])
  }

  /** `before` decides, for two elements, which way they stand in the order. */
  ghost predicate Decides<T(!new)>(before: (T, T) -> bool, atMost: (T, T) -> bool) {
    && (forall x, y :: before(x, y) ==> atMost(x, y))
    && (forall x, y :: !before(x, y) ==> atMost(y, x))
    && (forall x, y, z :: atMost(x, y) && atMost(y, z) ==> atMost(x, z))
  }

  ghost predicate Ordered<T(!new)>(atMost: (T, T) -> bool, s: seq<T>) {
    forall i, j :: 0 <= i < j < |s| ==> atMost(s[i], s[j])
  }

  lemma {:induction false} InsertByPermutes<T>(before: (T, T) -> bool, sorted: seq<T>, x: T)
    ensures multiset(InsertBy(before, sorted, x)) == multiset(sorted) + multiset{x}
  {
    if sorted != [] && !before(x, sorted[0]) {
      InsertByPermutes(before, sorted[1..], x);
      assert sorted == [sorted[0]] + sorted[1..];
    }
  }

  lemma {:induction false} SortByPermutes<T>(before: (T, T) -> bool, s: seq<T>)
    ensures Permuted(SortBy(before, s), s)
  {
    if s != [] {
      SortByPermutes(before, s[..|s| - 1]);
      InsertByPermutes(before, SortBy(before, s[..|s| - 1]), s[|s| - 1]);
      assert s == s[..|s| - 1] + [s[|s| - 1]];
    }
  }

  lemma PrependOrdered<T(!new)>(atMost: (T, T) -> bool, x: T, s: seq<T>)
    requires Ordered(atMost, s) && forall j :: 0 <= j < |s| ==> atMost(x, s[j])
    ensures Ordered(atMost, [x] + s)
  {
    forall i, j | 0 <= i < j < |s| + 1
      ensures atMost(([x] + s)[i], ([x] + s)[j])
    {
      if i > 0 {
        assert atMost(s[i - 1], s[j - 1]);
      }
    }
  }

  lemma {:induction false} InsertByOrders<T(!new)>(before: (T, T) -> bool, atMost: (T, T) -> bool, sorted: seq<T>, x: T)
    requires Decides(before, atMost) && Ordered(atMost, sorted)
    ensures Ordered(atMost, InsertBy(before, sorted, x))
  {
    if sorted != [] && !before(x, sorted[0]) {
      var rest := InsertBy(before, sorted[1..], x);
      InsertByOrders(before, atMost, sorted[1..], x);
      InsertByPermutes(before, sorted[1..], x);
      forall j | 0 <= j < |rest|
        ensures atMost(sorted[0], rest[j])
      {
        assert rest[j] in multiset(rest);
        assert rest[j] == x || rest[j] in sorted[1..];
      }
      PrependOrdered(atMost, sorted[0], rest);
    } else {
      forall j | 0 <= j < |sorted|
        ensures atMost(x, sorted[j])
      {
        assert j > 0 ==> atMost(sorted[0], sorted[j]);
      }
      PrependOrdered(atMost, x, sorted);
    }
  }

  /** The result is in order and holds the same elements. */
  lemma {:induction false} SortByOrders<T(!new)>(before: (T, T) -> bool, atMost: (T, T) -> bool, s: seq<T>)
    requires Decides(before, atMost)
    ensures Ordered(atMost, SortBy(before, s)) && Permuted(SortBy(before, s), s)
  {
    SortByPermutes(before, s);
    if s != [] {
      SortByOrders(before, atMost, s[..|s| - 1]);
      InsertByOrders(before, atMost, SortBy(before, s[..|s| - 1]), s[|s| - 1]);
    }
  }

  /** What comes before an element comes before everything behind it. */
  ghost predicate Strict<T(!new)>(before: (T, T) -> bool, atMost: (T, T) -> bool) {
    forall x, y, z :: before(x, y) && (y == z || atMost(y, z)) ==> before(x, z)
  }

  ghost predicate Tied<T(!new)>(before: (T, T) -> bool, same: T -> bool) {
    forall x, y :: same(x) && same(y) ==> !before(x, y)
  }

  lemma {:induction false} InsertByIsStable<T(!new)>(before: (T, T) -> bool, atMost: (T, T) -> bool, sorted: seq<T>, x: T, same: T -> bool)
    requires Strict(before, atMost) && Tied(before, same) && Ordered(atMost, sorted)
    ensures Filter(same, InsertBy(before, sorted, x)) == Filter(same, sorted) + if same(x) then [x] else []
  {
    if sorted == [] {
      FilterOne(same, x);
    } else if before(x, sorted[0]) {
      assert ([x] + sorted)[1..] == sorted;
      if same(x) {
        forall y | y in sorted
          ensures !same(y)
        {
          var j :| 0 <= j < |sorted| && sorted[j] == y;
          assert j > 0 ==> atMost(sorted[0], sorted[j]);
        }
        FilterNone(same, sorted);
      }
    } else {
      InsertByIsStable(before, atMost, sorted[1..], x, same);
      assert ([sorted[0]] + InsertBy(before, sorted[1..], x))[1..] == InsertBy(before, sorted[1..], x);
    }
  }

  /** Elements that are tied keep their order. */
  lemma {:induction false} SortByIsStable<T(!new)>(before: (T, T) -> bool, atMost: (T, T) -> bool, s: seq<T>, same: T -> bool)
    requires Decides(before, atMost) && Strict(before, atMost) && Tied(before, same)
    ensures Filter(same, SortBy(before, s)) == Filter(same, s)
  {
    if s != [] {
      var init, last := s[..|s| - 1], s[|s| - 1];
      SortByIsStable(before, atMost, init, same);
      SortByOrders(before, atMost, init);
      InsertByIsStable(before, atMost, SortBy(before, init), last, same);
      assert s == init + [last];
      FilterAppend(same, init, [last]);
      FilterOne(same, last);
    }
  }
}
