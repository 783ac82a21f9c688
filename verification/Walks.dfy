/** Repeating a move. */
module Walks {

  ghost function Iterate<T>(move: T -> T, c: T, moves: nat): T {
    if moves == 0 then c else move(Iterate(move, c, moves - 1))
  }

  lemma {:induction false} IterateSum<T>(move: T -> T, c: T, a: nat, b: nat)
    ensures Iterate(move, c, a + b) == Iterate(move, Iterate(move, c, a), b)
  {
    if b > 0 {
      IterateSum(move, c, a, b - 1);
      assert a + b - 1 == a + (b - 1);
    }
  }

  lemma {:induction false} FixedPointStays<T>(move: T -> T, c: T, more: nat)
    requires move(c) == c
    ensures Iterate(move, c, more) == c
  {
    if more > 0 {
      FixedPointStays(move, c, more - 1);
    }
  }

  /** A walk that stands still after both `m` and `n` moves stands in one place. */
  lemma RestIsUnique<T>(move: T -> T, c: T, m: nat, n: nat)
    requires move(Iterate(move, c, m)) == Iterate(move, c, m)
    requires move(Iterate(move, c, n)) == Iterate(move, c, n)
    ensures Iterate(move, c, m) == Iterate(move, c, n)
  {
    if m <= n {
      IterateSum(move, c, m, n - m);
      FixedPointStays(move, Iterate(move, c, m), n - m);
    } else {
      RestIsUnique(move, c, n, m);
    }
  }
}
