/** Result types and finite sums shared by every other module. */
module Basics {

  datatype Option<+T> = None | Some(value: T)

  datatype Result<+T, +E> = Success(value: T) | Failure(error: E)

  lemma PrefixGrows<T>(s: seq<T>, n: nat)
    requires n < |s|
    ensures s[..n + 1] == s[..n] + [s[n]] && s[..n + 1][..n] == s[..n]
  {}

  /** Sum of f over a finite set of keys. */
  ghost function Sum(s: set<nat>, f: nat -> int): int {
    if s == {} then 0 else var x :| x in s; f(x) + Sum(s - {x}, f)
  }

  /** Any element may be taken out of the sum first. */
  lemma {:induction false} SumSplit(s: set<nat>, f: nat -> int, x: nat)
    requires x in s
    ensures Sum(s, f) == f(x) + Sum(s - {x}, f)
    decreases s
  {
    var y :| y in s && Sum(s, f) == f(y) + Sum(s - {y}, f);
    if y != x {
      SumSplit(s - {y}, f, x);
      assert s - {y} - {x} == s - {x} - {y};
      SumSplit(s - {x}, f, y);
    }
  }

  /** Sums only depend on the values at the keys they range over. */
  lemma {:induction false} SumCongruent(s: set<nat>, f: nat -> int, g: nat -> int)
    requires forall x :: x in s ==> f(x) == g(x)
    ensures Sum(s, f) == Sum(s, g)
    decreases s
  {
    if s != {} {
      var x :| x in s;
      SumSplit(s, f, x);
      SumSplit(s, g, x);
      SumCongruent(s - {x}, f, g);
    }
  }

  /** Changing the summand at one key moves the sum by the difference at that key. */
  lemma SumChangesAt(s: set<nat>, f: nat -> int, g: nat -> int, x: nat)
    requires x in s
    requires forall y :: y in s && y != x ==> f(y) == g(y)
    ensures Sum(s, g) - Sum(s, f) == g(x) - f(x)
  {
    SumSplit(s, f, x);
    SumSplit(s, g, x);
    SumCongruent(s - {x}, f, g);
  }

  /** A sum of non-negative terms is at least each of them. */
  lemma {:induction false} SumBoundsTerm(s: set<nat>, f: nat -> int, x: nat)
    requires x in s
    requires forall y :: y in s ==> f(y) >= 0
    ensures 0 <= f(x) <= Sum(s, f)
    decreases s
  {
    SumSplit(s, f, x);
    SumNonNegative(s - {x}, f);
  }

  lemma {:induction false} SumNonNegative(s: set<nat>, f: nat -> int)
    requires forall y :: y in s ==> f(y) >= 0
    ensures Sum(s, f) >= 0
    decreases s
  {
    if s != {} {
      var x :| x in s;
      SumSplit(s, f, x);
      SumNonNegative(s - {x}, f);
    }
  }
}
