/** Folds over sequences used by every aggregation of the dashboard: integer
    and real sums (the `reduce((sum, x) => sum + f(x), 0)` idiom), filtered
    counts (`filter(pred).length`), and the algebra the proofs need about them. */
module Seqs {

  /** Sum of `f` over `s`; exact integer arithmetic. */
  function Sum<T>(s: seq<T>, f: T -> int): int
    decreases |s|
  {
    if |s| == 0 then 0 else f(s[0]) + Sum(s[1..], f)
  }

  /** Sum of `f` over `s`; exact real arithmetic stands in for JS numbers. */
  function SumReal<T>(s: seq<T>, f: T -> real): real
    decreases |s|
  {
    if |s| == 0 then 0.0 else f(s[0]) + SumReal(s[1..], f)
  }

  /** `m` is the arithmetic mean of `f` over `s`: `m` times the length is the sum. */
  ghost predicate IsMeanOf<T>(m: real, s: seq<T>, f: T -> real) {
    m * (|s| as real) == SumReal(s, f)
  }

  /** Arithmetic mean of `f` over a non-empty `s`: the sum divided by the length. */
  function Mean<T>(s: seq<T>, f: T -> real): (m: real)
    requires |s| > 0
    ensures IsMeanOf(m, s, f)
  {
    var n := |s| as real;
    DivideThenScale(SumReal(s, f), n);
    SumReal(s, f) / n
  }

  lemma DivideThenScale(total: real, n: real)
    requires n > 0.0
    ensures (total / n) * n == total
  {
  }

  /** Number of elements of `s` that `keep` accepts: `s.filter(keep).length`. */
  function Count<T>(s: seq<T>, keep: T -> bool): (n: nat)
    ensures n <= |s|
    decreases |s|
  {
    if |s| == 0 then 0 else (if keep(s[0]) then 1 else 0) + Count(s[1..], keep)
  }

  /** No element occurs twice. */
  ghost predicate NoDuplicates<T>(s: seq<T>) {
    forall i, j :: 0 <= i < j < |s| ==> s[i] != s[j]
  }

  lemma {:induction false} SumConcat<T>(a: seq<T>, b: seq<T>, f: T -> int)
    ensures Sum(a + b, f) == Sum(a, f) + Sum(b, f)
    decreases |a|
  {
    if |a| == 0 {
      assert a + b == b;
    } else {
      assert (a + b)[1..] == a[1..] + b;
      SumConcat(a[1..], b, f);
    }
  }

  /** Replacing one element changes the sum by the difference of the two summands. */
  lemma {:induction false} SumUpdate<T>(s: seq<T>, i: nat, x: T, f: T -> int)
    requires i < |s|
    ensures Sum(s[i := x], f) == Sum(s, f) - f(s[i]) + f(x)
    decreases |s|
  {
    if i == 0 {
      assert s[i := x][1..] == s[1..];
    } else {
      assert s[i := x][1..] == s[1..][i - 1 := x];
      SumUpdate(s[1..], i - 1, x, f);
    }
  }

  /** A sum does not depend on the order of its summands. */
  lemma {:induction false} SumPermutation<T>(a: seq<T>, b: seq<T>, f: T -> int)
    requires multiset(a) == multiset(b)
    ensures Sum(a, f) == Sum(b, f)
    decreases |a|
  {
    if |a| == 0 {
      assert |b| == |multiset(b)| == 0;
    } else {
      var x := a[0];
      assert x in multiset(b);
      var i :| 0 <= i < |b| && b[i] == x;
      var rest := b[..i] + b[i + 1..];
      assert b == b[..i] + ([x] + b[i + 1..]);
      assert a == [x] + a[1..];
      assert multiset(b) == multiset(b[..i]) + multiset{x} + multiset(b[i + 1..]);
      assert multiset(rest) == multiset(b[..i]) + multiset(b[i + 1..]);
      assert multiset(a) == multiset{x} + multiset(a[1..]);
      calc {
        multiset(a[1..]);
        multiset(a) - multiset{x};
        multiset(b) - multiset{x};
        multiset(rest);
      }
      SumPermutation(a[1..], rest, f);
      SumConcat(b[..i], [x] + b[i + 1..], f);
      SumConcat([x], b[i + 1..], f);
      SumConcat(b[..i], b[i + 1..], f);
    }
  }

  /** In a sequence without duplicates every value occurs at most once. */
  lemma {:induction false} NoDuplicatesMultiplicity<T>(s: seq<T>, x: T)
    requires NoDuplicates(s)
    ensures multiset(s)[x] <= 1
    decreases |s|
  {
    if |s| > 0 {
      assert s == [s[0]] + s[1..];
      NoDuplicatesMultiplicity(s[1..], x);
      if x == s[0] {
        assert x !in s[1..];
      }
    }
  }

  /** Reordering or dropping elements of a sequence without duplicates
      cannot create one. */
  lemma SubMultisetKeepsNoDuplicates<T>(r: seq<T>, s: seq<T>)
    requires NoDuplicates(s) && multiset(r) <= multiset(s)
    ensures NoDuplicates(r)
  {
    forall i, j | 0 <= i < j < |r|
      ensures r[i] != r[j]
    {
      if r[i] == r[j] {
        var x := r[i];
        assert r == r[..j] + r[j..];
        assert x in r[..j] && x in r[j..];
        assert multiset(r)[x] == multiset(r[..j])[x] + multiset(r[j..])[x];
        NoDuplicatesMultiplicity(s, x);
        assert false;
      }
    }
  }

  /** If every summand lies in [lo, hi], the sum lies in [n * lo, n * hi]. */
  lemma {:induction false} SumRealBounds<T>(s: seq<T>, f: T -> real, lo: real, hi: real)
    requires forall x :: x in s ==> lo <= f(x) <= hi
    ensures (|s| as real) * lo <= SumReal(s, f) <= (|s| as real) * hi
    decreases |s|
  {
    if |s| > 0 {
      assert s[0] in s;
      forall x | x in s[1..]
        ensures lo <= f(x) <= hi
      {
        assert x in s;
      }
      SumRealBounds(s[1..], f, lo, hi);
      var n := |s[1..]| as real;
      var tail := SumReal(s[1..], f);
      assert |s| as real == n + 1.0;
      assert n * lo <= tail <= n * hi;
      assert SumReal(s, f) == f(s[0]) + tail;
      Distribute(n, lo);
      Distribute(n, hi);
    }
  }

  /** The arithmetic mean of values that lie in [lo, hi] lies in [lo, hi]. */
  lemma MeanWithinBounds<T>(s: seq<T>, f: T -> real, lo: real, hi: real)
    requires |s| > 0
    requires forall x :: x in s ==> lo <= f(x) <= hi
    ensures lo <= Mean(s, f) <= hi
  {
    var n := |s| as real;
    SumRealBounds(s, f, lo, hi);
    assert n * lo <= SumReal(s, f) <= n * hi;
    var m := Mean(s, f);
    assert SumReal(s, f) == m * n;
    ScaleCancel(lo, m, n);
    ScaleCancel(m, hi, n);
  }

  lemma Distribute(n: real, c: real)
    ensures (n + 1.0) * c == n * c + c
  {
  }

  lemma ScaleCancel(a: real, b: real, n: real)
    requires n > 0.0 && a * n <= b * n
    ensures a <= b
  {
  }

  /** The summand that turns a count into a sum: one for accepted elements. */
  function Tally<T>(keep: T -> bool): T -> int {
    x => if keep(x) then 1 else 0
  }

  /** A filtered count is the sum of the tallies. */
  lemma {:induction false} CountAsSum<T>(s: seq<T>, keep: T -> bool)
    ensures Count(s, keep) == Sum(s, Tally(keep))
    decreases |s|
  {
    if |s| > 0 {
      CountAsSum(s[1..], keep);
    }
  }

  /** A filtered count does not depend on the order of the elements. */
  lemma CountPermutation<T>(a: seq<T>, b: seq<T>, keep: T -> bool)
    requires multiset(a) == multiset(b)
    ensures Count(a, keep) == Count(b, keep)
  {
    CountAsSum(a, keep);
    CountAsSum(b, keep);
    SumPermutation(a, b, Tally(keep));
  }

  /** Counts under two tests that agree on every element are equal. */
  lemma {:induction false} CountPointwise<T>(s: seq<T>, keep: T -> bool, keep': T -> bool)
    requires forall x :: x in s ==> keep(x) == keep'(x)
    ensures Count(s, keep) == Count(s, keep')
    decreases |s|
  {
    if |s| > 0 {
      assert s[0] in s;
      assert forall x :: x in s[1..] ==> x in s;
      CountPointwise(s[1..], keep, keep');
    }
  }

  /** Three tests that accept every element exactly once split the count
      of `s` into three parts. */
  lemma {:induction false} CountPartition<T>(s: seq<T>, a: T -> bool, b: T -> bool, c: T -> bool)
    requires forall x :: x in s ==> (a(x) && !b(x) && !c(x)) || (!a(x) && b(x) && !c(x)) || (!a(x) && !b(x) && c(x))
    ensures Count(s, a) + Count(s, b) + Count(s, c) == |s|
    decreases |s|
  {
    if |s| > 0 {
      assert s[0] in s;
      assert forall x :: x in s[1..] ==> x in s;
      CountPartition(s[1..], a, b, c);
    }
  }

  /** One step of `Count` taken at position `k` of `s`. */
  lemma {:induction false} CountStep<T>(s: seq<T>, k: nat, keep: T -> bool)
    requires k < |s|
    ensures Count(s[k..], keep) == (if keep(s[k]) then 1 else 0) + Count(s[k + 1..], keep)
  {
    assert s[k..][1..] == s[k + 1..];
  }
}
