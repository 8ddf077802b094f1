/** Ranking by one numeric field, as every page does it:
    `[...xs].sort((a, b) => key(b) - key(a))`, optionally followed by
    `.slice(0, n)`.

    `Array.prototype.sort` is stable (ECMAScript 2019, section 22.1.3.27), and
    the comparator is negative exactly when `key(a) > key(b)`, so the result is
    the unique ordering that is non-increasing by key and keeps equal-key
    elements in their input order. `SortDesc` computes it by insertion;
    `SortedStableUnique` shows that sortedness plus stability pin it down. */
module Ranking {
  import opened Seqs

  /** `s` is non-increasing by `key`. */
  ghost predicate SortedDesc<T>(s: seq<T>, key: T -> real) {
    forall i, j :: 0 <= i < j < |s| ==> key(s[i]) >= key(s[j])
  }

  /** The elements of `s` whose key is `k`, in their order in `s`. */
  function WithKey<T>(s: seq<T>, key: T -> real, k: real): (r: seq<T>)
    ensures forall x :: x in r ==> x in s && key(x) == k
    ensures forall x :: x in s && key(x) == k ==> x in r
    decreases |s|
  {
    if |s| == 0 then []
    else if key(s[0]) == k then [s[0]] + WithKey(s[1..], key, k)
    else WithKey(s[1..], key, k)
  }

  /** `r` keeps, for every key value, the relative order those elements have in `s`. */
  ghost predicate Stable<T>(r: seq<T>, s: seq<T>, key: T -> real) {
    forall k :: WithKey(r, key, k) == WithKey(s, key, k)
  }

  /** Every pair of equal-key elements of `s` is in the order `before`. */
  ghost predicate TiesOrdered<T>(s: seq<T>, key: T -> real, before: (T, T) -> bool) {
    forall i, j :: 0 <= i < j < |s| && key(s[i]) == key(s[j]) ==> before(s[i], s[j])
  }

  /** Every pair of elements of `s` is in the order `before`. */
  ghost predicate Ordered<T>(s: seq<T>, before: (T, T) -> bool) {
    forall i, j :: 0 <= i < j < |s| ==> before(s[i], s[j])
  }

  lemma {:induction false} WithKeyConcat<T>(a: seq<T>, b: seq<T>, key: T -> real, k: real)
    ensures WithKey(a + b, key, k) == WithKey(a, key, k) + WithKey(b, key, k)
    decreases |a|
  {
    if |a| == 0 {
      assert a + b == b;
    } else {
      assert (a + b)[1..] == a[1..] + b;
      WithKeyConcat(a[1..], b, key, k);
    }
  }

  /** Inserts `x` in front of the first element of `t` whose key is not
      larger, so that `x` precedes every element of `t` with an equal key. */
  function Insert<T>(x: T, t: seq<T>, key: T -> real): (r: seq<T>)
    ensures |r| == |t| + 1
    ensures multiset(r) == multiset(t) + multiset{x}
    ensures SortedDesc(t, key) ==> SortedDesc(r, key)
    ensures forall k :: WithKey(r, key, k) == WithKey([x], key, k) + WithKey(t, key, k)
    decreases |t|
  {
    if |t| == 0 || key(t[0]) <= key(x) then
      InsertFront(x, t, key);
      [x] + t
    else
      var r' := Insert(x, t[1..], key);
      InsertBehind(x, t, r', key);
      [t[0]] + r'
  }

  lemma {:induction false} InsertFront<T>(x: T, t: seq<T>, key: T -> real)
    requires |t| == 0 || key(t[0]) <= key(x)
    ensures SortedDesc(t, key) ==> SortedDesc([x] + t, key)
    ensures forall k :: WithKey([x] + t, key, k) == WithKey([x], key, k) + WithKey(t, key, k)
  {
    forall k
      ensures WithKey([x] + t, key, k) == WithKey([x], key, k) + WithKey(t, key, k)
    {
      WithKeyConcat([x], t, key, k);
    }
  }

  lemma InsertBehind<T>(x: T, t: seq<T>, r': seq<T>, key: T -> real)
    requires |t| > 0 && key(t[0]) > key(x)
    requires multiset(r') == multiset(t[1..]) + multiset{x}
    requires SortedDesc(t[1..], key) ==> SortedDesc(r', key)
    requires forall k :: WithKey(r', key, k) == WithKey([x], key, k) + WithKey(t[1..], key, k)
    ensures multiset([t[0]] + r') == multiset(t) + multiset{x}
    ensures SortedDesc(t, key) ==> SortedDesc([t[0]] + r', key)
    ensures forall k :: WithKey([t[0]] + r', key, k) == WithKey([x], key, k) + WithKey(t, key, k)
  {
    assert t == [t[0]] + t[1..];
    if SortedDesc(t, key) {
      InsertBehindSorted(x, t, r', key);
    }
    forall k
      ensures WithKey([t[0]] + r', key, k) == WithKey([x], key, k) + WithKey(t, key, k)
    {
      InsertBehindClass(x, t, r', key, k);
    }
  }

  lemma InsertBehindClass<T>(x: T, t: seq<T>, r': seq<T>, key: T -> real, k: real)
    requires |t| > 0 && key(t[0]) > key(x)
    requires WithKey(r', key, k) == WithKey([x], key, k) + WithKey(t[1..], key, k)
    ensures WithKey([t[0]] + r', key, k) == WithKey([x], key, k) + WithKey(t, key, k)
  {
    WithKeyConcat([t[0]], r', key, k);
    WithKeyConcat([t[0]], t[1..], key, k);
    assert t == [t[0]] + t[1..];
  }

  lemma InsertBehindSorted<T>(x: T, t: seq<T>, r': seq<T>, key: T -> real)
    requires |t| > 0 && key(t[0]) > key(x)
    requires multiset(r') == multiset(t[1..]) + multiset{x}
    requires SortedDesc(r', key)
    requires SortedDesc(t, key)
    ensures SortedDesc([t[0]] + r', key)
  {
    forall j | 0 <= j < |r'|
      ensures key(t[0]) >= key(r'[j])
    {
      assert r'[j] in multiset(r');
      if r'[j] != x {
        assert r'[j] in multiset(t[1..]);
        var i :| 0 <= i < |t[1..]| && t[1..][i] == r'[j];
        assert t[i + 1] == r'[j];
      }
    }
  }

  /** The stable descending sort of `s` by `key`. */
  function SortDesc<T>(s: seq<T>, key: T -> real): (r: seq<T>)
    ensures |r| == |s|
    ensures multiset(r) == multiset(s)
    ensures SortedDesc(r, key)
    ensures Stable(r, s, key)
    decreases |s|
  {
    if |s| == 0 then []
    else
      var t := SortDesc(s[1..], key);
      var r := Insert(s[0], t, key);
      assert s == [s[0]] + s[1..];
      assert forall k :: WithKey(s, key, k) == WithKey([s[0]], key, k) + WithKey(s[1..], key, k) by {
        forall k
          ensures WithKey(s, key, k) == WithKey([s[0]], key, k) + WithKey(s[1..], key, k)
        {
          WithKeyConcat([s[0]], s[1..], key, k);
        }
      }
      r
  }

  /** The first element of a non-empty sequence belongs to its own key class. */
  lemma {:induction false} WithKeyHead<T>(s: seq<T>, key: T -> real)
    requires |s| > 0
    ensures WithKey(s, key, key(s[0])) == [s[0]] + WithKey(s[1..], key, key(s[0]))
  {
  }

  /** Dropping the head removes it from its key class and leaves the others alone. */
  lemma {:induction false} WithKeyTail<T>(s: seq<T>, key: T -> real, k: real)
    requires |s| > 0
    ensures WithKey(s[1..], key, k) == if key(s[0]) == k then WithKey(s, key, k)[1..] else WithKey(s, key, k)
  {
  }

  /** Sorted sequences with the same key classes start with the same key. */
  lemma SameClassesSameTopKey<T>(a: seq<T>, b: seq<T>, key: T -> real)
    requires |a| > 0 && |b| > 0
    requires SortedDesc(a, key) && SortedDesc(b, key)
    requires forall k :: WithKey(a, key, k) == WithKey(b, key, k)
    ensures key(a[0]) == key(b[0])
  {
    var ka, kb := key(a[0]), key(b[0]);
    WithKeyHead(a, key);
    WithKeyHead(b, key);
    assert a[0] in WithKey(b, key, ka);
    assert b[0] in WithKey(a, key, kb);
    var i :| 0 <= i < |b| && b[i] == a[0];
    var j :| 0 <= j < |a| && a[j] == b[0];
    assert ka <= kb && kb <= ka;
  }

  /** Two sequences that are both sorted by `key` and agree on the order of
      every key class are equal. */
  lemma {:induction false} SortedStableUnique<T>(a: seq<T>, b: seq<T>, key: T -> real)
    requires SortedDesc(a, key) && SortedDesc(b, key)
    requires forall k :: WithKey(a, key, k) == WithKey(b, key, k)
    ensures a == b
    decreases |a|
  {
    if |a| == 0 {
      NoClassesEmpty(a, b, key);
    } else if |b| == 0 {
      NoClassesEmpty(b, a, key);
    } else {
      SameClassesSameHead(a, b, key);
      SortedStableUnique(a[1..], b[1..], key);
      assert a == [a[0]] + a[1..] && b == [b[0]] + b[1..];
    }
  }

  /** Only the empty sequence has the key classes of the empty sequence. */
  lemma NoClassesEmpty<T>(a: seq<T>, b: seq<T>, key: T -> real)
    requires |a| == 0
    requires forall k :: WithKey(a, key, k) == WithKey(b, key, k)
    ensures |b| == 0
  {
    if |b| > 0 {
      WithKeyHead(b, key);
      assert false;
    }
  }

  /** Sorted sequences with the same key classes share their head and the classes of their tails. */
  lemma SameClassesSameHead<T>(a: seq<T>, b: seq<T>, key: T -> real)
    requires |a| > 0 && |b| > 0
    requires SortedDesc(a, key) && SortedDesc(b, key)
    requires forall k :: WithKey(a, key, k) == WithKey(b, key, k)
    ensures a[0] == b[0]
    ensures SortedDesc(a[1..], key) && SortedDesc(b[1..], key)
    ensures forall k :: WithKey(a[1..], key, k) == WithKey(b[1..], key, k)
  {
    SameClassesSameTopKey(a, b, key);
    var k0 := key(a[0]);
    WithKeyHead(a, key);
    WithKeyHead(b, key);
    assert a[0] == WithKey(a, key, k0)[0] == WithKey(b, key, k0)[0] == b[0];
    forall k
      ensures WithKey(a[1..], key, k) == WithKey(b[1..], key, k)
    {
      WithKeyTail(a, key, k);
      WithKeyTail(b, key, k);
    }
  }

  /** Sortedness and stability characterise the stable sort exactly. */
  lemma SortDescCharacterized<T>(r: seq<T>, s: seq<T>, key: T -> real)
    ensures r == SortDesc(s, key) <==> SortedDesc(r, key) && Stable(r, s, key)
  {
    if SortedDesc(r, key) && Stable(r, s, key) {
      SortedStableUnique(r, SortDesc(s, key), key);
    }
  }

  /** If equal-key elements of `s` are in the order `before`, so is every key class. */
  lemma {:induction false} TiesOrderedClasses<T>(s: seq<T>, key: T -> real, before: (T, T) -> bool, k: real)
    requires TiesOrdered(s, key, before)
    ensures Ordered(WithKey(s, key, k), before)
    decreases |s|
  {
    if |s| > 0 {
      assert TiesOrdered(s[1..], key, before) by {
        forall i, j | 0 <= i < j < |s[1..]| && key(s[1..][i]) == key(s[1..][j])
          ensures before(s[1..][i], s[1..][j])
        {
          assert s[1..][i] == s[i + 1] && s[1..][j] == s[j + 1];
        }
      }
      TiesOrderedClasses(s[1..], key, before, k);
      if key(s[0]) == k {
        var w := WithKey(s[1..], key, k);
        forall b | 0 <= b < |w|
          ensures before(s[0], w[b])
        {
          assert w[b] in s[1..];
          var j :| 0 <= j < |s[1..]| && s[1..][j] == w[b];
          assert s[j + 1] == w[b];
        }
      }
    }
  }

  /** If every key class of `r` is in the order `before`, so are its equal-key pairs. */
  lemma {:induction false} ClassesOrderTies<T>(r: seq<T>, key: T -> real, before: (T, T) -> bool)
    requires forall k :: Ordered(WithKey(r, key, k), before)
    ensures TiesOrdered(r, key, before)
    decreases |r|
  {
    if |r| > 0 {
      forall k
        ensures Ordered(WithKey(r[1..], key, k), before)
      {
        var w := WithKey(r, key, k);
        assert Ordered(w, before);
        if key(r[0]) == k {
          assert WithKey(r[1..], key, k) == w[1..];
        }
      }
      ClassesOrderTies(r[1..], key, before);
      forall i, j | 0 <= i < j < |r| && key(r[i]) == key(r[j])
        ensures before(r[i], r[j])
      {
        if i == 0 {
          var k := key(r[0]);
          var w' := WithKey(r[1..], key, k);
          assert r[j] in r[1..];
          assert r[j] in w';
          var b :| 0 <= b < |w'| && w'[b] == r[j];
          assert WithKey(r, key, k)[0] == r[0] && WithKey(r, key, k)[b + 1] == r[j];
        } else {
          assert r[1..][i - 1] == r[i] && r[1..][j - 1] == r[j];
        }
      }
    }
  }

  /** A stable reordering keeps every order among equal-key elements. */
  lemma StableKeepsTieOrder<T>(r: seq<T>, s: seq<T>, key: T -> real, before: (T, T) -> bool)
    requires Stable(r, s, key)
    requires TiesOrdered(s, key, before)
    ensures TiesOrdered(r, key, before)
  {
    forall k
      ensures Ordered(WithKey(r, key, k), before)
    {
      TiesOrderedClasses(s, key, before, k);
    }
    ClassesOrderTies(r, key, before);
  }

  /** The first `n` elements of the stable descending sort:
      `[...s].sort((a, b) => key(b) - key(a)).slice(0, n)`. */
  function TopN<T>(s: seq<T>, key: T -> real, n: nat): (r: seq<T>)
    ensures |r| == if n <= |s| then n else |s|
    ensures r <= SortDesc(s, key)
    ensures SortedDesc(r, key)
    ensures multiset(r) <= multiset(s)
    ensures forall x, y :: x in r && y in multiset(s) - multiset(r) ==> key(y) <= key(x)
  {
    var sorted := SortDesc(s, key);
    var m := if n <= |s| then n else |s|;
    var r := sorted[..m];
    TopNDominates(sorted, s, m, key);
    r
  }

  lemma TopNDominates<T>(sorted: seq<T>, s: seq<T>, m: nat, key: T -> real)
    requires m <= |sorted|
    requires SortedDesc(sorted, key) && multiset(sorted) == multiset(s)
    ensures multiset(sorted[..m]) <= multiset(s)
    ensures forall x, y :: x in sorted[..m] && y in multiset(s) - multiset(sorted[..m]) ==> key(y) <= key(x)
  {
    assert sorted == sorted[..m] + sorted[m..];
    assert multiset(s) == multiset(sorted[..m]) + multiset(sorted[m..]);
    assert multiset(s) - multiset(sorted[..m]) == multiset(sorted[m..]);
    forall x, y | x in sorted[..m] && y in multiset(s) - multiset(sorted[..m])
      ensures key(y) <= key(x)
    {
      var i :| 0 <= i < m && sorted[..m][i] == x;
      assert y in sorted[m..];
      var j :| 0 <= j < |sorted[m..]| && sorted[m..][j] == y;
      assert sorted[i] == x && sorted[m + j] == y;
    }
  }

  /** A top-N list draws its elements from the input, and repeats none when
      the input repeats none. */
  lemma TopNFromInput<T>(s: seq<T>, key: T -> real, n: nat)
    ensures forall x :: x in TopN(s, key, n) ==> x in s
    ensures NoDuplicates(s) ==> NoDuplicates(TopN(s, key, n))
  {
    var r := TopN(s, key, n);
    forall x | x in r
      ensures x in s
    {
      assert x in multiset(r);
    }
    if NoDuplicates(s) {
      SubMultisetKeepsNoDuplicates(r, s);
    }
  }

  /** Index `i` holds a maximal key of `s`, and no earlier element reaches it. */
  ghost predicate IsFirstMax<T>(s: seq<T>, key: T -> real, i: int) {
    && 0 <= i < |s|
    && (forall j :: 0 <= j < |s| ==> key(s[j]) <= key(s[i]))
    && (forall j :: 0 <= j < i ==> key(s[j]) < key(s[i]))
  }

  /** The position of the first element with the largest key. */
  function FirstMaxIndex<T>(s: seq<T>, key: T -> real): (i: nat)
    requires |s| > 0
    ensures IsFirstMax(s, key, i)
    decreases |s|
  {
    if |s| == 1 then 0
    else
      var j := 1 + FirstMaxIndex(s[1..], key);
      if key(s[j]) <= key(s[0]) then 0 else j
  }

  /** At most one index is the first maximum. */
  lemma FirstMaxUnique<T>(s: seq<T>, key: T -> real, i: int, j: int)
    requires IsFirstMax(s, key, i) && IsFirstMax(s, key, j)
    ensures i == j
  {
    assert key(s[i]) <= key(s[j]) && key(s[j]) <= key(s[i]);
  }

  /** The head of the stable descending sort is the first element with the largest key. */
  lemma {:induction false} SortHeadIsFirstMax<T>(s: seq<T>, key: T -> real)
    requires |s| > 0
    ensures SortDesc(s, key)[0] == s[FirstMaxIndex(s, key)]
    decreases |s|
  {
    if |s| > 1 {
      SortHeadIsFirstMax(s[1..], key);
    }
  }
}
