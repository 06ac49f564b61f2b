/** Sums over sequences, the mean, and the median of the `statistics` module. */
module Numbers {
  import opened Order

  datatype Option<+T> = None | Some(value: T)

  lemma SubsetSize<T>(a: set<T>, b: set<T>)
    requires a <= b
    ensures |a| <= |b|
    ensures |a| == |b| ==> a == b
  {
    assert b == a + (b - a) && |b| == |a| + |b - a|;
    if |a| == |b| { assert b - a == {}; }
  }

  function Total<T>(s: seq<T>, f: T -> real): real {
    if s == [] then 0.0 else f(s[0]) + Total(s[1..], f)
  }

  lemma {:induction false} TotalConcat<T>(a: seq<T>, b: seq<T>, f: T -> real)
    ensures Total(a + b, f) == Total(a, f) + Total(b, f)
  {
    if a == [] {
      assert a + b == b;
    } else {
      assert (a + b)[1..] == a[1..] + b;
      TotalConcat(a[1..], b, f);
    }
  }

  lemma TotalSnoc<T>(a: seq<T>, x: T, f: T -> real)
    ensures Total(a + [x], f) == Total(a, f) + f(x)
  {
    TotalConcat(a, [x], f);
  }

  /** Takes the first element of `a` out of a permutation `b` of `a`. */
  lemma PermutationTail<T>(a: seq<T>, b: seq<T>) returns (l: seq<T>, r: seq<T>)
    requires a != [] && multiset(a) == multiset(b)
    ensures b == l + [a[0]] + r
    ensures multiset(a[1..]) == multiset(l + r)
  {
    assert a[0] in multiset(b);
    var j :| 0 <= j < |b| && b[j] == a[0];
    l, r := b[..j], b[j + 1..];
    TailMultiset(a);
    SplitMultiset(b, j);
  }

  lemma SplitMultiset<T>(b: seq<T>, j: nat)
    requires j < |b|
    ensures b == b[..j] + [b[j]] + b[j + 1..]
    ensures multiset(b[..j] + b[j + 1..]) == multiset(b) - multiset{b[j]}
  {
    assert b == b[..j] + [b[j]] + b[j + 1..];
    assert multiset(b) == multiset(b[..j]) + multiset{b[j]} + multiset(b[j + 1..]);
  }

  lemma {:induction false} TotalPermutation<T>(a: seq<T>, b: seq<T>, f: T -> real)
    requires multiset(a) == multiset(b)
    ensures Total(a, f) == Total(b, f)
  {
    assert |multiset(a)| == |a| && |multiset(b)| == |b|;
    if a != [] {
      var l, r := PermutationTail(a, b);
      TotalPermutation(a[1..], l + r, f);
      TotalConcat(l, r, f);
      TotalConcat(l + [a[0]], r, f);
      TotalSnoc(l, a[0], f);
    }
  }

  lemma {:induction false} TotalMonotone<T>(s: seq<T>, f: T -> real, g: T -> real)
    requires forall x | x in s :: f(x) <= g(x)
    ensures Total(s, f) <= Total(s, g)
    ensures Total(s, f) == Total(s, g) ==> forall x | x in s :: f(x) == g(x)
  {
    if s != [] {
      assert s[0] in s;
      TotalMonotone(s[1..], f, g);
      assert forall x | x in s :: x == s[0] || x in s[1..];
    }
  }

  lemma {:induction false} TotalConstant<T>(s: seq<T>, f: T -> real, k: real)
    requires forall x | x in s :: f(x) == k
    ensures Total(s, f) == k * (|s| as real)
  {
    if s != [] {
      assert s[0] in s;
      TotalConstant(s[1..], f, k);
      assert |s| as real == 1.0 + |s[1..]| as real;
    }
  }

  lemma {:induction false} TotalScaled<T>(s: seq<T>, f: T -> real, g: T -> real, k: real)
    requires forall x | x in s :: g(x) == k * f(x)
    ensures Total(s, g) == k * Total(s, f)
  {
    if s != [] {
      assert s[0] in s;
      TotalScaled(s[1..], f, g, k);
    }
  }

  lemma {:induction false} TotalSum<T>(s: seq<T>, f: T -> real, g: T -> real, h: T -> real)
    requires forall x | x in s :: h(x) == f(x) + g(x)
    ensures Total(s, h) == Total(s, f) + Total(s, g)
  {
    if s != [] {
      assert s[0] in s;
      TotalSum(s[1..], f, g, h);
    }
  }

  lemma {:induction false} TotalSame<T>(s: seq<T>, f: T -> real, g: T -> real)
    requires forall x | x in s :: f(x) == g(x)
    ensures Total(s, f) == Total(s, g)
  {
    if s != [] {
      assert s[0] in s;
      TotalSame(s[1..], f, g);
    }
  }

  /** A total of values of at most 1 reaches the length exactly when every value is 1. */
  lemma {:induction false} TotalUnit<T>(s: seq<T>, f: T -> real)
    requires forall x | x in s :: f(x) <= 1.0
    ensures Total(s, f) <= |s| as real
    ensures Total(s, f) == |s| as real <==> forall x | x in s :: f(x) == 1.0
  {
    if s != [] {
      assert s[0] in s;
      TotalUnit(s[1..], f);
      assert forall x | x in s :: x == s[0] || x in s[1..];
      assert |s| as real == 1.0 + |s[1..]| as real;
    }
  }

  lemma QuotientBack(u: real, s: real)
    requires s > 0.0
    ensures u / s * s == u && (u / s == 0.0 <==> u == 0.0)
  {
  }

  /** `q` is `x` divided by `n`, cross-multiplied. */
  ghost predicate Ratio(q: real, x: real, n: real) { q * n == x }

  /** The same, and 0 when there is nothing to divide by. */
  ghost predicate Average(q: real, x: real, n: real) { Ratio(q, x, n) && (n == 0.0 ==> q == 0.0) }

  lemma QuotientIsRatio(x: real, n: real)
    requires n > 0.0
    ensures Ratio(x / n, x, n)
  {
    QuotientBack(x, n);
  }

  /** Cross-multiplied comparison of quotients. */
  lemma QuotientAtLeast(a: real, n: real, k: real)
    requires n > 0.0
    ensures a / n >= k <==> a >= k * n
    ensures a / n == k <==> a == k * n
  {
    var q := a / n;
    assert q * n == a;
    if q >= k { assert q * n >= k * n; } else { assert q * n < k * n; }
  }

  /** Dividing a <= b <= n by n. */
  lemma Fractions(a: real, b: real, n: real)
    requires a <= b <= n && n > 0.0
    ensures a / n <= b / n <= 1.0
    ensures b / n == 1.0 <==> b == n
  {
    QuotientAtLeast(b, n, a / n);
    QuotientAtLeast(n, n, b / n);
    QuotientAtLeast(n, n, 1.0);
    QuotientAtLeast(b, n, 1.0);
    assert a / n * n == a && b / n * n == b;
  }

  lemma MeanUnit<T>(s: seq<T>, f: T -> real)
    requires s != [] && forall x | x in s :: f(x) <= 1.0
    ensures Total(s, f) / |s| as real <= 1.0
    ensures Total(s, f) / |s| as real == 1.0 <==> forall x | x in s :: f(x) == 1.0
  {
    TotalUnit(s, f);
    Fractions(Total(s, f), Total(s, f), |s| as real);
  }

  // ---- order statistics ----

  function Same(x: real): real { x }

  predicate RealLe(x: real, y: real) { x <= y }

  /** 1 for a score that reaches the bar, as Python counts `score >= bar`. */
  function Hit(bar: real): real -> real { x => if x >= bar then 1.0 else 0.0 }

  function Mean(s: seq<real>): real
    requires s != []
  {
    Total(s, Same) / |s| as real
  }

  function Support(s: seq<real>, bar: real): real
    requires s != []
  {
    Total(s, Hit(bar)) / |s| as real
  }

  /** `statistics.median`. */
  function Median(s: seq<real>): real
    requires s != []
  {
    var d := Sort(s, RealLe);
    var n := |d|;
    if n % 2 == 1 then d[n / 2] else (d[n / 2 - 1] + d[n / 2]) / 2.0
  }

  lemma RealLeIsTotalPreorder()
    ensures TotalPreorder(RealLe)
  {
  }

  /** The three statistics do not depend on the order of the scores. */
  lemma StatisticsPermutation(a: seq<real>, b: seq<real>, bar: real)
    requires a != [] && b != [] && multiset(a) == multiset(b)
    ensures |a| == |b| && Mean(a) == Mean(b) && Support(a, bar) == Support(b, bar) && Median(a) == Median(b)
  {
    assert |a| == |multiset(a)| == |multiset(b)| == |b|;
    TotalPermutation(a, b, Same);
    TotalPermutation(a, b, Hit(bar));
    RealLeIsTotalPreorder();
    SortOfPermutation(a, b, RealLe);
  }

  lemma {:induction false} HitsInTail(d: seq<real>, k: nat, bar: real)
    requires k <= |d| && forall i | k <= i < |d| :: d[i] >= bar
    ensures Total(d, Hit(bar)) >= (|d| - k) as real
    decreases |d|
  {
    if d != [] {
      if k == 0 {
        HitsInTail(d[1..], 0, bar);
      } else {
        HitsInTail(d[1..], k - 1, bar);
      }
    }
  }

  /** A median that reaches the bar forces at least half of the scores to reach it. */
  lemma MedianForcesSupport(s: seq<real>, bar: real)
    requires s != [] && Median(s) >= bar
    ensures Support(s, bar) >= 0.5
  {
    var d := Sort(s, RealLe);
    UpperHalfReaches(s, bar);
    HitsInTail(d, |s| / 2, bar);
    TotalPermutation(s, d, Hit(bar));
    assert 2 * (|s| - |s| / 2) >= |s|;
    QuotientAtLeast(Total(s, Hit(bar)), |s| as real, 0.5);
  }

  lemma UpperHalfReaches(s: seq<real>, bar: real)
    requires s != [] && Median(s) >= bar
    ensures forall i | |s| / 2 <= i < |s| :: Sort(s, RealLe)[i] >= bar
  {
    var d := Sort(s, RealLe);
    var n := |s|;
    RealLeIsTotalPreorder();
    SortSorts(s, RealLe);
    assert n % 2 == 0 ==> RealLe(d[n / 2 - 1], d[n / 2]);
    assert d[n / 2] >= bar;
    forall i | n / 2 <= i < n ensures d[i] >= bar {
      assert i == n / 2 || RealLe(d[n / 2], d[i]);
    }
  }

  // ---- what the median is, by counting ----

  function Less(v: real): real -> real { x => if x < v then 1.0 else 0.0 }

  function NotMore(v: real): real -> real { x => if x <= v then 1.0 else 0.0 }

  /** `v` stands at position `k` when the scores are sorted: at most `k` scores are smaller, more than `k` are not
      larger. */
  ghost predicate Ranks(s: seq<real>, k: int, v: real) {
    Total(s, Less(v)) <= k as real < Total(s, NotMore(v))
  }

  lemma {:induction false} FirstCount(s: seq<real>, k: nat, f: real -> real)
    requires k <= |s| && forall x | x in s :: 0.0 <= f(x) <= 1.0
    ensures (forall i | k <= i < |s| :: f(s[i]) == 0.0) ==> Total(s, f) <= k as real
    ensures (forall i | 0 <= i < k :: f(s[i]) == 1.0) ==> Total(s, f) >= k as real
  {
    if s != [] {
      assert s[0] in s;
      var t := s[1..];
      assert forall i | 0 <= i < |t| :: t[i] == s[i + 1];
      if k == 0 { FirstCount(t, 0, f); } else { FirstCount(t, k - 1, f); }
    }
  }

  lemma SortedRanks(s: seq<real>, k: nat)
    requires k < |s|
    ensures Ranks(s, k, Sort(s, RealLe)[k])
  {
    var d := Sort(s, RealLe);
    RealLeIsTotalPreorder();
    SortSorts(s, RealLe);
    RanksInSorted(d, k);
    TotalPermutation(s, d, Less(d[k]));
    TotalPermutation(s, d, NotMore(d[k]));
  }

  lemma RanksInSorted(d: seq<real>, k: nat)
    requires k < |d| && Sorted(d, RealLe)
    ensures Ranks(d, k, d[k])
  {
    forall i | k <= i < |d| ensures Less(d[k])(d[i]) == 0.0 { assert i == k || RealLe(d[k], d[i]); }
    forall i | 0 <= i < k + 1 ensures NotMore(d[k])(d[i]) == 1.0 { assert i == k || RealLe(d[i], d[k]); }
    FirstCount(d, k, Less(d[k]));
    FirstCount(d, k + 1, NotMore(d[k]));
  }

  /** No two values stand at one position. */
  lemma RanksUnique(s: seq<real>, k: int, v: real, w: real)
    requires Ranks(s, k, v) && Ranks(s, k, w)
    ensures v == w
  {
    TotalMonotone(s, NotMore(v), if v < w then Less(w) else NotMore(v));
    TotalMonotone(s, NotMore(w), if w < v then Less(v) else NotMore(w));
  }

  /** The median is the middle score, or the midpoint of the two middle ones. */
  ghost predicate IsMedian(s: seq<real>, m: real) {
    exists lo, hi :: Middle(s, lo, hi) && m == (lo + hi) / 2.0
  }

  ghost predicate Middle(s: seq<real>, lo: real, hi: real) { Ranks(s, (|s| - 1) / 2, lo) && Ranks(s, |s| / 2, hi) }

  lemma MedianIsMiddle(s: seq<real>, m: real)
    requires s != []
    ensures IsMedian(s, m) <==> m == Median(s)
  {
    var d := Sort(s, RealLe);
    SortedRanks(s, (|s| - 1) / 2);
    SortedRanks(s, |s| / 2);
    assert Median(s) == (d[(|s| - 1) / 2] + d[|s| / 2]) / 2.0;
    assert Middle(s, d[(|s| - 1) / 2], d[|s| / 2]);
    if IsMedian(s, m) {
      var lo, hi :| Middle(s, lo, hi) && m == (lo + hi) / 2.0;
      RanksUnique(s, (|s| - 1) / 2, lo, d[(|s| - 1) / 2]);
      RanksUnique(s, |s| / 2, hi, d[|s| / 2]);
    }
  }

  // ---- counting positions ----

  /** The positions of the elements that satisfy `p`. */
  function Where<T>(s: seq<T>, p: T -> bool): set<int> { set i | 0 <= i < |s| && p(s[i]) }

  lemma WhereSnoc<T>(s: seq<T>, x: T, p: T -> bool)
    ensures |Where(s + [x], p)| == |Where(s, p)| + if p(x) then 1 else 0
  {
    var a, b := Where(s, p), Where(s + [x], p);
    assert forall i | 0 <= i < |s| :: (s + [x])[i] == s[i];
    if p(x) { assert b == a + {|s|}; } else { assert b == a; }
  }

  lemma {:induction false} WhereCons<T>(x: T, s: seq<T>, p: T -> bool)
    ensures |Where([x] + s, p)| == |Where(s, p)| + if p(x) then 1 else 0
  {
    if s == [] {
      assert [x] + s == [] + [x];
      WhereSnoc([], x, p);
    } else {
      var n := |s| - 1;
      assert s == s[..n] + [s[n]] && [x] + s == ([x] + s[..n]) + [s[n]];
      WhereCons(x, s[..n], p);
      WhereSnoc(s[..n], s[n], p);
      WhereSnoc([x] + s[..n], s[n], p);
    }
  }

  lemma WhereTail<T>(s: seq<T>, p: T -> bool)
    requires s != []
    ensures |Where(s, p)| == |Where(s[1..], p)| + if p(s[0]) then 1 else 0
  {
    assert s == [s[0]] + s[1..];
    WhereCons(s[0], s[1..], p);
  }

  lemma WhereNone<T>(p: T -> bool)
    ensures |Where([], p)| == 0
  {
    assert Where([], p) == {};
  }
}
