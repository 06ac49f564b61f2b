/** Laws that tie the clustering scores to each other, over every truth and every clustering. */
module MetricTheorems {
  import opened Order
  import opened Numbers
  import opened ClusterMetrics

  function Flatten(clusters: seq<seq<string>>): seq<string> {
    if clusters == [] then [] else Flatten(clusters[..|clusters| - 1]) + clusters[|clusters| - 1]
  }

  /** Every member is in exactly one cluster, once. */
  ghost predicate IsClustering(truth: map<string, string>, clusters: seq<seq<string>>) {
    multiset(Flatten(clusters)) == multiset(truth.Keys)
  }

  // ---- B-cubed is 1 exactly when groups are homogeneous ----

  ghost predicate Homogeneous<A, B>(group: map<string, A>, other: map<string, B>) {
    forall x, y | x in group && y in group && x in other && y in other && group[x] == group[y] :: other[x] == other[y]
  }

  lemma ShareBounds<A, B>(group: map<string, A>, other: map<string, B>, m: string)
    requires group.Keys == other.Keys && m in group
    ensures 0.0 <= Share(group, other)(m) <= 1.0
    ensures Share(group, other)(m) == 1.0 <==> Carrying(group, group[m]) <= Carrying(other, other[m])
  {
    var g, o := Carrying(group, group[m]), Carrying(other, other[m]);
    assert m in g;
    assert g * o <= g;
    SubsetSize(g * o, g);
    QuotientAtLeast(|g * o| as real, |g| as real, 1.0);
    QuotientAtLeast(|g * o| as real, |g| as real, 0.0);
    if |g * o| == |g| { assert g * o == g; }
    if g <= o { assert g * o == g; }
  }

  lemma ElementsMembers<T>(s: set<T>)
    ensures forall x :: x in Elements(s) <==> x in s
  {
    forall x ensures x in Elements(s) <==> x in s { assert x in Elements(s) <==> x in multiset(Elements(s)); }
  }

  lemma AllSharesOne<A, B>(group: map<string, A>, other: map<string, B>)
    requires group.Keys == other.Keys
    ensures (forall m | m in group :: Share(group, other)(m) == 1.0) <==> Homogeneous(group, other)
  {
    forall m | m in group
      ensures Share(group, other)(m) == 1.0 <==> Carrying(group, group[m]) <= Carrying(other, other[m])
    {
      ShareBounds(group, other, m);
    }
    if forall m | m in group :: Share(group, other)(m) == 1.0 {
      forall x, y | x in group && y in group && group[x] == group[y] ensures other[x] == other[y] {
        assert y in Carrying(group, group[x]);
      }
    }
  }

  lemma BcubedIsOne<A, B>(truth: map<string, string>, group: map<string, A>, other: map<string, B>)
    requires truth != map[] && group.Keys == truth.Keys && other.Keys == truth.Keys
    ensures Bcubed(truth, group, other) <= 1.0
    ensures Bcubed(truth, group, other) == 1.0 <==> Homogeneous(group, other)
  {
    var ms := Elements(truth.Keys);
    ElementsMembers(truth.Keys);
    forall m | m in ms ensures Share(group, other)(m) <= 1.0 { ShareBounds(group, other, m); }
    assert |ms| == |truth|;
    MeanUnit(ms, Share(group, other));
    AllSharesOne(group, other);
  }

  // ---- no false merges, no splits ----

  lemma PairAt(truth: map<string, string>, ms: seq<string>, x: string, y: string) returns (i: int, j: int)
    requires IsMemberList(truth, ms) && x in truth && y in truth && x != y
    ensures 0 <= i < j < |ms| && ((ms[i] == x && ms[j] == y) || (ms[i] == y && ms[j] == x))
  {
    assert x in SetOf(ms) && y in SetOf(ms);
    var a :| 0 <= a < |ms| && ms[a] == x;
    var b :| 0 <= b < |ms| && ms[b] == y;
    if a < b { i, j := a, b; } else { i, j := b, a; }
  }

  lemma ZeroCell(truth: map<string, string>, predicted: map<string, nat>, ms: seq<string>, actual: bool)
    requires predicted.Keys == truth.Keys && IsMemberList(truth, ms)
    ensures Pairs(ms, Cell(truth, predicted, actual, !actual)) == 0 <==>
      forall x, y | x in truth && y in truth ::
        !((truth[x] == truth[y]) == actual && (predicted[x] == predicted[y]) == !actual)
  {
    var q := Cell(truth, predicted, actual, !actual);
    PairsZero(ms, q);
    if Pairs(ms, q) == 0 {
      forall x, y | x in truth && y in truth
        ensures !((truth[x] == truth[y]) == actual && (predicted[x] == predicted[y]) == !actual)
      {
        if x != y {
          var i, j := PairAt(truth, ms, x, y);
          assert !q(ms[i], ms[j]);
        }
      }
    }
  }

  lemma SmallSet<T>(s: set<T>)
    ensures |s| <= 1 <==> forall a, b | a in s && b in s :: a == b
  {
    if s != {} {
      var a :| a in s;
      assert s == {a} + (s - {a});
      if |s| <= 1 {
        assert |s - {a}| == 0;
      } else {
        assert |s - {a}| > 0;
        var b :| b in s - {a};
      }
    }
  }

  lemma SplitFree(truth: map<string, string>, predicted: map<string, nat>)
    requires predicted.Keys == truth.Keys
    ensures SplitSet(truth, predicted) == {} <==> Homogeneous(truth, predicted)
  {
    if SplitSet(truth, predicted) == {} {
      forall x, y | x in truth && y in truth && truth[x] == truth[y] ensures predicted[x] == predicted[y] {
        assert truth[x] !in SplitSet(truth, predicted);
        SmallSet(Spread(truth, predicted, truth[x]));
        assert predicted[x] in Spread(truth, predicted, truth[x]) && predicted[y] in Spread(truth, predicted, truth[x]);
      }
    }
    if Homogeneous(truth, predicted) {
      forall m | m in truth ensures |Spread(truth, predicted, truth[m])| <= 1 {
        SmallSet(Spread(truth, predicted, truth[m]));
      }
    }
  }

  // ---- purity ----

  lemma {:induction false} FlattenHolds(clusters: seq<seq<string>>, i: nat, m: string)
    requires i < |clusters|
    ensures multiset(clusters[i])[m] <= multiset(Flatten(clusters))[m]
    ensures forall j | i < j < |clusters| ::
      multiset(clusters[i])[m] + multiset(clusters[j])[m] <= multiset(Flatten(clusters))[m]
  {
    var n := |clusters| - 1;
    var init := clusters[..n];
    assert multiset(Flatten(clusters)) == multiset(Flatten(init)) + multiset(clusters[n]);
    if i < n {
      FlattenHolds(init, i, m);
      forall j | i < j < |clusters|
        ensures multiset(clusters[i])[m] + multiset(clusters[j])[m] <= multiset(Flatten(clusters))[m]
      {
        if j < n { assert init[j] == clusters[j]; }
      }
    }
  }

  lemma {:induction false} FlattenMembers(clusters: seq<seq<string>>, m: string)
    ensures m in Flatten(clusters) <==> exists i | 0 <= i < |clusters| :: m in clusters[i]
  {
    if clusters != [] {
      var n := |clusters| - 1;
      FlattenMembers(clusters[..n], m);
      if m in Flatten(clusters) && m !in clusters[n] {
        assert m in Flatten(clusters[..n]);
        var i :| 0 <= i < n && m in clusters[..n][i];
        assert m in clusters[i];
      }
      if i :| 0 <= i < |clusters| && m in clusters[i] {
        if i < n { assert m in clusters[..n][i]; }
      }
    }
  }

  /** In a clustering the label of a member is the index of its one cluster, and a cluster lists its
      members without repetition. */
  lemma ClusterOfLabel(truth: map<string, string>, clusters: seq<seq<string>>, i: nat)
    requires IsClustering(truth, clusters) && i < |clusters|
    ensures Carrying(Labels(clusters), i) == SetOf(clusters[i])
    ensures multiset(clusters[i]) == multiset(SetOf(clusters[i])) && |SetOf(clusters[i])| == |clusters[i]|
    ensures forall m | m in clusters[i] :: m in truth && m in Labels(clusters) && Labels(clusters)[m] == i
  {
    var labels, c := Labels(clusters), clusters[i];
    forall m | m in c ensures m in truth && m in labels && labels[m] == i && multiset(c)[m] == 1 {
      LabelsMeaning(clusters, m);
      FlattenHolds(clusters, i, m);
      assert m in multiset(c);
      assert multiset(truth.Keys)[m] <= 1;
      assert labels[m] >= i;
      assert m in multiset(clusters[labels[m]]);
    }
    forall m | m in Carrying(labels, i) ensures m in SetOf(c) { LabelsMeaning(clusters, m); }
    assert multiset(c) == multiset(SetOf(c));
    assert |multiset(c)| == |c| && |multiset(SetOf(c))| == |SetOf(c)|;
  }

  lemma LabelsCover(truth: map<string, string>, clusters: seq<seq<string>>)
    requires IsClustering(truth, clusters)
    ensures Labels(clusters).Keys == truth.Keys
  {
    forall m ensures m in Labels(clusters) <==> m in truth {
      LabelsMeaning(clusters, m);
      FlattenMembers(clusters, m);
      assert m in Flatten(clusters) <==> m in multiset(Flatten(clusters));
      if m in Labels(clusters) { assert m in clusters[Labels(clusters)[m]]; }
    }
  }

  lemma {:induction false} CountLabelIsSize(truth: map<string, string>, c: seq<string>, t: string)
    requires multiset(c) == multiset(SetOf(c)) && forall m | m in c :: m in truth
    ensures CountLabel(truth, c, t) == |SetOf(c) * Carrying(truth, t)|
  {
    if c != [] {
      var c', x := c[..|c| - 1], c[|c| - 1];
      LastIsNew(c);
      CountLabelIsSize(truth, c', t);
      var a, b := SetOf(c') * Carrying(truth, t), SetOf(c) * Carrying(truth, t);
      if truth[x] == t { assert b == a + {x}; } else { assert b == a; }
    }
  }

  lemma LastIsNew(c: seq<string>)
    requires c != [] && multiset(c) == multiset(SetOf(c))
    ensures var c', x := c[..|c| - 1], c[|c| - 1];
      x !in SetOf(c') && SetOf(c) == SetOf(c') + {x} && multiset(c') == multiset(SetOf(c'))
  {
    var c', x := c[..|c| - 1], c[|c| - 1];
    assert c == c' + [x];
    assert multiset(c) == multiset(c') + multiset{x};
    assert x !in c' by { assert multiset(SetOf(c))[x] == 1; }
    assert SetOf(c) == SetOf(c') + {x};
    forall m ensures multiset(c')[m] == multiset(SetOf(c'))[m] {
      assert multiset(c)[m] == multiset(SetOf(c))[m];
    }
  }

  lemma ClusterShares(truth: map<string, string>, clusters: seq<seq<string>>, i: nat, best: nat)
    requires IsClustering(truth, clusters) && i < |clusters| && IsBest(truth, clusters[i], best)
    ensures Total(clusters[i], Share(Labels(clusters), truth)) <= best as real
  {
    var c, f := clusters[i], Share(Labels(clusters), truth);
    if c != [] {
      forall m | m in c ensures f(m) <= best as real / |c| as real {
        MemberShare(truth, clusters, i, m);
        assert truth[m] in truth.Values;
        QuotientMonotone(CountLabel(truth, c, truth[m]) as real, best as real, |c| as real);
      }
      TotalBounded(c, f, best as real);
    }
  }

  lemma TotalBounded(c: seq<string>, f: string -> real, best: real)
    requires c != [] && forall m | m in c :: f(m) <= best / |c| as real
    ensures Total(c, f) <= best
  {
    var share := best / |c| as real;
    var top := (m: string) => share;
    TotalMonotone(c, f, top);
    TotalConstant(c, top, share);
    ShareTimes(best, |c| as real);
  }

  lemma ShareTimes(x: real, n: real)
    requires n > 0.0
    ensures x / n * n == x
  {
  }

  lemma MemberShare(truth: map<string, string>, clusters: seq<seq<string>>, i: nat, m: string)
    requires IsClustering(truth, clusters) && i < |clusters| && m in clusters[i]
    ensures m in truth
    ensures Share(Labels(clusters), truth)(m) ==
      CountLabel(truth, clusters[i], truth[m]) as real / |clusters[i]| as real
  {
    ClusterOfLabel(truth, clusters, i);
    CountLabelIsSize(truth, clusters[i], truth[m]);
    assert m in SetOf(clusters[i]);
  }

  /** The largest single-campaign part is the whole cluster exactly when the cluster is homogeneous. */
  lemma ClusterBest(truth: map<string, string>, clusters: seq<seq<string>>, i: nat, best: nat)
    requires IsClustering(truth, clusters) && i < |clusters| && IsBest(truth, clusters[i], best)
    ensures best <= |clusters[i]|
    ensures best == |clusters[i]| ==>
      forall x, y | x in clusters[i] && y in clusters[i] :: x in truth && y in truth && truth[x] == truth[y]
  {
    var c := clusters[i];
    ClusterOfLabel(truth, clusters, i);
    var s := SetOf(c);
    var t :| t in truth.Values && CountLabel(truth, c, t) == best;
    CountLabelIsSize(truth, c, t);
    assert s * Carrying(truth, t) <= s;
    SubsetSize(s * Carrying(truth, t), s);
    if best == |c| {
      forall x | x in c ensures x in truth && truth[x] == t {
        assert x in s && x in s * Carrying(truth, t);
      }
    }
  }

  lemma QuotientMonotone(a: real, b: real, n: real)
    requires a <= b && n > 0.0
    ensures a / n <= b / n
  {
    QuotientAtLeast(b, n, a / n);
    assert a / n * n == a;
  }

  lemma {:induction false} FlattenTotal(clusters: seq<seq<string>>, bests: seq<nat>, f: string -> real)
    requires |bests| == |clusters|
    requires forall i | 0 <= i < |clusters| :: Total(clusters[i], f) <= bests[i] as real && bests[i] <= |clusters[i]|
    ensures Total(Flatten(clusters), f) <= Sum(bests) as real
    ensures Sum(bests) <= |Flatten(clusters)|
    ensures Sum(bests) == |Flatten(clusters)| ==> forall i | 0 <= i < |clusters| :: bests[i] == |clusters[i]|
  {
    if clusters != [] {
      var n := |clusters| - 1;
      FlattenTotal(clusters[..n], bests[..n], f);
      TotalConcat(Flatten(clusters[..n]), clusters[n], f);
      if Sum(bests) == |Flatten(clusters)| {
        forall i | 0 <= i < |clusters| ensures bests[i] == |clusters[i]| {
          if i < n { assert bests[i] == bests[..n][i] == |clusters[..n][i]|; }
        }
      }
    }
  }

  lemma ClusteringSize(truth: map<string, string>, clusters: seq<seq<string>>)
    requires IsClustering(truth, clusters)
    ensures |Flatten(clusters)| == |truth|
  {
    assert |multiset(Flatten(clusters))| == |Flatten(clusters)|;
    assert |multiset(truth.Keys)| == |truth.Keys| == |truth|;
  }

  ghost predicate AllHomogeneous(truth: map<string, string>, clusters: seq<seq<string>>) {
    forall i, x, y | 0 <= i < |clusters| && x in clusters[i] && y in clusters[i] ::
      x in truth && y in truth && truth[x] == truth[y]
  }

  lemma HomogeneousClusters(truth: map<string, string>, clusters: seq<seq<string>>)
    requires AllHomogeneous(truth, clusters)
    ensures Homogeneous(Labels(clusters), truth)
  {
    var labels := Labels(clusters);
    forall x, y | x in labels && y in labels && labels[x] == labels[y]
      ensures x in truth && y in truth && truth[x] == truth[y]
    {
      LabelsMeaning(clusters, x);
      LabelsMeaning(clusters, y);
    }
  }

  lemma BestsBounds(truth: map<string, string>, clusters: seq<seq<string>>, bests: seq<nat>)
    requires IsClustering(truth, clusters) && AreBests(truth, clusters, bests)
    ensures Total(Elements(truth.Keys), Share(Labels(clusters), truth)) <= Sum(bests) as real
    ensures Sum(bests) <= |truth|
    ensures Sum(bests) == |truth| ==> forall i | 0 <= i < |clusters| :: bests[i] == |clusters[i]|
  {
    var f := Share(Labels(clusters), truth);
    forall i | 0 <= i < |clusters| ensures Total(clusters[i], f) <= bests[i] as real && bests[i] <= |clusters[i]| {
      ClusterShares(truth, clusters, i, bests[i]);
      ClusterBest(truth, clusters, i, bests[i]);
    }
    FlattenTotal(clusters, bests, f);
    ClusteringSize(truth, clusters);
    TotalPermutation(Elements(truth.Keys), Flatten(clusters), f);
  }

  lemma FullBests(truth: map<string, string>, clusters: seq<seq<string>>, bests: seq<nat>)
    requires IsClustering(truth, clusters) && AreBests(truth, clusters, bests)
    requires forall i | 0 <= i < |clusters| :: bests[i] == |clusters[i]|
    ensures Homogeneous(Labels(clusters), truth)
  {
    forall i, x, y | 0 <= i < |clusters| && x in clusters[i] && y in clusters[i]
      ensures x in truth && y in truth && truth[x] == truth[y]
    {
      ClusterBest(truth, clusters, i, bests[i]);
    }
    HomogeneousClusters(truth, clusters);
  }

  /** B-cubed precision <= purity <= 1, and purity 1 means homogeneous clusters. */
  lemma PurityBounds(truth: map<string, string>, clusters: seq<seq<string>>, r: Report)
    requires IsClustering(truth, clusters) && ReportOf(truth, clusters, r)
    ensures r.bcubedPrecision <= r.purity <= 1.0
    ensures r.purity == 1.0 ==> Homogeneous(Labels(clusters), truth)
  {
    var bests := BestsOf(truth, clusters, r.purity);
    BestsBounds(truth, clusters, bests);
    Fractions(Total(Elements(truth.Keys), Share(Labels(clusters), truth)), Sum(bests) as real, |truth| as real);
    if r.purity == 1.0 { FullBests(truth, clusters, bests); }
  }

  lemma BestsOf(truth: map<string, string>, clusters: seq<seq<string>>, purity: real) returns (bests: seq<nat>)
    requires truth != map[] && HasPurity(truth, clusters, purity)
    ensures AreBests(truth, clusters, bests) && purity == Sum(bests) as real / |truth| as real
  {
    bests :| AreBests(truth, clusters, bests) && purity == Sum(bests) as real / |truth| as real;
  }

  // ---- the laws ----

  /** The confusion counters total n(n-1)/2. No false merge, B-cubed precision 1 and purity 1 are the same
      condition; no missed pair, B-cubed recall 1 and no split campaign are the same condition. */
  lemma ScoresAgree(truth: map<string, string>, clusters: seq<seq<string>>, r: Report)
    requires IsClustering(truth, clusters) && ReportOf(truth, clusters, r)
    ensures r.pairs.tp + r.pairs.fp + r.pairs.fn + r.pairs.tn == Choose2(|truth|)
    ensures r.pairs.fp == 0 <==> r.bcubedPrecision == 1.0
    ensures r.pairs.fp == 0 <==> r.purity == 1.0
    ensures r.pairs.fn == 0 <==> r.bcubedRecall == 1.0
    ensures r.pairs.fn == 0 <==> r.splitCampaigns == 0
    ensures r.bcubedPrecision <= r.purity <= 1.0 && r.bcubedRecall <= 1.0
  {
    PairLaw(truth, clusters, r);
    PrecisionLaw(truth, clusters, r);
    RecallLaw(truth, clusters, r);
    PurityBounds(truth, clusters, r);
  }

  lemma PairLaw(truth: map<string, string>, clusters: seq<seq<string>>, r: Report)
    requires IsClustering(truth, clusters) && ReportOf(truth, clusters, r)
    ensures r.pairs.tp + r.pairs.fp + r.pairs.fn + r.pairs.tn == Choose2(|truth|)
    ensures r.pairs.fp == 0 <==> Homogeneous(Labels(clusters), truth)
    ensures r.pairs.fn == 0 <==> Homogeneous(truth, Labels(clusters))
  {
    LabelsCover(truth, clusters);
    PairTotal(truth, Labels(clusters), r.pairs);
    PairCounts(truth, Labels(clusters), r.pairs);
  }

  lemma PrecisionLaw(truth: map<string, string>, clusters: seq<seq<string>>, r: Report)
    requires IsClustering(truth, clusters) && ReportOf(truth, clusters, r)
    ensures r.bcubedPrecision == 1.0 <==> Homogeneous(Labels(clusters), truth)
  {
    LabelsCover(truth, clusters);
    BcubedIsOne(truth, Labels(clusters), truth);
  }

  lemma RecallLaw(truth: map<string, string>, clusters: seq<seq<string>>, r: Report)
    requires IsClustering(truth, clusters) && ReportOf(truth, clusters, r)
    ensures r.bcubedRecall <= 1.0
    ensures r.bcubedRecall == 1.0 <==> Homogeneous(truth, Labels(clusters))
    ensures r.splitCampaigns == 0 <==> Homogeneous(truth, Labels(clusters))
  {
    LabelsCover(truth, clusters);
    BcubedIsOne(truth, truth, Labels(clusters));
    SplitFree(truth, Labels(clusters));
    assert r.splitCampaigns == 0 <==> SplitSet(truth, Labels(clusters)) == {};
  }

  /** The counters total n(n-1)/2. */
  lemma PairTotal(truth: map<string, string>, labels: map<string, nat>, c: Confusion)
    requires labels.Keys == truth.Keys && HasPairs(truth, labels, c)
    ensures c.tp + c.fp + c.fn + c.tn == Choose2(|truth|)
  {
    var ms :| PairsCounted(truth, labels, ms, c);
    IncreasingSize(ms, truth.Keys);
    assert |ms| == |truth|;
    forall y | y in ms ensures y in truth { assert y in SetOf(ms); }
    ConfusionTotal(ms, truth, labels);
  }

  lemma PairCounts(truth: map<string, string>, labels: map<string, nat>, c: Confusion)
    requires labels.Keys == truth.Keys && HasPairs(truth, labels, c)
    ensures c.fp == 0 <==> Homogeneous(labels, truth)
    ensures c.fn == 0 <==> Homogeneous(truth, labels)
  {
    var ms :| PairsCounted(truth, labels, ms, c);
    ZeroCell(truth, labels, ms, false);
    ZeroCell(truth, labels, ms, true);
    assert c.fp == 0 <==> Pairs(ms, Cell(truth, labels, false, true)) == 0;
    assert c.fn == 0 <==> Pairs(ms, Cell(truth, labels, true, false)) == 0;
  }

  lemma IncreasingSize(ms: seq<string>, s: set<string>)
    requires Increasing(ms, StringLt) && SetOf(ms) == s
    ensures |ms| == |s|
  {
    forall m ensures multiset(ms)[m] == multiset(s)[m] {
      if multiset(ms)[m] >= 2 {
        var a, b := TwiceIn(ms, m);
        assert false;
      }
      assert m in multiset(ms) <==> m in ms;
      assert m in ms <==> m in SetOf(ms);
    }
    assert multiset(ms) == multiset(s);
    assert |multiset(ms)| == |ms| && |multiset(s)| == |s|;
  }

  lemma {:induction false} TwiceIn<T>(s: seq<T>, x: T) returns (a: int, b: int)
    requires multiset(s)[x] >= 2
    ensures 0 <= a < b < |s| && s[a] == x && s[b] == x
  {
    assert s == [s[0]] + s[1..];
    if s[0] == x {
      assert multiset(s[1..])[x] >= 1;
      assert x in s[1..];
      var k :| 0 <= k < |s[1..]| && s[1..][k] == x;
      a, b := 0, k + 1;
    } else {
      var i, j := TwiceIn(s[1..], x);
      a, b := i + 1, j + 1;
    }
  }

  // ---- the coverage check ----

  /** The guard "each session exactly once" compares key sets only. It establishes that exactly when the
      cluster sizes add up to the number of sessions. */
  lemma CoverageGuardExact(truth: map<string, string>, clusters: seq<seq<string>>)
    requires Labels(clusters).Keys == truth.Keys
    ensures IsClustering(truth, clusters) <==> |Flatten(clusters)| == |truth|
  {
    var f := Flatten(clusters);
    assert |multiset(f)| == |f| && |multiset(truth.Keys)| == |truth.Keys| == |truth|;
    forall m ensures m in f <==> m in truth {
      FlattenMembers(clusters, m);
      LabelsMeaning(clusters, m);
    }
    forall m | m in multiset(truth.Keys) ensures multiset(truth.Keys)[m] <= multiset(f)[m] {
      assert m in f;
    }
    assert multiset(truth.Keys) <= multiset(f);
    if |f| == |truth| {
      assert multiset(f) == multiset(truth.Keys) + (multiset(f) - multiset(truth.Keys));
      assert |multiset(f) - multiset(truth.Keys)| == 0;
    }
  }

  /** A clustering that lists its one session twice passes the guard, and its purity is 2 / 1. */
  lemma OverlapDefeatsPurity(truth: map<string, string>, clusters: seq<seq<string>>, bests: seq<nat>)
    requires truth == map["a" := "c"] && clusters == [["a"], ["a"]] && AreBests(truth, clusters, bests)
    ensures Labels(clusters).Keys == truth.Keys
    ensures Sum(bests) == 2 && |truth| == 1
  {
    forall m ensures m in Labels(clusters) <==> m in truth {
      LabelsMeaning(clusters, m);
      assert m in clusters[0] <==> m in truth;
    }
    LoneBest(truth, bests[0]);
    LoneBest(truth, bests[1]);
    SumOfTwo(bests);
  }

  lemma LoneBest(truth: map<string, string>, best: nat)
    requires truth == map["a" := "c"] && IsBest(truth, ["a"], best)
    ensures best == 1
  {
    assert "c" in truth.Values && forall t | t in truth.Values :: t == "c";
    assert CountLabel(truth, ["a"], "c") == 1;
  }

  lemma SumOfTwo(s: seq<nat>)
    requires |s| == 2
    ensures Sum(s) == s[0] + s[1]
  {
    assert s[..1][..0] == [];
    assert Sum(s[..1]) == Sum(s[..1][..0]) + s[..1][0] == s[0];
  }
}
