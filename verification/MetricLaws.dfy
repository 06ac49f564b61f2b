/** What the clustering report counts, in terms of the truth and the clusters alone. */
module MetricLaws {
  import opened Order
  import opened Numbers
  import opened ClusterMetrics
  import opened MetricTheorems

  // ---- labels and groups ----

  /** The last cluster that holds one of the two holds the other too, and none after it does. */
  ghost predicate SameCluster(clusters: seq<seq<string>>, x: string, y: string) {
    exists i :: LastIn(clusters, x, i) && LastIn(clusters, y, i)
  }

  ghost predicate LastIn(clusters: seq<seq<string>>, m: string, i: int) {
    0 <= i < |clusters| && m in clusters[i] && forall j | i < j < |clusters| :: m !in clusters[j]
  }

  lemma LabelsShareClusters(clusters: seq<seq<string>>, x: string, y: string)
    requires x in Labels(clusters) && y in Labels(clusters)
    ensures Labels(clusters)[x] == Labels(clusters)[y] <==> SameCluster(clusters, x, y)
  {
    LabelsMeaning(clusters, x);
    LabelsMeaning(clusters, y);
    assert LastIn(clusters, x, Labels(clusters)[x]) && LastIn(clusters, y, Labels(clusters)[y]);
  }

  /** The sessions in the cluster of `m`. */
  ghost function Together(truth: map<string, string>, clusters: seq<seq<string>>, m: string): set<string> {
    set x | x in truth && SameCluster(clusters, x, m)
  }

  /** The sessions in the campaign of `m`. */
  ghost function Campaign(truth: map<string, string>, m: string): set<string>
    requires m in truth
  {
    set x | x in truth && truth[x] == truth[m]
  }

  lemma CarryingIsTogether(truth: map<string, string>, clusters: seq<seq<string>>, m: string)
    requires Labels(clusters).Keys == truth.Keys && m in truth
    ensures Carrying(Labels(clusters), Labels(clusters)[m]) == Together(truth, clusters, m)
    ensures Carrying(truth, truth[m]) == Campaign(truth, m)
  {
    forall x | x in truth
      ensures x in Carrying(Labels(clusters), Labels(clusters)[m]) <==> SameCluster(clusters, x, m)
    {
      LabelsShareClusters(clusters, x, m);
    }
  }

  // ---- B-cubed ----

  /** The summands of B-cubed: what the cluster and the campaign of a session share, of the cluster and of the
      campaign. */
  ghost predicate SharesOf(
    truth: map<string, string>, clusters: seq<seq<string>>, ofCluster: string -> real, ofCampaign: string -> real)
  {
    forall m | m in truth ::
      && IsPart(ofCluster(m), |Together(truth, clusters, m) * Campaign(truth, m)|, |Together(truth, clusters, m)|)
      && IsPart(ofCampaign(m), |Together(truth, clusters, m) * Campaign(truth, m)|, |Campaign(truth, m)|)
  }

  /** `q` is `k` of `n` things, of which there are some. */
  ghost predicate IsPart(q: real, k: nat, n: nat) { n > 0 && Ratio(q, k as real, n as real) }

  ghost predicate BcubedLaw(truth: map<string, string>, clusters: seq<seq<string>>, precision: real, recall: real) {
    exists ofCluster, ofCampaign :: SharesOf(truth, clusters, ofCluster, ofCampaign)
      && Ratio(precision, Total(Elements(truth.Keys), ofCluster), |truth| as real)
      && Ratio(recall, Total(Elements(truth.Keys), ofCampaign), |truth| as real)
  }

  lemma BcubedIsLawful(truth: map<string, string>, clusters: seq<seq<string>>, r: Report)
    requires ReportOf(truth, clusters, r) && Labels(clusters).Keys == truth.Keys
    ensures BcubedLaw(truth, clusters, r.bcubedPrecision, r.bcubedRecall)
  {
    var labels := Labels(clusters);
    SharesAreLawful(truth, clusters);
    BcubedIsMean(truth, labels, truth);
    BcubedIsMean(truth, truth, labels);
  }

  lemma BcubedIsMean<A, B>(truth: map<string, string>, group: map<string, A>, other: map<string, B>)
    requires truth != map[]
    ensures Ratio(Bcubed(truth, group, other), Total(Elements(truth.Keys), Share(group, other)), |truth| as real)
  {
    QuotientIsRatio(Total(Elements(truth.Keys), Share(group, other)), |truth| as real);
  }

  lemma SharesAreLawful(truth: map<string, string>, clusters: seq<seq<string>>)
    requires Labels(clusters).Keys == truth.Keys
    ensures SharesOf(truth, clusters, Share(Labels(clusters), truth), Share(truth, Labels(clusters)))
  {
    var labels := Labels(clusters);
    forall m | m in truth
      ensures var both := |Together(truth, clusters, m) * Campaign(truth, m)|;
        && IsPart(Share(labels, truth)(m), both, |Together(truth, clusters, m)|)
        && IsPart(Share(truth, labels)(m), both, |Campaign(truth, m)|)
    {
      MemberShares(truth, clusters, m);
    }
  }

  lemma MemberShares(truth: map<string, string>, clusters: seq<seq<string>>, m: string)
    requires Labels(clusters).Keys == truth.Keys && m in truth
    ensures var both := |Together(truth, clusters, m) * Campaign(truth, m)|;
      && IsPart(Share(Labels(clusters), truth)(m), both, |Together(truth, clusters, m)|)
      && IsPart(Share(truth, Labels(clusters))(m), both, |Campaign(truth, m)|)
  {
    CarryingIsTogether(truth, clusters, m);
    SharePart(Labels(clusters), truth, m);
    SharePart(truth, Labels(clusters), m);
    var a, b := Together(truth, clusters, m), Campaign(truth, m);
    assert a * b == b * a;
  }

  lemma SharePart<A, B>(group: map<string, A>, other: map<string, B>, m: string)
    requires m in group && m in other
    ensures IsPart(Share(group, other)(m), |Carrying(group, group[m]) * Carrying(other, other[m])|,
      |Carrying(group, group[m])|)
  {
    ShareOf(group, other, m);
    var own, both := Carrying(group, group[m]), Carrying(group, group[m]) * Carrying(other, other[m]);
    PartOf(|both|, |own|, Share(group, other)(m));
  }

  lemma PartOf(k: nat, n: nat, q: real)
    requires n > 0 && q == k as real / n as real
    ensures IsPart(q, k, n)
  {
    QuotientIsRatio(k as real, n as real);
  }

  // ---- pairs ----

  /** The ordered pairs of different sessions with the given relation between campaigns and between clusters. */
  ghost function PairsOf(truth: map<string, string>, clusters: seq<seq<string>>, campaign: bool, cluster: bool)
    : set<(string, string)>
  {
    set x, y | x in truth && y in truth && x != y
      && (truth[x] == truth[y] <==> campaign) && (SameCluster(clusters, x, y) <==> cluster) :: (x, y)
  }

  function Ordered(s: set<string>, q: (string, string) -> bool): set<(string, string)> {
    set x, y | x in s && y in s && x != y && q(x, y) :: (x, y)
  }

  ghost predicate Distinct(ms: seq<string>) { forall i, j | 0 <= i < j < |ms| :: ms[i] != ms[j] }

  function After(x: string, ys: set<string>, q: (string, string) -> bool): set<(string, string)> {
    set y | y in ys && q(x, y) :: (x, y)
  }

  function Before(ys: set<string>, x: string, q: (string, string) -> bool): set<(string, string)> {
    set y | y in ys && q(y, x) :: (y, x)
  }

  ghost predicate Symmetric(q: (string, string) -> bool) { forall x, y :: q(x, y) == q(y, x) }

  lemma {:induction false} RowPairs(x: string, ys: seq<string>, q: (string, string) -> bool)
    requires Distinct(ys) && Symmetric(q)
    ensures |After(x, SetOf(ys), q)| == CountWith(x, ys, q) == |Before(SetOf(ys), x, q)|
  {
    if ys == [] {
      assert After(x, SetOf(ys), q) == {} && Before(SetOf(ys), x, q) == {};
    } else {
      var y, rest := ys[|ys| - 1], ys[..|ys| - 1];
      RowPairs(x, rest, q);
      assert ys == rest + [y];
      OnePairMore(x, SetOf(rest), y, SetOf(ys), q);
    }
  }

  lemma OnePairMore(x: string, rest: set<string>, y: string, all: set<string>, q: (string, string) -> bool)
    requires y !in rest && all == rest + {y} && Symmetric(q)
    ensures |After(x, all, q)| == |After(x, rest, q)| + if q(x, y) then 1 else 0
    ensures |Before(all, x, q)| == |Before(rest, x, q)| + if q(x, y) then 1 else 0
  {
    if q(x, y) {
      assert After(x, all, q) == After(x, rest, q) + {(x, y)} && Before(all, x, q) == Before(rest, x, q) + {(y, x)};
    } else {
      assert After(x, all, q) == After(x, rest, q) && Before(all, x, q) == Before(rest, x, q);
    }
  }

  /** Counting each pair of the list once is half of counting ordered pairs of its members. */
  lemma {:induction false} PairsTwice(ms: seq<string>, q: (string, string) -> bool)
    requires Distinct(ms) && Symmetric(q)
    ensures 2 * Pairs(ms, q) == |Ordered(SetOf(ms), q)|
  {
    if ms == [] {
      assert Ordered(SetOf(ms), q) == {};
    } else {
      var x, ys := ms[0], ms[1..];
      PairsTwice(ys, q);
      RowPairs(x, ys, q);
      assert ms == [x] + ys;
      OneMemberMore(x, SetOf(ys), SetOf(ms), q);
    }
  }

  lemma OneMemberMore(x: string, ys: set<string>, all: set<string>, q: (string, string) -> bool)
    requires x !in ys && all == ys + {x}
    ensures |Ordered(all, q)| == |Ordered(ys, q)| + |After(x, ys, q)| + |Before(ys, x, q)|
  {
    var a, b, c := Ordered(ys, q), After(x, ys, q), Before(ys, x, q);
    assert Ordered(all, q) == a + b + c;
    assert a !! b && (a + b) !! c;
  }

  lemma CellIsPairsOf(truth: map<string, string>, clusters: seq<seq<string>>, campaign: bool, cluster: bool)
    requires Labels(clusters).Keys == truth.Keys
    ensures Ordered(truth.Keys, Cell(truth, Labels(clusters), campaign, cluster)) ==
      PairsOf(truth, clusters, campaign, cluster)
  {
    forall x, y | x in truth && y in truth
      ensures Cell(truth, Labels(clusters), campaign, cluster)(x, y) <==>
        (truth[x] == truth[y] <==> campaign) && (SameCluster(clusters, x, y) <==> cluster)
    {
      LabelsShareClusters(clusters, x, y);
    }
  }

  lemma CellLaw(
    truth: map<string, string>, clusters: seq<seq<string>>, ms: seq<string>, campaign: bool, cluster: bool)
    requires IsMemberList(truth, ms) && Labels(clusters).Keys == truth.Keys
    ensures 2 * Pairs(ms, Cell(truth, Labels(clusters), campaign, cluster)) ==
      |PairsOf(truth, clusters, campaign, cluster)|
  {
    PairsTwice(ms, Cell(truth, Labels(clusters), campaign, cluster));
    CellIsPairsOf(truth, clusters, campaign, cluster);
  }

  /** Each counter is half the number of ordered pairs of its kind: true and false by campaign, positive and negative
      by cluster. */
  lemma PairsAreLawful(truth: map<string, string>, clusters: seq<seq<string>>, r: Report)
    requires ReportOf(truth, clusters, r) && Labels(clusters).Keys == truth.Keys
    ensures 2 * r.pairs.tp == |PairsOf(truth, clusters, true, true)|
    ensures 2 * r.pairs.fp == |PairsOf(truth, clusters, false, true)|
    ensures 2 * r.pairs.fn == |PairsOf(truth, clusters, true, false)|
    ensures 2 * r.pairs.tn == |PairsOf(truth, clusters, false, false)|
  {
    var ms :| PairsCounted(truth, Labels(clusters), ms, r.pairs);
    CellLaw(truth, clusters, ms, true, true);
    CellLaw(truth, clusters, ms, false, true);
    CellLaw(truth, clusters, ms, true, false);
    CellLaw(truth, clusters, ms, false, false);
  }

  // ---- purity and splits ----

  /** The places of a cluster that a campaign holds. */
  function Places(truth: map<string, string>, c: seq<string>, t: string): set<int> {
    set k | 0 <= k < |c| && c[k] in truth && truth[c[k]] == t
  }

  lemma {:induction false} LabelsCounted(truth: map<string, string>, c: seq<string>, t: string)
    ensures CountLabel(truth, c, t) == |Places(truth, c, t)|
  {
    if c == [] {
      assert Places(truth, c, t) == {};
    } else {
      var n := |c| - 1;
      LabelsCounted(truth, c[..n], t);
      var a, b := Places(truth, c[..n], t), Places(truth, c, t);
      if c[n] in truth && truth[c[n]] == t { assert b == a + {n}; } else { assert b == a; }
    }
  }

  /** `best` is the size of the largest part of the cluster that one campaign holds. */
  ghost predicate LargestPart(truth: map<string, string>, c: seq<string>, best: nat) {
    && (forall t | t in truth.Values :: |Places(truth, c, t)| <= best)
    && (exists t :: t in truth.Values && |Places(truth, c, t)| == best)
  }

  ghost predicate LargestParts(truth: map<string, string>, clusters: seq<seq<string>>, parts: seq<nat>) {
    |parts| == |clusters| && forall i | 0 <= i < |clusters| :: LargestPart(truth, clusters[i], parts[i])
  }

  lemma BestIsLargest(truth: map<string, string>, c: seq<string>, best: nat)
    requires IsBest(truth, c, best)
    ensures LargestPart(truth, c, best)
  {
    forall t ensures CountLabel(truth, c, t) == |Places(truth, c, t)| { LabelsCounted(truth, c, t); }
  }

  lemma PurityIsLawful(truth: map<string, string>, clusters: seq<seq<string>>, r: Report)
    requires ReportOf(truth, clusters, r)
    ensures exists parts :: LargestParts(truth, clusters, parts) && IsPart(r.purity, Sum(parts), |truth|)
  {
    var bests := BestsOf(truth, clusters, r.purity);
    forall i | 0 <= i < |clusters| ensures LargestPart(truth, clusters[i], bests[i]) {
      BestIsLargest(truth, clusters[i], bests[i]);
    }
    assert LargestParts(truth, clusters, bests);
    PartOf(Sum(bests), |truth|, r.purity);
  }

  /** The campaigns with two sessions in different clusters. */
  ghost function Torn(truth: map<string, string>, clusters: seq<seq<string>>): set<string> {
    set x | x in truth && Apart(truth, clusters, x) :: truth[x]
  }

  ghost predicate Apart(truth: map<string, string>, clusters: seq<seq<string>>, x: string)
    requires x in truth
  {
    exists y, z ::
      y in truth && z in truth && truth[y] == truth[x] && truth[z] == truth[x] && !SameCluster(clusters, y, z)
  }

  lemma SpreadIsApart(truth: map<string, string>, clusters: seq<seq<string>>, x: string)
    requires Labels(clusters).Keys == truth.Keys && x in truth
    ensures |Spread(truth, Labels(clusters), truth[x])| > 1 <==> Apart(truth, clusters, x)
  {
    var labels := Labels(clusters);
    var spread := Spread(truth, labels, truth[x]);
    if Apart(truth, clusters, x) {
      var y, z :| y in truth && z in truth && truth[y] == truth[x] && truth[z] == truth[x]
        && !SameCluster(clusters, y, z);
      LabelsShareClusters(clusters, y, z);
      assert labels[y] in spread && labels[z] in spread;
      SubsetSize({labels[y], labels[z]}, spread);
    }
    if |spread| > 1 {
      assert labels[x] in spread;
      var l := AnotherIn(spread, labels[x]);
      var y :| y in truth && truth[y] == truth[x] && labels[y] == l;
      LabelsShareClusters(clusters, x, y);
    }
  }

  lemma AnotherIn(s: set<nat>, x: nat) returns (y: nat)
    requires |s| > 1 && x in s
    ensures y in s && y != x
  {
    assert |s - {x}| > 0;
    y :| y in s - {x};
  }

  lemma SplitSetIsTorn(truth: map<string, string>, clusters: seq<seq<string>>)
    requires Labels(clusters).Keys == truth.Keys
    ensures SplitSet(truth, Labels(clusters)) == Torn(truth, clusters)
  {
    forall x | x in truth
      ensures |Spread(truth, Labels(clusters), truth[x])| > 1 <==> Apart(truth, clusters, x)
    {
      SpreadIsApart(truth, clusters, x);
    }
  }

  lemma SplitsAreLawful(truth: map<string, string>, clusters: seq<seq<string>>, r: Report)
    requires ReportOf(truth, clusters, r) && Labels(clusters).Keys == truth.Keys
    ensures r.splitCampaigns == |Torn(truth, clusters)|
    ensures r.campaigns == |set m | m in truth :: truth[m]|
  {
    SplitSetIsTorn(truth, clusters);
    ValuesTaken(truth);
  }

  lemma ValuesTaken(truth: map<string, string>)
    ensures truth.Values == set m | m in truth :: truth[m]
  {
  }

  /** The clustering is scored exactly if its clusters together hold the sessions of the truth, and no others. */
  lemma CoverageIsLawful(truth: map<string, string>, clusters: seq<seq<string>>)
    ensures Labels(clusters).Keys == truth.Keys <==>
      forall m :: m in truth <==> exists i :: 0 <= i < |clusters| && m in clusters[i]
  {
    forall m ensures m in Labels(clusters) <==> exists i :: 0 <= i < |clusters| && m in clusters[i] {
      LabelsMeaning(clusters, m);
    }
  }
}
