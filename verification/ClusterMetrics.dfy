/** `clustering_metrics`: B-cubed, pairwise and purity scores of a clustering against the truth. */
module ClusterMetrics {
  import opened Order
  import opened Numbers

  // ---- labels ----

  /** The label of a member is the index of the last cluster that holds it. */
  function Labels(clusters: seq<seq<string>>): map<string, nat> {
    if clusters == [] then map[]
    else Relabel(Labels(clusters[..|clusters| - 1]), clusters[|clusters| - 1], |clusters| - 1)
  }

  function Relabel(labels: map<string, nat>, cluster: seq<string>, index: nat): map<string, nat> {
    labels + map m | m in cluster :: index
  }

  ghost predicate LastHolder(clusters: seq<seq<string>>, m: string, i: nat) {
    i < |clusters| && m in clusters[i] && forall j | i < j < |clusters| :: m !in clusters[j]
  }

  lemma {:induction false} LabelsMeaning(clusters: seq<seq<string>>, m: string)
    ensures m in Labels(clusters) ==> LastHolder(clusters, m, Labels(clusters)[m])
    ensures m !in Labels(clusters) ==> forall i | 0 <= i < |clusters| :: m !in clusters[i]
  {
    if clusters != [] {
      LabelsMeaning(clusters[..|clusters| - 1], m);
    }
  }

  method ClusterLabels(clusters: seq<seq<string>>) returns (labels: map<string, nat>)
    ensures labels == Labels(clusters)
  {
    labels := map[];
    for index := 0 to |clusters|
      invariant labels == Labels(clusters[..index])
    {
      labels := MarkCluster(labels, clusters[index], index);
      assert clusters[..index + 1][..index] == clusters[..index];
    }
    assert clusters[..|clusters|] == clusters;
  }

  lemma RelabelStep(before: map<string, nat>, c: seq<string>, m: string, index: nat)
    ensures Relabel(before, c + [m], index) == Relabel(before, c, index)[m := index]
  {
    assert forall x :: x in c + [m] <==> x in c || x == m;
  }

  method MarkCluster(before: map<string, nat>, cluster: seq<string>, index: nat) returns (labels: map<string, nat>)
    ensures labels == Relabel(before, cluster, index)
  {
    labels := before;
    for k := 0 to |cluster|
      invariant labels == Relabel(before, cluster[..k], index)
    {
      RelabelStep(before, cluster[..k], cluster[k], index);
      assert cluster[..k + 1] == cluster[..k] + [cluster[k]];
      labels := labels[cluster[k] := index];
    }
    assert cluster[..|cluster|] == cluster;
  }

  /** The members carrying a label. */
  function Carrying<L(==)>(labels: map<string, L>, l: L): set<string> {
    set m | m in labels && labels[m] == l
  }

  method GroupBy<L(==)>(labels: map<string, L>, members: seq<string>) returns (g: map<L, set<string>>)
    requires forall m :: m in members <==> m in labels
    ensures g.Keys == labels.Values
    ensures forall l | l in g :: g[l] == Carrying(labels, l)
  {
    g := map[];
    for k := 0 to |members|
      invariant forall l :: l in g <==> exists i | 0 <= i < k :: labels[members[i]] == l
      invariant forall l | l in g :: g[l] == set m | m in members[..k] && labels[m] == l
    {
      var m := members[k];
      assert members[..k + 1] == members[..k] + [m];
      var l := labels[m];
      g := g[l := (if l in g then g[l] else {}) + {m}];
    }
    forall l ensures l in g <==> l in labels.Values {
      if l in labels.Values {
        var m :| m in labels && labels[m] == l;
        assert m in members;
        var i :| 0 <= i < |members| && members[i] == m;
      }
    }
    assert members[..|members|] == members;
  }

  // ---- B-cubed ----

  /** |group(m) and other(m)| / |group(m)|: how pure m's group is from m's point of view. */
  function Share<A(==), B(==)>(group: map<string, A>, other: map<string, B>): string -> real {
    m => if m in group && m in other && Carrying(group, group[m]) != {} then
        |Carrying(group, group[m]) * Carrying(other, other[m])| as real / |Carrying(group, group[m])| as real
      else 0.0
  }

  // ---- pairs ----

  function CountWith(x: string, ys: seq<string>, q: (string, string) -> bool): nat {
    if ys == [] then 0 else (if q(x, ys[|ys| - 1]) then 1 else 0) + CountWith(x, ys[..|ys| - 1], q)
  }

  /** The number of pairs x before y in the list with q(x, y). */
  function Pairs(ms: seq<string>, q: (string, string) -> bool): nat {
    if ms == [] then 0 else CountWith(ms[0], ms[1..], q) + Pairs(ms[1..], q)
  }

  lemma {:induction false} CountWithZero(x: string, ys: seq<string>, q: (string, string) -> bool)
    ensures CountWith(x, ys, q) == 0 <==> forall k | 0 <= k < |ys| :: !q(x, ys[k])
  {
    if ys != [] { CountWithZero(x, ys[..|ys| - 1], q); }
  }

  lemma {:induction false} PairsZero(ms: seq<string>, q: (string, string) -> bool)
    ensures Pairs(ms, q) == 0 <==> forall i, j | 0 <= i < j < |ms| :: !q(ms[i], ms[j])
  {
    if ms != [] {
      var t := ms[1..];
      CountWithZero(ms[0], t, q);
      PairsZero(t, q);
      if forall i, j | 0 <= i < j < |ms| :: !q(ms[i], ms[j]) {
        forall k | 0 <= k < |t| ensures !q(ms[0], t[k]) { assert t[k] == ms[k + 1]; }
        forall i, j | 0 <= i < j < |t| ensures !q(t[i], t[j]) { assert t[i] == ms[i + 1] && t[j] == ms[j + 1]; }
      }
      if CountWith(ms[0], t, q) == 0 && Pairs(t, q) == 0 {
        forall i, j | 0 <= i < j < |ms| ensures !q(ms[i], ms[j]) {
          assert ms[j] == t[j - 1];
          if i > 0 { assert ms[i] == t[i - 1]; }
        }
      }
    }
  }

  predicate Agree(
    truth: map<string, string>, predicted: map<string, nat>, actual: bool, inferred: bool, x: string, y: string)
  {
    x in truth && y in truth && x in predicted && y in predicted
    && (truth[x] == truth[y]) == actual && (predicted[x] == predicted[y]) == inferred
  }

  function Cell(truth: map<string, string>, predicted: map<string, nat>, actual: bool, inferred: bool)
    : (string, string) -> bool
  {
    (x, y) => Agree(truth, predicted, actual, inferred, x, y)
  }

  datatype Confusion = Confusion(tp: nat, fp: nat, fn: nat, tn: nat)

  function ConfusionOf(ms: seq<string>, truth: map<string, string>, predicted: map<string, nat>): Confusion {
    Confusion(
      Pairs(ms, Cell(truth, predicted, true, true)), Pairs(ms, Cell(truth, predicted, false, true)),
      Pairs(ms, Cell(truth, predicted, true, false)), Pairs(ms, Cell(truth, predicted, false, false)))
  }

  function RowOf(x: string, ys: seq<string>, truth: map<string, string>, predicted: map<string, nat>): Confusion {
    Confusion(
      CountWith(x, ys, Cell(truth, predicted, true, true)), CountWith(x, ys, Cell(truth, predicted, false, true)),
      CountWith(x, ys, Cell(truth, predicted, true, false)), CountWith(x, ys, Cell(truth, predicted, false, false)))
  }

  lemma {:induction false} RowTotal(x: string, ys: seq<string>, truth: map<string, string>, predicted: map<string, nat>)
    requires x in truth && x in predicted && forall y | y in ys :: y in truth && y in predicted
    ensures var c := RowOf(x, ys, truth, predicted); c.tp + c.fp + c.fn + c.tn == |ys|
  {
    if ys != [] {
      var n := |ys| - 1;
      assert ys[n] in ys;
      RowTotal(x, ys[..n], truth, predicted);
    }
  }

  /** The number of unordered pairs of `n` things. */
  function Choose2(n: nat): nat {
    if n == 0 then 0 else n - 1 + Choose2(n - 1)
  }

  lemma {:induction false} Choose2Closed(n: nat)
    ensures 2 * Choose2(n) == n * (n - 1)
  {
    if n > 0 { Choose2Closed(n - 1); }
  }

  /** The four counters partition all unordered pairs. */
  lemma {:induction false} ConfusionTotal(ms: seq<string>, truth: map<string, string>, predicted: map<string, nat>)
    requires forall y | y in ms :: y in truth && y in predicted
    ensures var c := ConfusionOf(ms, truth, predicted);
      c.tp + c.fp + c.fn + c.tn == Choose2(|ms|)
  {
    if ms != [] {
      assert ms[0] in ms;
      RowTotal(ms[0], ms[1..], truth, predicted);
      ConfusionTotal(ms[1..], truth, predicted);
    }
  }

  lemma RowSnoc(x: string, ys: seq<string>, y: string, truth: map<string, string>, predicted: map<string, nat>)
    requires x in truth && x in predicted && y in truth && y in predicted
    ensures RowOf(x, ys + [y], truth, predicted) ==
      Bump(RowOf(x, ys, truth, predicted), truth[x] == truth[y], predicted[x] == predicted[y])
  {
    assert (ys + [y])[..|ys|] == ys;
  }

  /** One more pair in the cell that the two comparisons select. */
  function Bump(c: Confusion, actual: bool, inferred: bool): Confusion {
    if actual && inferred then c.(tp := c.tp + 1)
    else if inferred then c.(fp := c.fp + 1)
    else if actual then c.(fn := c.fn + 1)
    else c.(tn := c.tn + 1)
  }

  /** The inner loop: one member against all later ones. */
  method CountRow(x: string, ys: seq<string>, truth: map<string, string>, predicted: map<string, nat>)
    returns (c: Confusion)
    requires x in truth && x in predicted && forall y | y in ys :: y in truth && y in predicted
    ensures c == RowOf(x, ys, truth, predicted)
  {
    c := Confusion(0, 0, 0, 0);
    for j := 0 to |ys|
      invariant c == RowOf(x, ys[..j], truth, predicted)
    {
      assert ys[j] in ys && ys[..j + 1] == ys[..j] + [ys[j]];
      RowSnoc(x, ys[..j], ys[j], truth, predicted);
      c := Bump(c, truth[x] == truth[ys[j]], predicted[x] == predicted[ys[j]]);
    }
    assert ys[..|ys|] == ys;
  }

  function AddCells(a: Confusion, b: Confusion): Confusion {
    Confusion(a.tp + b.tp, a.fp + b.fp, a.fn + b.fn, a.tn + b.tn)
  }

  lemma ConfusionCons(x: string, ys: seq<string>, truth: map<string, string>, predicted: map<string, nat>)
    ensures ConfusionOf([x] + ys, truth, predicted) ==
      AddCells(RowOf(x, ys, truth, predicted), ConfusionOf(ys, truth, predicted))
  {
    PairsCons(x, ys, Cell(truth, predicted, true, true));
    PairsCons(x, ys, Cell(truth, predicted, false, true));
    PairsCons(x, ys, Cell(truth, predicted, true, false));
    PairsCons(x, ys, Cell(truth, predicted, false, false));
    CellsAdd(ConfusionOf([x] + ys, truth, predicted), RowOf(x, ys, truth, predicted),
      ConfusionOf(ys, truth, predicted));
  }

  lemma CellsAdd(sum: Confusion, a: Confusion, b: Confusion)
    requires sum.tp == a.tp + b.tp && sum.fp == a.fp + b.fp && sum.fn == a.fn + b.fn && sum.tn == a.tn + b.tn
    ensures sum == AddCells(a, b)
  {
  }

  lemma PairsCons(x: string, ys: seq<string>, q: (string, string) -> bool)
    ensures Pairs([x] + ys, q) == CountWith(x, ys, q) + Pairs(ys, q)
  {
    assert ([x] + ys)[1..] == ys;
  }

  lemma OneRowMore(ms: seq<string>, i: nat, truth: map<string, string>, predicted: map<string, nat>)
    requires i < |ms|
    ensures ConfusionOf(ms[i..], truth, predicted) ==
      AddCells(RowOf(ms[i], ms[i + 1..], truth, predicted), ConfusionOf(ms[i + 1..], truth, predicted))
  {
    ConfusionCons(ms[i], ms[i + 1..], truth, predicted);
    assert [ms[i]] + ms[i + 1..] == ms[i..];
  }

  method CountPairs(ms: seq<string>, truth: map<string, string>, predicted: map<string, nat>) returns (c: Confusion)
    requires forall y | y in ms :: y in truth && y in predicted
    ensures c == ConfusionOf(ms, truth, predicted)
  {
    c := Confusion(0, 0, 0, 0);
    var i := |ms|;
    assert ms[i..] == [];
    while i > 0
      invariant 0 <= i <= |ms|
      invariant c == ConfusionOf(ms[i..], truth, predicted)
    {
      i := i - 1;
      assert ms[i] in ms;
      var row := CountRow(ms[i], ms[i + 1..], truth, predicted);
      OneRowMore(ms, i, truth, predicted);
      c := AddCells(row, c);
    }
    assert ms[0..] == ms;
  }

  // ---- purity ----

  function CountLabel(truth: map<string, string>, c: seq<string>, t: string): nat {
    if c == [] then 0
    else (if c[|c| - 1] in truth && truth[c[|c| - 1]] == t then 1 else 0) + CountLabel(truth, c[..|c| - 1], t)
  }

  ghost predicate IsBest(truth: map<string, string>, c: seq<string>, best: nat) {
    && (forall t | t in truth.Values :: CountLabel(truth, c, t) <= best)
    && (exists t :: t in truth.Values && CountLabel(truth, c, t) == best)
  }

  method MaxCount(truth: map<string, string>, c: seq<string>, labels: seq<string>) returns (best: nat)
    requires labels != [] && forall t :: t in labels <==> t in truth.Values
    ensures IsBest(truth, c, best)
  {
    best := CountLabel(truth, c, labels[0]);
    for k := 1 to |labels|
      invariant forall i | 0 <= i < k :: CountLabel(truth, c, labels[i]) <= best
      invariant exists i | 0 <= i < k :: CountLabel(truth, c, labels[i]) == best
    {
      var n := CountLabel(truth, c, labels[k]);
      if n > best { best := n; }
    }
    forall t | t in truth.Values ensures CountLabel(truth, c, t) <= best { assert t in labels; }
    var i :| 0 <= i < |labels| && CountLabel(truth, c, labels[i]) == best;
    assert labels[i] in labels;
  }

  /** The summands of purity: for each cluster the size of its largest single-campaign part. */
  ghost predicate AreBests(truth: map<string, string>, clusters: seq<seq<string>>, bests: seq<nat>) {
    |bests| == |clusters| && forall i | 0 <= i < |clusters| :: IsBest(truth, clusters[i], bests[i])
  }

  function Sum(s: seq<nat>): nat {
    if s == [] then 0 else Sum(s[..|s| - 1]) + s[|s| - 1]
  }

  // ---- the whole report ----

  datatype Report = Report(
    bcubedPrecision: real, bcubedRecall: real, pairs: Confusion, purity: real, splitCampaigns: nat, campaigns: nat)

  datatype Outcome = ValueError | ZeroDivisionError | Scored(report: Report)

  function Spread(truth: map<string, string>, predicted: map<string, nat>, t: string): set<nat> {
    set m | m in truth && m in predicted && truth[m] == t :: predicted[m]
  }

  /** The campaigns whose members carry more than one predicted label. */
  function SplitSet(truth: map<string, string>, predicted: map<string, nat>): set<string> {
    set m | m in truth && |Spread(truth, predicted, truth[m])| > 1 :: truth[m]
  }

  /** The mean share over all members. */
  ghost function Bcubed<A, B>(truth: map<string, string>, group: map<string, A>, other: map<string, B>): real
    requires truth != map[]
  {
    Total(Elements(truth.Keys), Share(group, other)) / |truth| as real
  }

  ghost predicate PairsCounted(truth: map<string, string>, predicted: map<string, nat>, ms: seq<string>, c: Confusion) {
    IsMemberList(truth, ms) && c == ConfusionOf(ms, truth, predicted)
  }

  ghost predicate HasPairs(truth: map<string, string>, predicted: map<string, nat>, c: Confusion) {
    exists ms :: PairsCounted(truth, predicted, ms, c)
  }

  ghost predicate HasPurity(truth: map<string, string>, clusters: seq<seq<string>>, purity: real)
    requires truth != map[]
  {
    exists bests :: AreBests(truth, clusters, bests) && purity == Sum(bests) as real / |truth| as real
  }

  ghost predicate ReportOf(truth: map<string, string>, clusters: seq<seq<string>>, r: Report) {
    var predicted := Labels(clusters);
    && truth != map[]
    && r.bcubedPrecision == Bcubed(truth, predicted, truth) && r.bcubedRecall == Bcubed(truth, truth, predicted)
    && HasPairs(truth, predicted, r.pairs)
    && HasPurity(truth, clusters, r.purity)
    && r.splitCampaigns == |SplitSet(truth, predicted)|
    && r.campaigns == |truth.Values|
  }

  /** `sorted(truth)`. */
  ghost predicate IsMemberList(truth: map<string, string>, ms: seq<string>) {
    Increasing(ms, StringLt) && SetOf(ms) == truth.Keys
  }

  method ClusteringMetrics(truth: map<string, string>, clusters: seq<seq<string>>) returns (r: Outcome)
    ensures r.ValueError? <==> Labels(clusters).Keys != truth.Keys
    ensures r.ZeroDivisionError? <==> Labels(clusters).Keys == truth.Keys && truth == map[]
    ensures r.Scored? ==> ReportOf(truth, clusters, r.report)
  {
    var predicted := ClusterLabels(clusters);
    if predicted.Keys != truth.Keys {
      return ValueError;
    }
    if truth == map[] {
      return ZeroDivisionError;
    }
    var report := Score(truth, clusters, predicted);
    r := Scored(report);
  }

  method Score(truth: map<string, string>, clusters: seq<seq<string>>, predicted: map<string, nat>) returns (r: Report)
    requires truth != map[] && predicted == Labels(clusters) && predicted.Keys == truth.Keys
    ensures ReportOf(truth, clusters, r)
  {
    var members := SortedMembers(truth);
    var byTruth := GroupBy(truth, members);
    var precision, recall := BcubedScores(members, truth, predicted, byTruth);
    var pairs := CountPairs(members, truth, predicted);
    assert HasPairs(truth, predicted, pairs) by { assert PairsCounted(truth, predicted, members, pairs); }
    var labels, purity := PurityScore(truth, clusters, members);
    var split := CountSplit(truth, predicted, labels, byTruth);
    r := Report(precision, recall, pairs, purity, split, |labels|);
  }

  method PurityScore(truth: map<string, string>, clusters: seq<seq<string>>, members: seq<string>)
    returns (labels: seq<string>, purity: real)
    requires truth != map[] && members != [] && forall m | m in members :: m in truth
    ensures |labels| == |truth.Values| && forall t :: t in labels <==> t in truth.Values
    ensures forall i, j | 0 <= i < j < |labels| :: labels[i] != labels[j]
    ensures HasPurity(truth, clusters, purity)
  {
    assert members[0] in members && truth[members[0]] in truth.Values;
    labels := Enumerate(truth.Values);
    var bests := AllBests(truth, clusters, labels);
    purity := Sum(bests) as real / |truth| as real;
  }

  method SortedMembers(truth: map<string, string>) returns (members: seq<string>)
    ensures IsMemberList(truth, members)
    ensures multiset(members) == multiset(truth.Keys)
    ensures |members| == |truth|
    ensures forall m :: m in members <==> m in truth
  {
    var unsorted := Enumerate(truth.Keys);
    SortedGroup(truth.Keys, unsorted);
    members := Sort(unsorted, StringLe);
    MembersIff(members, truth.Keys);
    assert |members| == |truth.Keys| == |truth|;
  }

  method BcubedScores(members: seq<string>, truth: map<string, string>, predicted: map<string, nat>,
    byTruth: map<string, set<string>>)
    returns (precision: real, recall: real)
    requires truth != map[] && predicted.Keys == truth.Keys && |members| == |truth|
    requires multiset(members) == multiset(truth.Keys) && forall m :: m in members <==> m in truth
    requires byTruth.Keys == truth.Values && forall t | t in byTruth :: byTruth[t] == Carrying(truth, t)
    ensures precision == Bcubed(truth, predicted, truth) && recall == Bcubed(truth, truth, predicted)
  {
    var byPredicted := GroupBy(predicted, members);
    precision, recall := SumShares(members, truth, predicted, byPredicted, byTruth);
    TotalPermutation(Elements(truth.Keys), members, Share(predicted, truth));
    TotalPermutation(Elements(truth.Keys), members, Share(truth, predicted));
    precision, recall := precision / |members| as real, recall / |members| as real;
  }

  method AllBests(truth: map<string, string>, clusters: seq<seq<string>>, labels: seq<string>) returns (bests: seq<nat>)
    requires labels != [] && forall t :: t in labels <==> t in truth.Values
    ensures AreBests(truth, clusters, bests)
  {
    bests := [];
    for k := 0 to |clusters|
      invariant |bests| == k && forall i | 0 <= i < k :: IsBest(truth, clusters[i], bests[i])
    {
      var best := MaxCount(truth, clusters[k], labels);
      bests := bests + [best];
    }
  }

  lemma MembersIff(ms: seq<string>, s: set<string>)
    requires multiset(ms) == multiset(s)
    ensures forall m :: m in ms <==> m in s
  {
    forall m ensures m in ms <==> m in s { assert m in ms <==> m in multiset(ms); }
  }

  lemma ShareOf<A, B>(group: map<string, A>, other: map<string, B>, m: string)
    requires m in group && m in other
    ensures |Carrying(group, group[m])| > 0
    ensures Share(group, other)(m) ==
      |Carrying(group, group[m]) * Carrying(other, other[m])| as real / |Carrying(group, group[m])| as real
  {
    assert m in Carrying(group, group[m]);
  }

  method SumShares(members: seq<string>, truth: map<string, string>, predicted: map<string, nat>,
    byPredicted: map<nat, set<string>>, byTruth: map<string, set<string>>)
    returns (precision: real, recall: real)
    requires forall m | m in members :: m in truth && m in predicted
    requires byPredicted.Keys == predicted.Values && byTruth.Keys == truth.Values
    requires forall l | l in byPredicted :: byPredicted[l] == Carrying(predicted, l)
    requires forall t | t in byTruth :: byTruth[t] == Carrying(truth, t)
    ensures precision == Total(members, Share(predicted, truth))
    ensures recall == Total(members, Share(truth, predicted))
  {
    precision, recall := 0.0, 0.0;
    for k := 0 to |members|
      invariant precision == Total(members[..k], Share(predicted, truth))
      invariant recall == Total(members[..k], Share(truth, predicted))
    {
      var m := members[k];
      assert m in members;
      assert members[..k + 1] == members[..k] + [m];
      ShareOf(predicted, truth, m);
      ShareOf(truth, predicted, m);
      assert predicted[m] in predicted.Values && truth[m] in truth.Values;
      var predictedGroup, truthGroup := byPredicted[predicted[m]], byTruth[truth[m]];
      var overlap := |predictedGroup * truthGroup| as real;
      assert predictedGroup * truthGroup == truthGroup * predictedGroup;
      TotalSnoc(members[..k], m, Share(predicted, truth));
      TotalSnoc(members[..k], m, Share(truth, predicted));
      precision := precision + overlap / |predictedGroup| as real;
      recall := recall + overlap / |truthGroup| as real;
    }
    assert members[..|members|] == members;
  }

  method CountSplit(
    truth: map<string, string>, predicted: map<string, nat>, labels: seq<string>, byTruth: map<string, set<string>>)
    returns (n: nat)
    requires truth.Keys == predicted.Keys && byTruth.Keys == truth.Values
    requires forall t | t in byTruth :: byTruth[t] == Carrying(truth, t)
    requires forall t :: t in labels <==> t in truth.Values
    requires forall i, j | 0 <= i < j < |labels| :: labels[i] != labels[j]
    ensures n == |SplitSet(truth, predicted)|
  {
    n := 0;
    ghost var found: set<string> := {};
    for k := 0 to |labels|
      invariant n == |found|
      invariant forall t :: t in found <==> t in labels[..k] && |Spread(truth, predicted, t)| > 1
    {
      assert labels[..k + 1] == labels[..k] + [labels[k]];
      assert labels[k] in labels;
      var group := byTruth[labels[k]];
      var spread := set m | m in group && m in predicted :: predicted[m];
      assert spread == Spread(truth, predicted, labels[k]);
      if |spread| > 1 {
        n := n + 1;
        found := found + {labels[k]};
      }
    }
    assert labels[..|labels|] == labels;
    SplitFound(truth, predicted, labels, found);
  }

  lemma SplitFound(truth: map<string, string>, predicted: map<string, nat>, labels: seq<string>, found: set<string>)
    requires truth.Keys == predicted.Keys && forall t :: t in labels <==> t in truth.Values
    requires forall t :: t in found <==> t in labels && |Spread(truth, predicted, t)| > 1
    ensures found == SplitSet(truth, predicted)
  {
    forall t ensures t in found <==> t in SplitSet(truth, predicted) {
      if t in found { var m :| m in truth && truth[m] == t; }
    }
  }
}
