/** What the calibration reports count, in terms of the samples: bins, errors and confusion cells by positions. */
module CalibrationLaws {
  import opened Numbers
  import opened Bayes
  import opened Calibration

  // ---- one bin ----

  /** The tenth of the unit interval that a bin stands for; 1 belongs to the last. */
  predicate InTenth(b: nat, x: Sample) {
    b as real <= 10.0 * x.confidence && (10.0 * x.confidence < (b + 1) as real || (b == 9 && x.confidence <= 1.0))
  }

  function Within(b: nat): Sample -> bool { (x: Sample) => InTenth(b, x) }

  function RightWithin(b: nat): Sample -> bool { (x: Sample) => InTenth(b, x) && x.hit }

  function ConfidenceWithin(b: nat): Sample -> real { (x: Sample) => if InTenth(b, x) then x.confidence else 0.0 }

  function GapWithin(b: nat): Sample -> real {
    (x: Sample) => if InTenth(b, x) then (if x.hit then 1.0 else 0.0) - x.confidence else 0.0
  }

  lemma TenthIsBin(b: nat, x: Sample)
    requires b < 10
    ensures InTenth(b, x) <==> InBin(b, x.confidence)
  {
  }

  lemma {:induction false} RowsCounted(s: seq<Sample>, b: nat)
    requires b < 10
    ensures |Rows(s, b)| == |Where(s, Within(b))|
    ensures Total(Rows(s, b), Conf) == Total(s, ConfidenceWithin(b))
    ensures Total(Rows(s, b), Hits) == |Where(s, RightWithin(b))| as real
    ensures Total(Rows(s, b), Gap) == Total(s, GapWithin(b))
  {
    if s == [] {
      WhereNone(Within(b));
      WhereNone(RightWithin(b));
    } else {
      RowsCounted(s[1..], b);
      TenthIsBin(b, s[0]);
      WhereTail(s, Within(b));
      WhereTail(s, RightWithin(b));
      RowsSplit(s, b);
    }
  }

  lemma RowsSplit(s: seq<Sample>, b: nat)
    requires s != []
    ensures InBin(b, s[0].confidence) ==> Rows(s, b) == [s[0]] + Rows(s[1..], b) && Rows(s, b)[1..] == Rows(s[1..], b)
    ensures !InBin(b, s[0].confidence) ==> Rows(s, b) == Rows(s[1..], b)
  {
  }

  ghost predicate BinLaw(s: seq<Sample>, b: nat, bin: Bin) {
    && bin.count == |Where(s, Within(b))|
    && Average(bin.meanConfidence, Total(s, ConfidenceWithin(b)), bin.count as real)
    && Average(bin.empiricalAccuracy, |Where(s, RightWithin(b))| as real, bin.count as real)
  }

  lemma BinIsLawful(s: seq<Sample>, b: nat)
    requires b < 10
    ensures BinLaw(s, b, BinOf(Rows(s, b)))
  {
    var rows := Rows(s, b);
    RowsCounted(s, b);
    AverageOf(Total(rows, Conf), |rows|, BinOf(rows).meanConfidence);
    AverageOf(Total(rows, Hits), |rows|, BinOf(rows).empiricalAccuracy);
  }

  lemma AverageOf(x: real, n: nat, q: real)
    requires if n == 0 then q == 0.0 && x == 0.0 else q == Div(x, n as real)
    ensures Average(q, x, n as real)
  {
    if n > 0 { TimesQuotient(x, n as real); }
  }

  // ---- the calibration error ----

  /** The absolute gaps between hits and confidence of the first `k` bins. */
  function AbsoluteGaps(s: seq<Sample>, k: nat): real {
    if k == 0 then 0.0 else AbsoluteGaps(s, k - 1) + Abs(Total(s, GapWithin(k - 1)))
  }

  lemma {:induction false} TermsAreGaps(s: seq<Sample>, n: nat, k: nat)
    requires n > 0 && k <= 10
    ensures Mul(BinTerms(s, n, k), n as real) == AbsoluteGaps(s, k)
  {
    if k == 0 {
      assert Mul(0.0, n as real) == 0.0;
    } else {
      TermsAreGaps(s, n, k - 1);
      BinTermIsGap(Rows(s, k - 1), n);
      RowsCounted(s, k - 1);
      AddProduct(BinTerms(s, n, k - 1), BinTerm(BinOf(Rows(s, k - 1)), n), n as real);
    }
  }

  /** The error times the number of samples is the sum over the ten bins of the absolute gap between what was right and
      what was promised; each reported bin counts and averages its own tenth. */
  lemma ReliabilityIsLawful(s: seq<Sample>, n: nat)
    ensures Average(Ece(s, n), if n == 0 then 0.0 else AbsoluteGaps(s, 10), n as real)
    ensures forall b | 0 <= b < 10 :: BinLaw(s, b, BinOf(Rows(s, b)))
  {
    forall b | 0 <= b < 10 ensures BinLaw(s, b, BinOf(Rows(s, b))) { BinIsLawful(s, b); }
    if n > 0 { TermsAreGaps(s, n, 10); } else { assert Mul(0.0, 0.0) == 0.0; }
  }

  // ---- the intent report ----

  /** The first index with the largest entry. */
  ghost predicate Leads(v: Vector, k: nat) {
    k < |v| && (forall i | 0 <= i < |v| :: v[i] <= v[k]) && forall i | 0 <= i < k :: v[i] < v[k]
  }

  lemma LeadsIsArgMax(v: Vector, k: nat)
    requires v != []
    ensures Leads(v, k) <==> k == ArgMax(v)
  {
    var m := ArgMax(v);
    assert Leads(v, k) ==> !(k < m) && !(m < k);
  }

  ghost predicate FallsInto(labels: seq<nat>, dists: seq<Vector>, t: nat, p: nat, i: int) {
    0 <= i < |labels| && i < |dists| && labels[i] == t && Leads(dists[i], p)
  }

  /** The samples of class `t` for which `p` leads. */
  ghost function CellOf(labels: seq<nat>, dists: seq<Vector>, t: nat, p: nat): set<int> {
    set i | 0 <= i < |labels| && FallsInto(labels, dists, t, p, i)
  }

  lemma {:induction false} CellsArePositions(classes: nat, labels: seq<nat>, dists: seq<Vector>, t: nat, p: nat)
    requires Aligned(classes, labels, dists) && |labels| == |dists|
    ensures CellCount(classes, labels, dists, t, p) == |CellOf(labels, dists, t, p)|
  {
    if labels == [] {
      assert CellOf(labels, dists, t, p) == {};
    } else {
      var n := |labels| - 1;
      var ls, ds := labels[..n], dists[..n];
      assert labels == ls + [labels[n]] && dists == ds + [dists[n]];
      CellsArePositions(classes, ls, ds, t, p);
      CellSnoc(classes, ls, ds, labels[n], dists[n], t, p);
      LeadsIsArgMax(dists[n], p);
      CellGrows(labels, dists, t, p);
    }
  }

  lemma CellGrows(labels: seq<nat>, dists: seq<Vector>, t: nat, p: nat)
    requires labels != [] && |labels| == |dists|
    ensures var n := |labels| - 1;
      |CellOf(labels, dists, t, p)| ==
        |CellOf(labels[..n], dists[..n], t, p)| + if labels[n] == t && Leads(dists[n], p) then 1 else 0
  {
    var n := |labels| - 1;
    var a, b := CellOf(labels[..n], dists[..n], t, p), CellOf(labels, dists, t, p);
    forall i | 0 <= i < n ensures FallsInto(labels, dists, t, p, i) == FallsInto(labels[..n], dists[..n], t, p, i) { }
    if labels[n] == t && Leads(dists[n], p) { assert b == a + {n}; } else { assert b == a; }
  }

  /** The scored record of a prediction: its leading probability, and whether the class that leads is the label. */
  ghost predicate RecordOf(v: Vector, truth: nat, x: Sample) {
    exists k: nat :: Leads(v, k) && x == Sample(v[k], k == truth)
  }

  lemma {:induction false} RecordsRead(classes: nat, labels: seq<nat>, dists: seq<Vector>, i: nat)
    requires Aligned(classes, labels, dists) && |labels| == |dists| && i < |labels|
    ensures RecordOf(dists[i], labels[i], Records(classes, labels, dists)[i])
  {
    if i == 0 {
      LeadsIsArgMax(dists[0], ArgMax(dists[0]));
    } else {
      RecordsRead(classes, labels[1..], dists[1..], i - 1);
    }
  }

  /** The intent report, sample by sample: each confusion cell holds the samples of its class for which its prediction
      leads, and each scored record is the leading probability with whether its class is right. */
  lemma IntentIsLawful(classes: nat, labels: seq<nat>, dists: seq<Vector>)
    requires Aligned(classes, labels, dists) && |labels| == |dists|
    ensures forall t, p :: CellCount(classes, labels, dists, t, p) == |CellOf(labels, dists, t, p)|
    ensures forall i | 0 <= i < |labels| :: RecordOf(dists[i], labels[i], Records(classes, labels, dists)[i])
  {
    forall t, p ensures CellCount(classes, labels, dists, t, p) == |CellOf(labels, dists, t, p)| {
      CellsArePositions(classes, labels, dists, t, p);
    }
    forall i | 0 <= i < |labels|
      ensures RecordOf(dists[i], labels[i], Records(classes, labels, dists)[i])
    {
      RecordsRead(classes, labels, dists, i);
    }
  }

  // ---- the binary report ----

  /** The scored pairs of a given truth on a given side of the threshold. */
  ghost function Side(labels: seq<bool>, scored: seq<real>, threshold: real, truth: bool, above: bool): set<int>
    requires |scored| <= |labels|
  {
    set i | 0 <= i < |scored| && labels[i] == truth && (scored[i] >= threshold <==> above)
  }

  lemma {:induction false} CellsAreSides(
    labels: seq<bool>, scored: seq<real>, threshold: real, truth: bool, above: bool)
    requires |scored| <= |labels|
    ensures CountCell(labels, scored, threshold, truth, above) == |Side(labels, scored, threshold, truth, above)|
  {
    if scored == [] {
      assert Side(labels, scored, threshold, truth, above) == {};
    } else {
      var n := |scored| - 1;
      CellsAreSides(labels, scored[..n], threshold, truth, above);
      var a, b := Side(labels, scored[..n], threshold, truth, above), Side(labels, scored, threshold, truth, above);
      assert forall i | 0 <= i < n :: scored[..n][i] == scored[i];
      if labels[n] == truth && (scored[n] >= threshold <==> above) { assert b == a + {n}; } else { assert b == a; }
    }
  }

  /** The binary report, pair by pair: the four counters are the four sides, and the error and the bins are those of
      the probabilities against their labels. */
  lemma BinaryIsLawful(labels: seq<bool>, scored: seq<real>, threshold: real, r: BinaryReport)
    requires |scored| <= |labels| && ReportOf(labels, scored, threshold, r)
    ensures r.tp == |Side(labels, scored, threshold, true, true)|
    ensures r.fp == |Side(labels, scored, threshold, false, true)|
    ensures r.tn == |Side(labels, scored, threshold, false, false)|
    ensures r.fn == |Side(labels, scored, threshold, true, false)|
    ensures exists s: seq<Sample> :: Paired(labels, scored, s) && ErrorAndBins(s, |labels|, r.ece, r.bins)
  {
    CellsAreSides(labels, scored, threshold, true, true);
    CellsAreSides(labels, scored, threshold, false, true);
    CellsAreSides(labels, scored, threshold, false, false);
    CellsAreSides(labels, scored, threshold, true, false);
    var s := LinkRecords(labels, scored);
    ReliabilityIsLawful(s, |labels|);
    assert Paired(labels, scored, s) && ErrorAndBins(s, |labels|, r.ece, r.bins);
  }

  ghost predicate Paired(labels: seq<bool>, scored: seq<real>, s: seq<Sample>)
    requires |scored| <= |labels|
  {
    |s| == |scored| && forall i | 0 <= i < |s| :: s[i] == Sample(scored[i], labels[i])
  }

  ghost predicate ErrorAndBins(s: seq<Sample>, n: nat, ece: real, bins: seq<Bin>) {
    && Average(ece, if n == 0 then 0.0 else AbsoluteGaps(s, 10), n as real)
    && |bins| == 10 && forall b | 0 <= b < 10 :: BinLaw(s, b, bins[b])
  }
}
