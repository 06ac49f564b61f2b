/** Reliability bins and the expected calibration error, as used by the intent model, the pair linker and the
    steering policies, with the confusion counters they are reported next to. */
module Calibration {
  import opened Order
  import opened Numbers
  import opened Bayes

  /** A confidence and whether the prediction was right. */
  datatype Sample = Sample(confidence: real, hit: bool)

  const BINS: nat := 10

  /** Bin `b` is [b/10, (b+1)/10), the last one closed above. */
  predicate InBin(b: nat, c: real) {
    var lower, upper := b as real / 10.0, (b + 1) as real / 10.0;
    if b == BINS - 1 then lower <= c <= upper else lower <= c < upper
  }

  function Rows(s: seq<Sample>, b: nat): (r: seq<Sample>)
    ensures |r| <= |s|
  {
    if s == [] then [] else (if InBin(b, s[0].confidence) then [s[0]] else []) + Rows(s[1..], b)
  }

  function Conf(x: Sample): real { x.confidence }
  function Hits(x: Sample): real { if x.hit then 1.0 else 0.0 }
  function Gap(x: Sample): real { Hits(x) - x.confidence }
  function Abs(x: real): real { if x < 0.0 then -x else x }

  datatype Bin = Bin(count: nat, meanConfidence: real, empiricalAccuracy: real)

  function BinOf(rows: seq<Sample>): Bin {
    if rows == [] then Bin(0, 0.0, 0.0)
    else Bin(|rows|, Div(Total(rows, Conf), |rows| as real), Div(Total(rows, Hits), |rows| as real))
  }

  /** `count / n * abs(accuracy - mean confidence)` of one bin. */
  function BinTerm(bin: Bin, n: nat): real
    requires n > 0
  {
    Mul(Div(bin.count as real, n as real), Abs(bin.empiricalAccuracy - bin.meanConfidence))
  }

  function BinTerms(s: seq<Sample>, n: nat, k: nat): real
    requires n > 0
  {
    if k == 0 then 0.0 else BinTerms(s, n, k - 1) + BinTerm(BinOf(Rows(s, k - 1)), n)
  }

  /** The expected calibration error; zero without samples. */
  function Ece(s: seq<Sample>, n: nat): real {
    if n == 0 then 0.0 else BinTerms(s, n, BINS)
  }

  function RowCount(s: seq<Sample>, k: nat): nat {
    if k == 0 then 0 else RowCount(s, k - 1) + |Rows(s, k - 1)|
  }

  method Reliability(s: seq<Sample>, n: nat) returns (ece: real, bins: seq<Bin>)
    ensures ece == Ece(s, n)
    ensures |bins| == BINS && forall b | 0 <= b < BINS :: bins[b] == BinOf(Rows(s, b))
  {
    ece, bins := 0.0, [];
    for b := 0 to BINS
      invariant |bins| == b && forall i | 0 <= i < b :: bins[i] == BinOf(Rows(s, i))
      invariant ece == if n == 0 then 0.0 else BinTerms(s, n, b)
    {
      var records := Rows(s, b);
      var bin := BinOf(records);
      if n > 0 {
        ece := ece + BinTerm(bin, n);
      }
      bins := bins + [bin];
    }
  }

  // ---- every sample is in exactly one bin ----

  /** The bin of a confidence in [0, 1]. */
  function Index(c: real): (b: nat)
    requires 0.0 <= c <= 1.0
    ensures b < BINS
  {
    var b := (c * 10.0).Floor;
    assert b as real <= c * 10.0 < (b + 1) as real;
    if b >= BINS then BINS - 1 else b
  }

  lemma IndexIsTheBin(c: real, b: nat)
    requires 0.0 <= c <= 1.0 && b < BINS
    ensures InBin(b, c) <==> b == Index(c)
  {
    var f := (c * 10.0).Floor;
    assert f as real <= c * 10.0 < f as real + 1.0;
  }

  lemma BinsAreInRange(c: real, b: nat)
    requires b < BINS
    ensures InBin(b, c) ==> 0.0 <= c <= 1.0
  {
  }

  ghost predicate InRange(s: seq<Sample>) {
    forall i | 0 <= i < |s| :: 0.0 <= s[i].confidence <= 1.0
  }

  /** The bin that a confidence falls in, past the last one when it is outside [0, 1]. */
  function Slot(c: real): nat { if 0.0 <= c <= 1.0 then Index(c) else BINS }

  lemma BinGrows(s: seq<Sample>, b: nat)
    requires s != [] && b < BINS
    ensures |Rows(s, b)| == |Rows(s[1..], b)| + if b == Slot(s[0].confidence) then 1 else 0
  {
    var c := s[0].confidence;
    if 0.0 <= c <= 1.0 { IndexIsTheBin(c, b); } else { BinsAreInRange(c, b); }
  }

  /** Two lists whose rows differ by one in bin `slot` only. */
  lemma {:induction false} RowCountStep(s: seq<Sample>, t: seq<Sample>, slot: nat, k: nat)
    requires k <= BINS
    requires forall b | 0 <= b < BINS :: |Rows(s, b)| == |Rows(t, b)| + if b == slot then 1 else 0
    ensures RowCount(s, k) == RowCount(t, k) + if slot < k then 1 else 0
    decreases k
  {
    if k > 0 { RowCountStep(s, t, slot, k - 1); }
  }

  lemma CountOneMore(s: seq<Sample>)
    requires s != []
    ensures RowCount(s, BINS) == RowCount(s[1..], BINS) + if 0.0 <= s[0].confidence <= 1.0 then 1 else 0
  {
    var slot := Slot(s[0].confidence);
    forall b | 0 <= b < BINS ensures |Rows(s, b)| == |Rows(s[1..], b)| + if b == slot then 1 else 0 {
      BinGrows(s, b);
    }
    RowCountStep(s, s[1..], slot, BINS);
  }

  lemma {:induction false} NoRows(k: nat)
    ensures RowCount([], k) == 0
  {
    if k > 0 { NoRows(k - 1); }
  }

  /** The bin counts add up to the number of samples exactly when every confidence is in [0, 1]; a sample
      outside the range is in no bin. */
  lemma {:induction false} BinsPartitionSamples(s: seq<Sample>)
    ensures RowCount(s, BINS) <= |s|
    ensures RowCount(s, BINS) == |s| <==> InRange(s)
  {
    if s == [] {
      NoRows(BINS);
    } else {
      BinsPartitionSamples(s[1..]);
      CountOneMore(s);
      if InRange(s) {
        forall i | 0 <= i < |s[1..]| ensures 0.0 <= s[1..][i].confidence <= 1.0 { assert s[1..][i] == s[i + 1]; }
      }
      if InRange(s[1..]) && 0.0 <= s[0].confidence <= 1.0 {
        forall i | 0 <= i < |s| ensures 0.0 <= s[i].confidence <= 1.0 { if i > 0 { assert s[i] == s[1..][i - 1]; } }
      }
    }
  }

  // ---- bounds on the calibration error ----

  lemma GapIsDifference(rows: seq<Sample>)
    ensures Total(rows, Gap) == Total(rows, Hits) - Total(rows, Conf)
  {
    TotalSum(rows, Gap, Conf, Hits);
  }

  lemma BinTermIsGap(rows: seq<Sample>, n: nat)
    requires n > 0
    ensures Mul(BinTerm(BinOf(rows), n), n as real) == Abs(Total(rows, Gap))
  {
    GapIsDifference(rows);
    if rows != [] {
      BinArithmetic(|rows| as real, n as real, Total(rows, Hits), Total(rows, Conf));
    } else {
      assert Mul(Mul(Div(0.0, n as real), 0.0), n as real) == 0.0;
    }
  }

  lemma BinArithmetic(c: real, m: real, h: real, f: real)
    requires c > 0.0 && m > 0.0
    ensures Mul(Mul(Div(c, m), Abs(Div(h, c) - Div(f, c))), m) == Abs(h - f)
  {
    var q := Div(h, c) - Div(f, c);
    assert Mul(c, q) == h - f by { assert h / c * c == h && f / c * c == f; }
    AbsProduct(c, q);
    assert Mul(Mul(Div(c, m), Abs(q)), m) == Mul(c, Abs(q)) by {
      assert c / m * m == c;
      assert c / m * Abs(q) * m == c / m * m * Abs(q);
    }
  }

  lemma AbsProduct(c: real, q: real)
    requires c > 0.0
    ensures Mul(c, Abs(q)) == Abs(Mul(c, q))
  {
  }

  function GapSum(s: seq<Sample>, k: nat): real {
    if k == 0 then 0.0 else GapSum(s, k - 1) + Total(Rows(s, k - 1), Gap)
  }

  lemma {:induction false} GapSumStep(s: seq<Sample>, k: nat)
    requires s != [] && k <= BINS && 0.0 <= s[0].confidence <= 1.0
    ensures GapSum(s, k) == GapSum(s[1..], k) + if Index(s[0].confidence) < k then Gap(s[0]) else 0.0
    decreases k
  {
    if k > 0 {
      GapSumStep(s, k - 1);
      IndexIsTheBin(s[0].confidence, k - 1);
      assert ([s[0]] + Rows(s[1..], k - 1))[1..] == Rows(s[1..], k - 1);
      assert [] + Rows(s[1..], k - 1) == Rows(s[1..], k - 1);
    }
  }

  lemma {:induction false} NoGap(k: nat)
    ensures GapSum([], k) == 0.0
  {
    if k > 0 { NoGap(k - 1); }
  }

  lemma {:induction false} GapSumIsTotal(s: seq<Sample>)
    requires InRange(s)
    ensures GapSum(s, BINS) == Total(s, Gap)
  {
    if s == [] {
      NoGap(BINS);
    } else {
      forall i | 0 <= i < |s[1..]| ensures 0.0 <= s[1..][i].confidence <= 1.0 { assert s[1..][i] == s[i + 1]; }
      GapSumIsTotal(s[1..]);
      GapSumStep(s, BINS);
    }
  }

  lemma {:induction false} GapBounded(rows: seq<Sample>)
    requires InRange(rows)
    ensures Abs(Total(rows, Gap)) <= |rows| as real
  {
    if rows != [] {
      forall i | 0 <= i < |rows[1..]| ensures 0.0 <= rows[1..][i].confidence <= 1.0 {
        assert rows[1..][i] == rows[i + 1];
      }
      GapBounded(rows[1..]);
      assert |rows| as real == 1.0 + |rows[1..]| as real;
      assert Abs(Gap(rows[0])) <= 1.0;
    }
  }

  lemma {:induction false} RowsInRange(s: seq<Sample>, b: nat)
    requires InRange(s)
    ensures InRange(Rows(s, b))
  {
    if s != [] {
      forall i | 0 <= i < |s[1..]| ensures 0.0 <= s[1..][i].confidence <= 1.0 { assert s[1..][i] == s[i + 1]; }
      RowsInRange(s[1..], b);
    }
  }

  /** Triangle inequality over the bins, multiplied through by n. */
  lemma {:induction false} TermsBounded(s: seq<Sample>, n: nat, k: nat)
    requires n > 0 && InRange(s)
    ensures Abs(GapSum(s, k)) <= Mul(BinTerms(s, n, k), n as real) <= RowCount(s, k) as real
  {
    if k == 0 {
      assert Mul(0.0, n as real) == 0.0;
    } else {
      TermsBounded(s, n, k - 1);
      TermBounded(s, n, k - 1);
      TriangleStep(
        GapSum(s, k - 1), Total(Rows(s, k - 1), Gap), BinTerms(s, n, k - 1), BinTerm(BinOf(Rows(s, k - 1)), n),
        n as real, RowCount(s, k - 1) as real, |Rows(s, k - 1)| as real);
    }
  }

  lemma TermBounded(s: seq<Sample>, n: nat, k: nat)
    requires n > 0 && InRange(s)
    ensures Mul(BinTerm(BinOf(Rows(s, k)), n), n as real) == Abs(Total(Rows(s, k), Gap)) <= |Rows(s, k)| as real
  {
    BinTermIsGap(Rows(s, k), n);
    RowsInRange(s, k);
    GapBounded(Rows(s, k));
  }

  lemma TriangleStep(g: real, t: real, b: real, e: real, m: real, r: real, q: real)
    requires Abs(g) <= Mul(b, m) <= r && Mul(e, m) == Abs(t) <= q
    ensures Abs(g + t) <= Mul(b + e, m) <= r + q
  {
    AddProduct(b, e, m);
  }

  /** |accuracy - mean confidence| <= ECE <= 1. */
  ghost predicate Calibrated(s: seq<Sample>, n: nat)
    requires n > 0
  {
    Abs(Div(Total(s, Hits), n as real) - Div(Total(s, Conf), n as real)) <= Ece(s, n) <= 1.0
  }

  /** The calibration error is bounded, for any sample list with confidences in [0, 1] and any
      denominator `n` that is at least its length. */
  lemma EceBounds(s: seq<Sample>, n: nat)
    requires InRange(s) && |s| <= n && n > 0
    ensures Calibrated(s, n)
  {
    TermsBounded(s, n, BINS);
    BinsPartitionSamples(s);
    GapSumIsTotal(s);
    GapIsDifference(s);
    DivideBounds(n as real, Total(s, Hits), Total(s, Conf), BinTerms(s, n, BINS));
  }

  lemma AddProduct(x: real, y: real, m: real)
    ensures Mul(x + y, m) == Mul(x, m) + Mul(y, m)
  {
  }

  lemma DivideBounds(m: real, h: real, f: real, e: real)
    requires m > 0.0 && Abs(h - f) <= Mul(e, m) <= m
    ensures Abs(Div(h, m) - Div(f, m)) <= e <= 1.0
  {
    var d := Div(h, m) - Div(f, m);
    assert Mul(m, d) == h - f by { assert h / m * m == h && f / m * m == f; }
    AbsProduct(m, d);
    CancelLe(m, Abs(d), e);
    CancelLe(m, e, 1.0);
  }

  lemma CancelLe(m: real, x: real, y: real)
    requires m > 0.0 && Mul(m, x) <= Mul(m, y)
    ensures x <= y
  {
    if x > y { ProductPositive(m, x - y); Distribute(m, x - y, y); }
  }

  // ---- aegis/research.py: the multi-class report ----

  /** The first index with the largest entry, as `max(CLASSES, key=...)` picks it. */
  function ArgMax(v: Vector): (k: nat)
    requires v != []
    ensures k < |v| && (forall i | 0 <= i < |v| :: v[i] <= v[k]) && (forall i | 0 <= i < k :: v[i] < v[k])
  {
    if |v| == 1 then 0
    else
      var init := v[..|v| - 1];
      var k := ArgMax(init);
      assert forall i | 0 <= i < |init| :: v[i] == init[i];
      if v[|v| - 1] > v[k] then |v| - 1 else k
  }

  ghost predicate Aligned(classes: nat, labels: seq<nat>, dists: seq<Vector>) {
    && classes > 0
    && (forall i | 0 <= i < |labels| :: labels[i] < classes)
    && (forall i | 0 <= i < |dists| :: |dists[i]| == classes)
  }

  /** `zip(samples, probabilities)` as confidence records. */
  function Records(classes: nat, labels: seq<nat>, dists: seq<Vector>): (r: seq<Sample>)
    requires Aligned(classes, labels, dists)
    ensures |r| == if |labels| <= |dists| then |labels| else |dists|
  {
    if labels == [] || dists == [] then []
    else
      var k := ArgMax(dists[0]);
      [Sample(dists[0][k], k == labels[0])] + Records(classes, labels[1..], dists[1..])
  }

  /** How often class `t` was predicted as `p`. */
  function CellCount(classes: nat, labels: seq<nat>, dists: seq<Vector>, t: nat, p: nat): nat
    requires Aligned(classes, labels, dists)
  {
    if labels == [] || dists == [] then 0
    else (if labels[0] == t && ArgMax(dists[0]) == p then 1 else 0) + CellCount(classes, labels[1..], dists[1..], t, p)
  }

  function RowTotal(row: seq<nat>): nat { if row == [] then 0 else row[0] + RowTotal(row[1..]) }

  function MatrixTotal(m: seq<seq<nat>>): nat { if m == [] then 0 else RowTotal(m[0]) + MatrixTotal(m[1..]) }

  function Trace(m: seq<seq<nat>>, n: nat): nat
    requires n <= |m| && forall i | 0 <= i < |m| :: |m[i]| == |m|
  {
    if n == 0 then 0 else Trace(m, n - 1) + m[n - 1][n - 1]
  }

  function HitCount(s: seq<Sample>): nat { if s == [] then 0 else (if s[0].hit then 1 else 0) + HitCount(s[1..]) }

  lemma {:induction false} RowBump(row: seq<nat>, p: nat)
    requires p < |row|
    ensures RowTotal(row[p := row[p] + 1]) == RowTotal(row) + 1
  {
    if p > 0 {
      assert row[p := row[p] + 1][1..] == row[1..][p - 1 := row[1..][p - 1] + 1];
      RowBump(row[1..], p - 1);
    }
  }

  lemma {:induction false} MatrixBump(m: seq<seq<nat>>, t: nat, p: nat)
    requires t < |m| && p < |m[t]|
    ensures MatrixTotal(m[t := m[t][p := m[t][p] + 1]]) == MatrixTotal(m) + 1
  {
    if t == 0 {
      RowBump(m[0], p);
      assert m[t := m[t][p := m[t][p] + 1]][1..] == m[1..];
    } else {
      assert m[t := m[t][p := m[t][p] + 1]][1..] == m[1..][t - 1 := m[1..][t - 1][p := m[1..][t - 1][p] + 1]];
      MatrixBump(m[1..], t - 1, p);
    }
  }

  lemma {:induction false} TraceBump(m: seq<seq<nat>>, t: nat, p: nat, n: nat)
    requires n <= |m| && (forall i | 0 <= i < |m| :: |m[i]| == |m|) && t < |m| && p < |m|
    ensures Trace(m[t := m[t][p := m[t][p] + 1]], n) == Trace(m, n) + if t == p < n then 1 else 0
  {
    if n > 0 { TraceBump(m, t, p, n - 1); }
  }

  lemma {:induction false} ZeroMatrix(m: seq<seq<nat>>)
    requires forall i | 0 <= i < |m| :: forall j | 0 <= j < |m[i]| :: m[i][j] == 0
    ensures MatrixTotal(m) == 0
  {
    if m != [] {
      ZeroRow(m[0]);
      assert forall i | 0 <= i < |m[1..]| :: m[1..][i] == m[i + 1];
      ZeroMatrix(m[1..]);
    }
  }

  lemma {:induction false} ZeroRow(row: seq<nat>)
    requires forall j | 0 <= j < |row| :: row[j] == 0
    ensures RowTotal(row) == 0
  {
    if row != [] { ZeroRow(row[1..]); }
  }

  lemma {:induction false} ZeroTrace(m: seq<seq<nat>>, n: nat)
    requires n <= |m| && (forall i | 0 <= i < |m| :: |m[i]| == |m|)
    requires forall i | 0 <= i < |m| :: forall j | 0 <= j < |m[i]| :: m[i][j] == 0
    ensures Trace(m, n) == 0
  {
    if n > 0 { ZeroTrace(m, n - 1); }
  }

  ghost predicate Square(m: seq<seq<nat>>, classes: nat) {
    |m| == classes && forall i | 0 <= i < |m| :: |m[i]| == classes
  }

  lemma {:induction false} CellSnoc(
    classes: nat, labels: seq<nat>, dists: seq<Vector>, l: nat, d: Vector, t: nat, p: nat)
    requires Aligned(classes, labels, dists) && |labels| == |dists| && l < classes && |d| == classes
    ensures Aligned(classes, labels + [l], dists + [d])
    ensures CellCount(classes, labels + [l], dists + [d], t, p) ==
      CellCount(classes, labels, dists, t, p) + if l == t && ArgMax(d) == p then 1 else 0
  {
    if labels != [] {
      assert (labels + [l])[1..] == labels[1..] + [l] && (dists + [d])[1..] == dists[1..] + [d];
      CellSnoc(classes, labels[1..], dists[1..], l, d, t, p);
    }
  }

  lemma {:induction false} RecordsSnoc(classes: nat, labels: seq<nat>, dists: seq<Vector>, l: nat, d: Vector)
    requires Aligned(classes, labels, dists) && |labels| == |dists| && l < classes && |d| == classes
    ensures Aligned(classes, labels + [l], dists + [d])
    ensures Records(classes, labels + [l], dists + [d]) ==
      Records(classes, labels, dists) + [Sample(d[ArgMax(d)], ArgMax(d) == l)]
  {
    if labels != [] {
      assert (labels + [l])[1..] == labels[1..] + [l] && (dists + [d])[1..] == dists[1..] + [d];
      RecordsSnoc(classes, labels[1..], dists[1..], l, d);
    }
  }

  lemma {:induction false} HitSnoc(s: seq<Sample>, x: Sample)
    ensures HitCount(s + [x]) == HitCount(s) + if x.hit then 1 else 0
  {
    if s != [] {
      assert (s + [x])[1..] == s[1..] + [x];
      HitSnoc(s[1..], x);
    }
  }

  datatype IntentReport = IntentReport(
    confusion: seq<seq<nat>>, correct: nat, accuracy: real, ece: real, bins: seq<Bin>)

  method IntentMetrics(classes: nat, labels: seq<nat>, dists: seq<Vector>) returns (r: IntentReport)
    requires Aligned(classes, labels, dists)
    ensures var k := if |labels| <= |dists| then |labels| else |dists|;
      && Square(r.confusion, classes)
      && Aligned(classes, labels[..k], dists[..k])
      && (forall t, p | 0 <= t < classes && 0 <= p < classes ::
            r.confusion[t][p] == CellCount(classes, labels[..k], dists[..k], t, p))
      && MatrixTotal(r.confusion) == k && Trace(r.confusion, classes) == r.correct
      && r.correct == HitCount(Records(classes, labels[..k], dists[..k]))
      && r.accuracy == r.correct as real / (if |labels| > 1 then |labels| else 1) as real
      && r.ece == Ece(Records(classes, labels[..k], dists[..k]), |labels|)
      && |r.bins| == BINS && forall b | 0 <= b < BINS ::
        r.bins[b] == BinOf(Rows(Records(classes, labels[..k], dists[..k]), b))
  {
    var k := if |labels| <= |dists| then |labels| else |dists|;
    var confusion, correct, records := Count(classes, labels[..k], dists[..k]);
    var ece, bins := Reliability(records, |labels|);
    r := IntentReport(confusion, correct, correct as real / (if |labels| > 1 then |labels| else 1) as real, ece, bins);
  }

  /** The counting loop over the zipped samples. */
  method Count(classes: nat, labels: seq<nat>, dists: seq<Vector>)
    returns (confusion: seq<seq<nat>>, correct: nat, records: seq<Sample>)
    requires Aligned(classes, labels, dists) && |labels| == |dists|
    ensures Counted(classes, labels, dists, confusion, correct, records)
  {
    confusion, correct, records := seq(classes, i => seq(classes, j => 0)), 0, [];
    ZeroCounted(classes, confusion);
    for i := 0 to |labels|
      invariant Aligned(classes, labels[..i], dists[..i])
      invariant Counted(classes, labels[..i], dists[..i], confusion, correct, records)
    {
      var t, p := labels[i], ArgMax(dists[i]);
      assert labels[..i + 1] == labels[..i] + [t] && dists[..i + 1] == dists[..i] + [dists[i]];
      CountedSnoc(classes, labels[..i], dists[..i], t, dists[i], confusion, correct, records);
      confusion := Bump(confusion, t, p);
      correct := correct + (if p == t then 1 else 0);
      records := records + [Sample(dists[i][p], p == t)];
    }
    assert labels[..|labels|] == labels && dists[..|dists|] == dists;
  }

  /** `confusion[t][p] += 1`. */
  function Bump(m: seq<seq<nat>>, t: nat, p: nat): (r: seq<seq<nat>>)
    requires t < |m| && p < |m[t]|
    ensures |r| == |m| && forall i | 0 <= i < |m| :: |r[i]| == |m[i]|
  {
    m[t := m[t][p := m[t][p] + 1]]
  }

  lemma ZeroCounted(classes: nat, m: seq<seq<nat>>)
    requires classes > 0 && Square(m, classes) && forall i | 0 <= i < |m| :: forall j | 0 <= j < |m[i]| :: m[i][j] == 0
    ensures Counted(classes, [], [], m, 0, [])
  {
    ZeroMatrix(m);
    ZeroTrace(m, classes);
  }

  /** The state of the counting loop after the given samples. */
  ghost predicate Counted(
    classes: nat, labels: seq<nat>, dists: seq<Vector>, confusion: seq<seq<nat>>, correct: nat, records: seq<Sample>)
    requires Aligned(classes, labels, dists)
  {
    && Square(confusion, classes) && CellsCounted(classes, labels, dists, confusion)
    && MatrixTotal(confusion) == |labels| && Trace(confusion, classes) == correct
    && records == Records(classes, labels, dists) && correct == HitCount(records)
  }

  ghost predicate CellsCounted(classes: nat, labels: seq<nat>, dists: seq<Vector>, confusion: seq<seq<nat>>)
    requires Aligned(classes, labels, dists) && Square(confusion, classes)
  {
    forall t, p | 0 <= t < classes && 0 <= p < classes :: confusion[t][p] == CellCount(classes, labels, dists, t, p)
  }

  lemma CellsSnoc(classes: nat, labels: seq<nat>, dists: seq<Vector>, t: nat, d: Vector, confusion: seq<seq<nat>>)
    requires Aligned(classes, labels, dists) && |labels| == |dists| && t < classes && |d| == classes
    requires Square(confusion, classes) && CellsCounted(classes, labels, dists, confusion)
    ensures Aligned(classes, labels + [t], dists + [d])
    ensures var p := ArgMax(d);
      CellsCounted(classes, labels + [t], dists + [d], Bump(confusion, t, p))
  {
    forall a, b | 0 <= a < classes && 0 <= b < classes
      ensures CellCount(classes, labels + [t], dists + [d], a, b) ==
        confusion[a][b] + if t == a && ArgMax(d) == b then 1 else 0
    {
      CellSnoc(classes, labels, dists, t, d, a, b);
    }
  }

  lemma CountedSnoc(classes: nat, labels: seq<nat>, dists: seq<Vector>, t: nat, d: Vector,
    confusion: seq<seq<nat>>, correct: nat, records: seq<Sample>)
    requires Aligned(classes, labels, dists) && |labels| == |dists| && t < classes && |d| == classes
    requires Counted(classes, labels, dists, confusion, correct, records)
    ensures Aligned(classes, labels + [t], dists + [d])
    ensures var p := ArgMax(d);
      Counted(classes, labels + [t], dists + [d], Bump(confusion, t, p),
        correct + (if p == t then 1 else 0), records + [Sample(d[p], p == t)])
  {
    var p := ArgMax(d);
    CellsSnoc(classes, labels, dists, t, d, confusion);
    RecordsSnoc(classes, labels, dists, t, d);
    HitSnoc(records, Sample(d[p], p == t));
    MatrixBump(confusion, t, p);
    TraceBump(confusion, t, p, classes);
  }

  lemma {:induction false} HitCountIsTotal(s: seq<Sample>)
    ensures HitCount(s) as real == Total(s, Hits)
  {
    if s != [] { HitCountIsTotal(s[1..]); }
  }

  lemma {:induction false} RecordsInRange(classes: nat, labels: seq<nat>, dists: seq<Vector>)
    requires Aligned(classes, labels, dists) && forall i | 0 <= i < |dists| :: IsDistribution(dists[i])
    ensures InRange(Records(classes, labels, dists))
  {
    if labels != [] && dists != [] {
      RecordsInRange(classes, labels[1..], dists[1..]);
      DistributionEntry(dists[0], ArgMax(dists[0]));
    }
  }

  lemma DistributionEntry(d: Vector, k: nat)
    requires IsDistribution(d) && k < |d|
    ensures 0.0 <= d[k] <= 1.0
  {
    TotalNonNegative(d);
  }

  /** For every labelled sample set and all predicted distributions the calibration error lies between
      |accuracy - mean confidence| and 1, and the bins hold every scored sample exactly once. */
  lemma IntentCalibration(classes: nat, labels: seq<nat>, dists: seq<Vector>)
    requires Aligned(classes, labels, dists) && |labels| == |dists| && labels != []
    requires forall i | 0 <= i < |dists| :: IsDistribution(dists[i])
    ensures var s, n := Records(classes, labels, dists), |labels|;
      && RowCount(s, BINS) == n
      && Calibrated(s, n) && Total(s, Hits) == HitCount(s) as real
  {
    var s := Records(classes, labels, dists);
    RecordsInRange(classes, labels, dists);
    BinsPartitionSamples(s);
    HitCountIsTotal(s);
    EceBounds(s, |labels|);
  }

  // ---- aegis/trace_research.py: the binary report ----

  function LinkRecords(labels: seq<bool>, probabilities: seq<real>): (r: seq<Sample>)
    requires |probabilities| <= |labels|
    ensures |r| == |probabilities|
  {
    seq(|probabilities|, i requires 0 <= i < |probabilities| => Sample(probabilities[i], labels[i]))
  }

  function CountCell(labels: seq<bool>, probabilities: seq<real>, threshold: real, truth: bool, predicted: bool): nat
    requires |probabilities| <= |labels|
  {
    if probabilities == [] then 0
    else
      var n := |probabilities| - 1;
      CountCell(labels, probabilities[..n], threshold, truth, predicted) +
      (if labels[n] == truth && (probabilities[n] >= threshold) == predicted then 1 else 0)
  }

  datatype BinaryReport = BinaryReport(tp: nat, fp: nat, tn: nat, fn: nat, ece: real, bins: seq<Bin>)

  /** A probability without a label that falls into some bin: looking its label up is an IndexError. */
  predicate Unlabelled(labels: seq<bool>, probabilities: seq<real>) {
    exists i | |labels| <= i < |probabilities| :: 0.0 <= probabilities[i] <= 1.0
  }

  /** None is the IndexError. Probabilities beyond the labels and outside every bin, and labels beyond the
      probabilities, do not enter the counters. */
  method BinaryMetrics(labels: seq<bool>, probabilities: seq<real>, threshold: real) returns (r: Option<BinaryReport>)
    ensures r.None? <==> Unlabelled(labels, probabilities)
    ensures r.Some? ==> ReportOf(labels, Zipped(labels, probabilities), threshold, r.value)
  {
    var scored := Zipped(labels, probabilities);
    var tp, fp, tn, fn := CountLinks(labels, scored, threshold);
    for i := |scored| to |probabilities|
      invariant forall j | |scored| <= j < i :: !(0.0 <= probabilities[j] <= 1.0)
    {
      if 0.0 <= probabilities[i] <= 1.0 {
        return None;
      }
    }
    var ece, bins := Reliability(LinkRecords(labels, scored), |labels|);
    r := Some(BinaryReport(tp, fp, tn, fn, ece, bins));
  }

  /** The probabilities that `zip` pairs with a label. */
  function Zipped(labels: seq<bool>, probabilities: seq<real>): (scored: seq<real>)
    ensures |scored| <= |labels| && scored <= probabilities
    ensures |scored| == |labels| || |scored| == |probabilities|
  {
    if |labels| <= |probabilities| then probabilities[..|labels|] else probabilities
  }

  ghost predicate ReportOf(labels: seq<bool>, scored: seq<real>, threshold: real, r: BinaryReport)
    requires |scored| <= |labels|
  {
    && r.tp == CountCell(labels, scored, threshold, true, true)
    && r.fp == CountCell(labels, scored, threshold, false, true)
    && r.tn == CountCell(labels, scored, threshold, false, false)
    && r.fn == CountCell(labels, scored, threshold, true, false)
    && r.ece == Ece(LinkRecords(labels, scored), |labels|)
    && |r.bins| == BINS && forall b | 0 <= b < BINS :: r.bins[b] == BinOf(Rows(LinkRecords(labels, scored), b))
  }

  /** Only a confidence in [0, 1] is in a bin, so what lies outside changes no bin. */
  lemma {:induction false} OutsideEveryBin(s: seq<Sample>, t: seq<Sample>, b: nat)
    requires b < BINS && forall i | 0 <= i < |t| :: !(0.0 <= t[i].confidence <= 1.0)
    ensures Rows(s + t, b) == Rows(s, b)
    decreases |s| + |t|
  {
    if s != [] {
      assert (s + t)[1..] == s[1..] + t;
      OutsideEveryBin(s[1..], t, b);
    } else if t != [] {
      BinsAreInRange(t[0].confidence, b);
      assert s + t == t && t[1..] == [] + t[1..];
      OutsideEveryBin([], t[1..], b);
    }
  }

  method CountLinks(labels: seq<bool>, probabilities: seq<real>, threshold: real)
    returns (tp: nat, fp: nat, tn: nat, fn: nat)
    requires |probabilities| <= |labels|
    ensures tp == CountCell(labels, probabilities, threshold, true, true)
    ensures fp == CountCell(labels, probabilities, threshold, false, true)
    ensures tn == CountCell(labels, probabilities, threshold, false, false)
    ensures fn == CountCell(labels, probabilities, threshold, true, false)
  {
    tp, fp, tn, fn := 0, 0, 0, 0;
    for i := 0 to |probabilities|
      invariant tp == CountCell(labels, probabilities[..i], threshold, true, true)
      invariant fp == CountCell(labels, probabilities[..i], threshold, false, true)
      invariant tn == CountCell(labels, probabilities[..i], threshold, false, false)
      invariant fn == CountCell(labels, probabilities[..i], threshold, true, false)
    {
      assert probabilities[..i + 1][..i] == probabilities[..i];
      var predicted := probabilities[i] >= threshold;
      if predicted && labels[i] { tp := tp + 1; }
      if predicted && !labels[i] { fp := fp + 1; }
      if !predicted && !labels[i] { tn := tn + 1; }
      if !predicted && labels[i] { fn := fn + 1; }
    }
    assert probabilities[..|probabilities|] == probabilities;
  }

  /** True positives, false positives, true negatives and false negatives together. */
  function CellTotal(labels: seq<bool>, probabilities: seq<real>, threshold: real): nat
    requires |probabilities| <= |labels|
  {
    CountCell(labels, probabilities, threshold, true, true) + CountCell(labels, probabilities, threshold, false, true)
    + CountCell(labels, probabilities, threshold, false, false)
    + CountCell(labels, probabilities, threshold, true, false)
  }

  lemma {:induction false} CellsPartition(labels: seq<bool>, probabilities: seq<real>, threshold: real)
    requires |probabilities| <= |labels|
    ensures CellTotal(labels, probabilities, threshold) == |probabilities|
  {
    if probabilities != [] { CellsPartition(labels, probabilities[..|probabilities| - 1], threshold); }
  }

  /** The four link counters cover every scored pair once, whatever the threshold; the calibration error is bounded as
      above with the empirical link rate in place of accuracy. */
  lemma BinaryCalibration(labels: seq<bool>, probabilities: seq<real>, threshold: real)
    requires |probabilities| == |labels| && labels != []
    requires forall i | 0 <= i < |probabilities| :: 0.0 <= probabilities[i] <= 1.0
    ensures CellTotal(labels, probabilities, threshold) == |labels|
    ensures var s, n := LinkRecords(labels, probabilities), |labels|;
      && RowCount(s, BINS) == n
      && Calibrated(s, n)
  {
    CellsPartition(labels, probabilities, threshold);
    BinsPartitionSamples(LinkRecords(labels, probabilities));
    EceBounds(LinkRecords(labels, probabilities), |labels|);
  }
}
