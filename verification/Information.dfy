/** Entropy of beliefs and the expected information gain of a probe. */
module Information {
  import opened Numbers
  import opened Bayes

  // ---- the logarithm ----

  ghost predicate LogAdds(lg: real -> real, x: real, y: real) {
    x > 0.0 && y > 0.0 ==> lg(Mul(x, y)) == lg(x) + lg(y)
  }

  ghost predicate BelowTangent(lg: real -> real, k: real, x: real) {
    x > 0.0 ==> lg(x) <= Mul(k, x - 1.0)
  }

  /** The base-2 logarithm by the laws used here; `k` is 1 / ln 2, its slope at 1. */
  ghost predicate IsLog2(lg: real -> real, k: real) {
    && k > 0.0 && lg(2.0) == 1.0
    && (forall x, y :: LogAdds(lg, x, y))
    && (forall x :: BelowTangent(lg, k, x))
  }

  lemma LogOfOne(lg: real -> real, k: real)
    requires IsLog2(lg, k)
    ensures lg(1.0) == 0.0
  {
    assert LogAdds(lg, 1.0, 1.0) && Mul(1.0, 1.0) == 1.0;
  }

  lemma LogOfQuotient(lg: real -> real, k: real, x: real, y: real)
    requires IsLog2(lg, k) && x > 0.0 && y > 0.0
    ensures Div(x, y) > 0.0 && lg(Div(x, y)) == lg(x) - lg(y)
  {
    var q := Div(x, y);
    assert Mul(q, y) == x;
    assert Mul(y, q) == x;
    ProductPositive(y, q);
    assert LogAdds(lg, q, y);
  }

  lemma LogOfFour(lg: real -> real, k: real)
    requires IsLog2(lg, k)
    ensures lg(4.0) == 2.0
  {
    assert LogAdds(lg, 2.0, 2.0) && Mul(2.0, 2.0) == 4.0;
  }

  // ---- entropy ----

  function PLog(lg: real -> real): real -> real { x => if x > 0.0 then Mul(x, lg(x)) else 0.0 }

  /** Entropy in bits; zero probabilities are skipped. */
  function Entropy(lg: real -> real, p: Vector): real { -Total(p, PLog(lg)) }

  /** Sum of j[i] * lg(q[i]) over the positive j[i]. */
  ghost function Cross(lg: real -> real, j: Vector, q: Vector): real
    requires |j| == |q|
  {
    if j == [] then 0.0 else CrossTerm(lg, j[0], q[0]) + Cross(lg, j[1..], q[1..])
  }

  ghost function CrossTerm(lg: real -> real, j: real, q: real): real { if j > 0.0 then Mul(j, lg(q)) else 0.0 }

  ghost predicate Dominates(q: Vector, j: Vector) {
    |q| == |j| && forall i | 0 <= i < |j| :: j[i] >= 0.0 && q[i] >= 0.0 && (j[i] > 0.0 ==> q[i] > 0.0)
  }

  lemma GibbsTerm(lg: real -> real, k: real, j: real, q: real)
    requires IsLog2(lg, k) && j > 0.0 && q > 0.0
    ensures Mul(j, lg(j)) - Mul(j, lg(q)) >= Mul(k, j - q)
  {
    var r := Div(q, j);
    LogOfQuotient(lg, k, q, j);
    assert BelowTangent(lg, k, r);
    assert Mul(r, j) == q;
    var d := Mul(k, r - 1.0) - lg(r);
    assert Mul(j, d) >= 0.0;
    assert Mul(j, d) == Mul(j, Mul(k, r - 1.0)) - Mul(j, lg(r));
    assert Mul(j, Mul(k, r - 1.0)) == Mul(k, q - j) by { assert j * (k * (r - 1.0)) == k * (r * j - j); }
    assert Mul(j, lg(r)) == Mul(j, lg(q)) - Mul(j, lg(j));
    assert Mul(k, q - j) == -Mul(k, j - q);
  }

  /** Gibbs' inequality, for unnormalised non-negative vectors. */
  lemma {:induction false} Gibbs(lg: real -> real, k: real, j: Vector, q: Vector)
    requires IsLog2(lg, k) && Dominates(q, j)
    ensures Total(j, PLog(lg)) - Cross(lg, j, q) >= Mul(k, Total(j, Same) - Total(q, Same))
  {
    if j == [] {
      assert Mul(k, 0.0) == 0.0;
    } else {
      Gibbs(lg, k, j[1..], q[1..]);
      AnyGibbsTerm(lg, k, j[0], q[0]);
      DifferenceSplits(k, j[0], Total(j[1..], Same), q[0], Total(q[1..], Same));
    }
  }

  lemma AnyGibbsTerm(lg: real -> real, k: real, j: real, q: real)
    requires IsLog2(lg, k) && j >= 0.0 && q >= 0.0 && (j > 0.0 ==> q > 0.0)
    ensures PLog(lg)(j) - CrossTerm(lg, j, q) >= Mul(k, j - q)
  {
    if j > 0.0 { GibbsTerm(lg, k, j, q); } else { assert Mul(k, 0.0 - q) <= 0.0; }
  }

  lemma DifferenceSplits(k: real, x: real, a: real, y: real, b: real)
    ensures Mul(k, (x + a) - (y + b)) == Mul(k, x - y) + Mul(k, a - b)
  {
  }

  lemma {:induction false} EntropyTerms(lg: real -> real, k: real, p: Vector)
    requires IsLog2(lg, k) && forall i | 0 <= i < |p| :: 0.0 <= p[i] <= 1.0
    ensures Total(p, PLog(lg)) <= 0.0
  {
    if p != [] {
      EntropyTerms(lg, k, p[1..]);
      if p[0] > 0.0 {
        assert BelowTangent(lg, k, p[0]);
        assert Mul(k, p[0] - 1.0) <= 0.0;
        assert Mul(p[0], lg(p[0])) <= 0.0;
      }
    }
  }

  lemma {:induction false} EntryAtMostTotal(p: Vector)
    requires NonNegative(p)
    ensures Total(p, Same) >= 0.0
    ensures forall i | 0 <= i < |p| :: p[i] <= Total(p, Same)
  {
    if p != [] {
      EntryAtMostTotal(p[1..]);
      forall i | 0 <= i < |p| ensures p[i] <= Total(p, Same) {
        if i > 0 { assert p[i] == p[1..][i - 1]; }
      }
    }
  }

  lemma {:induction false} CrossConstant(lg: real -> real, j: Vector, q: Vector, x: real)
    requires |j| == |q| && NonNegative(j) && forall i | 0 <= i < |q| :: q[i] == x
    ensures Cross(lg, j, q) == Mul(Total(j, Same), lg(x))
  {
    if j == [] {
      assert Mul(0.0, lg(x)) == 0.0;
    } else {
      CrossConstant(lg, j[1..], q[1..], x);
      assert Mul(j[0] + Total(j[1..], Same), lg(x)) == Mul(j[0], lg(x)) + Mul(Total(j[1..], Same), lg(x));
      assert j[0] == 0.0 ==> Mul(j[0], lg(x)) == 0.0;
    }
  }

  /** 0 <= entropy <= log2(n) for every distribution over n hypotheses. */
  lemma EntropyBounds(lg: real -> real, k: real, p: Vector)
    requires IsLog2(lg, k) && IsDistribution(p)
    ensures 0.0 <= Entropy(lg, p) <= lg(|p| as real)
  {
    EntryAtMostTotal(p);
    EntropyTerms(lg, k, p);
    EntropyAtMostLog(lg, k, p);
  }

  lemma EntropyAtMostLog(lg: real -> real, k: real, p: Vector)
    requires IsLog2(lg, k) && IsDistribution(p)
    ensures Entropy(lg, p) <= lg(|p| as real)
  {
    var u := Uniform(|p|);
    UniformIsDistribution(|p|);
    UniformEntries(p);
    Gibbs(lg, k, p, u);
    assert Mul(k, 0.0) == 0.0;
    CrossUniform(lg, k, p);
  }

  lemma UniformEntries(p: Vector)
    requires IsDistribution(p)
    ensures Dominates(Uniform(|p|), p)
  {
    QuotientPositive(1.0, |p| as real);
  }

  lemma QuotientPositive(x: real, t: real)
    requires x > 0.0 && t > 0.0
    ensures x / t > 0.0
  {
  }

  lemma CrossUniform(lg: real -> real, k: real, p: Vector)
    requires IsLog2(lg, k) && IsDistribution(p)
    ensures Cross(lg, p, Uniform(|p|)) == -lg(|p| as real)
  {
    var n := |p| as real;
    CrossConstant(lg, p, Uniform(|p|), Div(1.0, n));
    LogOfOne(lg, k);
    LogOfQuotient(lg, k, 1.0, n);
    assert Mul(1.0, lg(Div(1.0, n))) == lg(Div(1.0, n));
  }

  /** `summarize`: normalised belief, entropy and confidence over the four hypotheses. */
  function Confidence(lg: real -> real, beliefs: Vector): real
    requires beliefs != [] && lg(|beliefs| as real) != 0.0
  {
    1.0 - Entropy(lg, Normalize(beliefs)) / lg(|beliefs| as real)
  }

  /** The reported confidence is in [0, 1] for every stored belief, even an unnormalised or negative one. */
  lemma ConfidenceInRange(lg: real -> real, k: real, beliefs: Vector)
    requires IsLog2(lg, k) && |beliefs| == 4
    ensures lg(4.0) != 0.0 && 0.0 <= Confidence(lg, beliefs) <= 1.0
  {
    LogOfFour(lg, k);
    NormalizeIsDistribution(beliefs);
    EntropyBounds(lg, k, Normalize(beliefs));
  }

  // ---- expected information gain ----

  /** The probability of an outcome and the entropy it is expected to leave. */
  function OutcomeEntropy(lg: real -> real, prior: Vector, l: Vector): real
    requires prior != [] && |l| == |prior|
  {
    var probability := Total(Times(prior, l), Same);
    if probability > 0.0 then Mul(probability, Entropy(lg, Posterior(prior, l))) else 0.0
  }

  function ExpectedEntropy(lg: real -> real, prior: Vector, columns: seq<Vector>): real
    requires SameLength(prior, columns)
  {
    if columns == [] then 0.0
    else ExpectedEntropy(lg, prior, columns[..|columns| - 1]) + OutcomeEntropy(lg, prior, columns[|columns| - 1])
  }

  /** Expected entropy reduction before it is clamped at zero. */
  function RawGain(lg: real -> real, prior: Vector, columns: seq<Vector>): real
    requires SameLength(prior, columns)
  {
    Entropy(lg, prior) - ExpectedEntropy(lg, prior, columns)
  }

  method ExpectedInformationGain(lg: real -> real, prior: Vector, columns: seq<Vector>) returns (gain: real)
    requires SameLength(prior, columns)
    ensures gain == if RawGain(lg, prior, columns) > 0.0 then RawGain(lg, prior, columns) else 0.0
  {
    var expected := 0.0;
    for o := 0 to |columns|
      invariant expected == ExpectedEntropy(lg, prior, columns[..o])
    {
      assert columns[..o + 1][..o] == columns[..o];
      var probability := Total(Times(prior, columns[o]), Same);
      if probability > 0.0 {
        expected := expected + Mul(probability, Entropy(lg, Posterior(prior, columns[o])));
      }
    }
    assert columns[..|columns|] == columns;
    var raw := Entropy(lg, prior) - expected;
    gain := if raw > 0.0 then raw else 0.0;
  }

  function AddV(a: Vector, b: Vector): (r: Vector)
    requires |a| == |b|
    ensures |r| == |a| && forall i | 0 <= i < |a| :: r[i] == a[i] + b[i]
  {
    seq(|a|, i requires 0 <= i < |a| => a[i] + b[i])
  }

  ghost function SumColumns(n: nat, columns: seq<Vector>): (r: Vector)
    requires forall i | 0 <= i < |columns| :: |columns[i]| == n
    ensures |r| == n
  {
    if columns == [] then seq(n, i => 0.0)
    else AddV(SumColumns(n, columns[..|columns| - 1]), columns[|columns| - 1])
  }

  /** A likelihood table: non-negative, and under every hypothesis the outcomes sum to 1. */
  ghost predicate IsLikelihoodTable(n: nat, columns: seq<Vector>) {
    && (forall i | 0 <= i < |columns| :: |columns[i]| == n && NonNegative(columns[i]))
    && forall h | 0 <= h < n :: SumColumns(n, columns)[h] == 1.0
  }

  lemma {:induction false} TotalJoint(p: Vector, f: real)
    requires NonNegative(p) && f >= 0.0
    ensures Total(Scale(f, p), Same) == Mul(f, Total(p, Same))
  {
    if p == [] {
      assert Mul(f, 0.0) == 0.0;
    } else {
      assert Scale(f, p)[1..] == Scale(f, p[1..]);
      TotalJoint(p[1..], f);
      Distribute(f, p[0], Total(p[1..], Same));
    }
  }

  /** Pulling a positive factor out of the second argument. */
  lemma {:induction false} CrossScale(lg: real -> real, k: real, j: Vector, p: Vector, f: real)
    requires IsLog2(lg, k) && Dominates(p, j) && f > 0.0
    ensures Cross(lg, j, Scale(f, p)) == Cross(lg, j, p) + Mul(Total(j, Same), lg(f))
  {
    if j == [] {
      assert Mul(0.0, lg(f)) == 0.0;
    } else {
      assert Scale(f, p)[1..] == Scale(f, p[1..]);
      CrossScale(lg, k, j[1..], p[1..], f);
      var t := Total(j[1..], Same);
      SplitProduct(j[0], t, lg(f));
      if j[0] > 0.0 {
        assert LogAdds(lg, f, p[0]);
        Distribute(j[0], lg(f), lg(p[0]));
      } else {
        assert Mul(0.0, lg(f)) == 0.0;
      }
    }
  }

  lemma SplitProduct(x: real, y: real, z: real)
    ensures Mul(x + y, z) == Mul(x, z) + Mul(y, z)
  {
  }

  /** The entropy of a normalised vector, multiplied back by its mass. */
  lemma SharesEntropy(lg: real -> real, k: real, j: Vector, mass: real)
    requires IsLog2(lg, k) && NonNegative(j) && mass > 0.0
    ensures Mul(mass, Total(Shares(j, mass), PLog(lg))) == Total(j, PLog(lg)) - Mul(Total(j, Same), lg(mass))
  {
    forall i | 0 <= i < |j| ensures TermSplits(lg, mass, j[i]) { ShareTerm(lg, k, j[i], mass); }
    SharesAddUp(lg, j, mass);
  }

  ghost predicate TermSplits(lg: real -> real, mass: real, x: real)
    requires mass > 0.0
  {
    Mul(mass, PLog(lg)(Div(Plus(x), mass))) == PLog(lg)(x) - Mul(x, lg(mass))
  }

  lemma {:induction false} SharesAddUp(lg: real -> real, j: Vector, mass: real)
    requires mass > 0.0 && forall i | 0 <= i < |j| :: TermSplits(lg, mass, j[i])
    ensures Mul(mass, Total(Shares(j, mass), PLog(lg))) == Total(j, PLog(lg)) - Mul(Total(j, Same), lg(mass))
  {
    if j == [] {
      assert Mul(mass, 0.0) == 0.0 && Mul(0.0, lg(mass)) == 0.0;
    } else {
      var s := Shares(j, mass);
      SharesAddUp(lg, j[1..], mass);
      assert TermSplits(lg, mass, j[0]);
      FirstTerms(lg, j, mass);
      CombineShares(mass, lg(mass), PLog(lg)(s[0]), PLog(lg)(j[0]), j[0],
        Total(Shares(j[1..], mass), PLog(lg)), Total(j[1..], PLog(lg)), Total(j[1..], Same),
        Total(s, PLog(lg)), Total(j, PLog(lg)), Total(j, Same));
    }
  }

  lemma FirstTerms(lg: real -> real, j: Vector, mass: real)
    requires j != [] && mass > 0.0
    ensures Total(Shares(j, mass), PLog(lg)) ==
      PLog(lg)(Shares(j, mass)[0]) + Total(Shares(j[1..], mass), PLog(lg))
    ensures Total(j, PLog(lg)) == PLog(lg)(j[0]) + Total(j[1..], PLog(lg))
    ensures Total(j, Same) == j[0] + Total(j[1..], Same)
  {
    assert Shares(j, mass)[1..] == Shares(j[1..], mass);
  }

  /** The sums a + b, pa + pb and x + t split as their terms do. */
  lemma CombineShares(mass: real, z: real, a: real, pa: real, x: real, b: real, pb: real, t: real,
    ab: real, pab: real, xt: real)
    requires Mul(mass, a) == pa - Mul(x, z) && Mul(mass, b) == pb - Mul(t, z)
    requires ab == a + b && pab == pa + pb && xt == x + t
    ensures Mul(mass, ab) == pab - Mul(xt, z)
  {
    Distribute(mass, a, b);
    SplitProduct(x, t, z);
  }

  lemma ShareTerm(lg: real -> real, k: real, x: real, mass: real)
    requires IsLog2(lg, k) && x >= 0.0 && mass > 0.0
    ensures TermSplits(lg, mass, x)
  {
    if x > 0.0 {
      var q := Div(x, mass);
      LogOfQuotient(lg, k, x, mass);
      assert Mul(q, mass) == x;
      assert Mul(mass, Mul(q, lg(q))) == Mul(x, lg(q)) by { assert mass * (q * lg(q)) == (q * mass) * lg(q); }
      assert Mul(x, lg(x) - lg(mass)) == Mul(x, lg(x)) - Mul(x, lg(mass));
    } else {
      assert Div(0.0, mass) == 0.0;
      assert Mul(mass, 0.0) == 0.0 && Mul(0.0, lg(mass)) == 0.0;
    }
  }

  lemma JointDominated(p: Vector, l: Vector)
    requires |l| == |p| && NonNegative(p) && NonNegative(l)
    ensures Dominates(p, Times(p, l)) && NonNegative(Times(p, l))
  {
    forall i | 0 <= i < |p| ensures Mul(p[i], l[i]) >= 0.0 && (Mul(p[i], l[i]) > 0.0 ==> p[i] > 0.0) { }
  }

  lemma PossibleOutcome(lg: real -> real, p: Vector, l: Vector, j: Vector, mass: real)
    requires p != [] && |l| == |p| && j == Times(p, l) && NonNegative(j) && mass == Total(j, Same) > 0.0
    ensures OutcomeEntropy(lg, p, l) == -Mul(mass, Total(Shares(j, mass), PLog(lg)))
  {
    PosteriorOfJoint(p, l, j, mass);
    NegatedProduct(mass, Total(Shares(j, mass), PLog(lg)));
  }

  lemma PosteriorOfJoint(p: Vector, l: Vector, j: Vector, mass: real)
    requires p != [] && |l| == |p| && j == Times(p, l) && NonNegative(j) && mass == Total(j, Same) > 0.0
    ensures Posterior(p, l) == Shares(j, mass)
  {
    TotalNonNegative(j);
  }

  lemma NegatedProduct(x: real, y: real)
    ensures Mul(x, -y) == -Mul(x, y)
  {
  }

  /** Gibbs' inequality against the prior scaled to the mass of the joint vector. */
  lemma JointGibbs(lg: real -> real, k: real, p: Vector, j: Vector, mass: real)
    requires IsLog2(lg, k) && IsDistribution(p) && Dominates(p, j) && mass == Total(j, Same) > 0.0
    ensures Total(j, PLog(lg)) >= Cross(lg, j, p) + Mul(mass, lg(mass))
  {
    var q := Scale(mass, p);
    forall i | 0 <= i < |j| ensures q[i] >= 0.0 && (j[i] > 0.0 ==> q[i] > 0.0) { ProductPositive(mass, p[i]); }
    Gibbs(lg, k, j, q);
    TotalJoint(p, mass);
    assert Mul(mass, 1.0) == mass && Mul(k, 0.0) == 0.0;
    CrossScale(lg, k, j, p, mass);
  }

  /** One outcome: the entropy it leaves is at most its share of the prior's cross entropy (Gibbs). */
  lemma OutcomeBound(lg: real -> real, k: real, p: Vector, l: Vector)
    requires IsLog2(lg, k) && IsDistribution(p) && |l| == |p| && NonNegative(l)
    ensures OutcomeEntropy(lg, p, l) <= -Cross(lg, Times(p, l), p)
  {
    var j := Times(p, l);
    var mass := Total(j, Same);
    JointDominated(p, l);
    if mass > 0.0 {
      JointGibbs(lg, k, p, j, mass);
      SharesEntropy(lg, k, j, mass);
      PossibleOutcome(lg, p, l, j, mass);
    } else {
      EntryAtMostTotal(j);
      NothingCrosses(lg, j, p);
    }
  }

  lemma {:induction false} NothingCrosses(lg: real -> real, j: Vector, p: Vector)
    requires |j| == |p| && forall i | 0 <= i < |j| :: j[i] <= 0.0
    ensures Cross(lg, j, p) == 0.0
  {
    if j != [] { NothingCrosses(lg, j[1..], p[1..]); }
  }

  /** Cross terms add up over outcomes. */
  lemma {:induction false} CrossAdds(lg: real -> real, p: Vector, q: Vector, a: Vector, b: Vector)
    requires |a| == |p| && |b| == |p| && |q| == |p| && NonNegative(p) && NonNegative(a) && NonNegative(b)
    ensures Cross(lg, Times(p, AddV(a, b)), q) == Cross(lg, Times(p, a), q) + Cross(lg, Times(p, b), q)
  {
    if p != [] {
      Tails(p, AddV(a, b));
      Tails(p, a);
      Tails(p, b);
      assert AddV(a, b)[1..] == AddV(a[1..], b[1..]);
      CrossAdds(lg, p[1..], q[1..], a[1..], b[1..]);
      Distribute(p[0], a[0], b[0]);
      FactorsNonNegative(p[0], a[0]);
      FactorsNonNegative(p[0], b[0]);
      TermAdds(lg, Mul(p[0], a[0]), Mul(p[0], b[0]), q[0]);
    }
  }

  lemma FactorsNonNegative(x: real, y: real)
    requires x >= 0.0 && y >= 0.0
    ensures Mul(x, y) >= 0.0
  {
  }

  lemma Tails(p: Vector, a: Vector)
    requires |p| == |a| > 0
    ensures Times(p, a)[0] == Mul(p[0], a[0]) && Times(p, a)[1..] == Times(p[1..], a[1..])
  {
  }

  lemma TermAdds(lg: real -> real, x: real, y: real, q: real)
    requires x >= 0.0 && y >= 0.0
    ensures CrossTerm(lg, x + y, q) == CrossTerm(lg, x, q) + CrossTerm(lg, y, q)
  {
    SplitProduct(x, y, lg(q));
    assert Mul(0.0, lg(q)) == 0.0;
  }

  lemma {:induction false} ColumnsNonNegative(n: nat, columns: seq<Vector>)
    requires forall i | 0 <= i < |columns| :: |columns[i]| == n && NonNegative(columns[i])
    ensures NonNegative(SumColumns(n, columns))
  {
    if columns != [] { ColumnsNonNegative(n, columns[..|columns| - 1]); }
  }

  lemma {:induction false} ExpectedEntropyBound(lg: real -> real, k: real, p: Vector, columns: seq<Vector>)
    requires IsLog2(lg, k) && IsDistribution(p) && SameLength(p, columns)
    requires forall i | 0 <= i < |columns| :: NonNegative(columns[i])
    ensures ExpectedEntropy(lg, p, columns) <= -Cross(lg, Times(p, SumColumns(|p|, columns)), p)
  {
    if columns == [] {
      forall i | 0 <= i < |p| ensures Mul(p[i], 0.0) <= 0.0 { }
      NothingCrosses(lg, Times(p, SumColumns(|p|, columns)), p);
    } else {
      var init, last := columns[..|columns| - 1], columns[|columns| - 1];
      ExpectedEntropyBound(lg, k, p, init);
      OutcomeBound(lg, k, p, last);
      ColumnsNonNegative(|p|, init);
      CrossAdds(lg, p, p, SumColumns(|p|, init), last);
    }
  }

  lemma {:induction false} CrossOfSelf(lg: real -> real, p: Vector, ones: Vector)
    requires |ones| == |p| && forall i | 0 <= i < |p| :: ones[i] == 1.0
    ensures Cross(lg, Times(p, ones), p) == Total(p, PLog(lg))
  {
    if p != [] {
      assert Times(p, ones)[1..] == Times(p[1..], ones[1..]);
      CrossOfSelf(lg, p[1..], ones[1..]);
      assert Mul(p[0], 1.0) == p[0];
    }
  }

  /** The entropy left by any outcomes is not negative. */
  lemma {:induction false} ExpectedEntropyNonNegative(lg: real -> real, k: real, prior: Vector, columns: seq<Vector>)
    requires IsLog2(lg, k) && SameLength(prior, columns)
    ensures ExpectedEntropy(lg, prior, columns) >= 0.0
  {
    if columns != [] {
      var last := columns[|columns| - 1];
      ExpectedEntropyNonNegative(lg, k, prior, columns[..|columns| - 1]);
      var mass := Total(Times(prior, last), Same);
      if mass > 0.0 {
        NormalizeIsDistribution(Times(prior, last));
        EntropyBounds(lg, k, Posterior(prior, last));
        ProductPositive(mass, Entropy(lg, Posterior(prior, last)));
      }
    }
  }

  /** The expected information gain before clamping lies between 0 and the entropy of the belief, for every belief
      and every likelihood table: observing never costs information on average, and never yields more than is
      missing. */
  lemma GainIsNonNegative(lg: real -> real, k: real, prior: Vector, columns: seq<Vector>)
    requires IsLog2(lg, k) && IsDistribution(prior) && IsLikelihoodTable(|prior|, columns)
    ensures 0.0 <= RawGain(lg, prior, columns) <= Entropy(lg, prior)
  {
    ExpectedEntropyBound(lg, k, prior, columns);
    CrossOfSelf(lg, prior, SumColumns(|prior|, columns));
    ExpectedEntropyNonNegative(lg, k, prior, columns);
  }

  // ---- the gain, from the side of the outcomes ----

  /** The probability of each outcome before it is observed. */
  function Chances(prior: Vector, columns: seq<Vector>): (r: Vector)
    requires SameLength(prior, columns)
    ensures |r| == |columns|
  {
    if columns == [] then []
    else Chances(prior, columns[..|columns| - 1]) + [Total(Times(prior, columns[|columns| - 1]), Same)]
  }

  /** Sum of w[i] * v[i] * lg(v[i]). */
  ghost function WeightedLogs(lg: real -> real, w: Vector, v: Vector): real
    requires |w| == |v|
  {
    if w == [] then 0.0 else Mul(w[0], PLog(lg)(v[0])) + WeightedLogs(lg, w[1..], v[1..])
  }

  /** What would remain uncertain about the outcome if the hypothesis were known. */
  ghost function Noise(lg: real -> real, prior: Vector, columns: seq<Vector>): real
    requires SameLength(prior, columns)
  {
    if columns == [] then 0.0
    else Noise(lg, prior, columns[..|columns| - 1]) - WeightedLogs(lg, prior, columns[|columns| - 1])
  }

  lemma LogOfProduct(lg: real -> real, k: real, x: real, y: real)
    requires IsLog2(lg, k) && x >= 0.0 && y >= 0.0
    ensures PLog(lg)(Mul(x, y)) == Mul(y, PLog(lg)(x)) + Mul(x, PLog(lg)(y))
  {
    if x > 0.0 && y > 0.0 {
      assert LogAdds(lg, x, y);
      ProductPositive(x, y);
      ThreeFactors(x, y, lg(x), lg(y));
    } else {
      ZeroFactors(x, y, PLog(lg)(x), PLog(lg)(y));
    }
  }

  lemma ThreeFactors(x: real, y: real, a: real, b: real)
    ensures Mul(Mul(x, y), a + b) == Mul(y, Mul(x, a)) + Mul(x, Mul(y, b))
  {
    var xy := x * y;
    assert xy * (a + b) == xy * a + xy * b;
    assert xy * a == y * (x * a) && xy * b == x * (y * b);
  }

  lemma ZeroFactors(x: real, y: real, a: real, b: real)
    requires x == 0.0 || y == 0.0
    requires (x == 0.0 ==> a == 0.0) && (y == 0.0 ==> b == 0.0)
    ensures Mul(x, y) == 0.0 && Mul(y, a) == 0.0 && Mul(x, b) == 0.0
  {
  }

  lemma {:induction false} JointLogs(lg: real -> real, k: real, p: Vector, l: Vector)
    requires IsLog2(lg, k) && |p| == |l| && NonNegative(p) && NonNegative(l)
    ensures Total(Times(p, l), PLog(lg)) == WeightedLogs(lg, l, p) + WeightedLogs(lg, p, l)
  {
    if p != [] {
      Tails(p, l);
      JointLogs(lg, k, p[1..], l[1..]);
      LogOfProduct(lg, k, p[0], l[0]);
    }
  }

  lemma {:induction false} WeightsAdd(lg: real -> real, a: Vector, b: Vector, v: Vector)
    requires |a| == |b| == |v|
    ensures WeightedLogs(lg, AddV(a, b), v) == WeightedLogs(lg, a, v) + WeightedLogs(lg, b, v)
  {
    if a != [] {
      assert AddV(a, b)[1..] == AddV(a[1..], b[1..]);
      WeightsAdd(lg, a[1..], b[1..], v[1..]);
      SplitProduct(a[0], b[0], PLog(lg)(v[0]));
    }
  }

  lemma {:induction false} WeightsConstant(lg: real -> real, w: Vector, v: Vector, x: real)
    requires |w| == |v| && forall i | 0 <= i < |w| :: w[i] == x
    ensures WeightedLogs(lg, w, v) == Mul(x, Total(v, PLog(lg)))
  {
    if w == [] {
      assert Mul(x, 0.0) == 0.0;
    } else {
      WeightsConstant(lg, w[1..], v[1..], x);
      Distribute(x, PLog(lg)(v[0]), Total(v[1..], PLog(lg)));
    }
  }

  /** One outcome: the entropy it leaves, from its own probability and the joint probabilities. */
  lemma OutcomeFromJoint(lg: real -> real, k: real, p: Vector, l: Vector)
    requires IsLog2(lg, k) && p != [] && |l| == |p| && NonNegative(p) && NonNegative(l)
    ensures OutcomeEntropy(lg, p, l) ==
      PLog(lg)(Total(Times(p, l), Same)) - WeightedLogs(lg, l, p) - WeightedLogs(lg, p, l)
  {
    var j := Times(p, l);
    var mass := Total(j, Same);
    JointDominated(p, l);
    JointLogs(lg, k, p, l);
    EntryAtMostTotal(j);
    if mass > 0.0 {
      SharesEntropy(lg, k, j, mass);
      PossibleOutcome(lg, p, l, j, mass);
    } else {
      NoLogs(lg, j);
    }
  }

  lemma {:induction false} NoLogs(lg: real -> real, j: Vector)
    requires forall i | 0 <= i < |j| :: j[i] <= 0.0
    ensures Total(j, PLog(lg)) == 0.0
  {
    if j != [] { NoLogs(lg, j[1..]); }
  }

  lemma {:induction false} ExpectedFromJoint(lg: real -> real, k: real, p: Vector, columns: seq<Vector>)
    requires IsLog2(lg, k) && NonNegative(p) && SameLength(p, columns)
    requires forall i | 0 <= i < |columns| :: NonNegative(columns[i])
    ensures ExpectedEntropy(lg, p, columns) == Total(Chances(p, columns), PLog(lg))
      - WeightedLogs(lg, SumColumns(|p|, columns), p) + Noise(lg, p, columns)
  {
    if columns == [] {
      WeightsConstant(lg, SumColumns(|p|, columns), p, 0.0);
      assert Mul(0.0, Total(p, PLog(lg))) == 0.0;
    } else {
      var init, last := columns[..|columns| - 1], columns[|columns| - 1];
      ExpectedFromJoint(lg, k, p, init);
      OutcomeFromJoint(lg, k, p, last);
      WeightsAdd(lg, SumColumns(|p|, init), last, p);
      TotalSnoc(Chances(p, init), Total(Times(p, last), Same), PLog(lg));
    }
  }

  /** What an outcome is expected to tell about the hypothesis is what the hypothesis tells about the outcome: the
      entropy of the outcome minus what remains of it when the hypothesis is known. */
  lemma GainIsMutual(lg: real -> real, k: real, prior: Vector, columns: seq<Vector>)
    requires IsLog2(lg, k) && IsDistribution(prior) && IsLikelihoodTable(|prior|, columns)
    ensures RawGain(lg, prior, columns) == Entropy(lg, Chances(prior, columns)) - Noise(lg, prior, columns)
  {
    ExpectedFromJoint(lg, k, prior, columns);
    WeightsConstant(lg, SumColumns(|prior|, columns), prior, 1.0);
    assert Mul(1.0, Total(prior, PLog(lg))) == Total(prior, PLog(lg));
  }

  // ---- the two extremes of entropy and confidence ----

  /** A uniform belief has the whole logarithm as its entropy, a certain one has none. */
  lemma EntropyExtremes(lg: real -> real, k: real, n: nat, p: Vector, h: nat)
    requires IsLog2(lg, k) && n > 0
    requires h < |p| && p[h] == 1.0 && forall i | 0 <= i < |p| && i != h :: p[i] == 0.0
    ensures Entropy(lg, Uniform(n)) == lg(n as real) && Entropy(lg, p) == 0.0
  {
    var u := Uniform(n);
    UniformIsDistribution(n);
    QuotientPositive(1.0, n as real);
    CrossUniform(lg, k, u);
    CrossOfItself(lg, u);
    LogOfOne(lg, k);
    assert Mul(1.0, lg(1.0)) == 0.0;
    CertainLogs(lg, p, h);
  }

  lemma {:induction false} CrossOfItself(lg: real -> real, p: Vector)
    requires NonNegative(p)
    ensures Cross(lg, p, p) == Total(p, PLog(lg))
  {
    if p != [] { CrossOfItself(lg, p[1..]); }
  }

  lemma {:induction false} CertainLogs(lg: real -> real, p: Vector, h: nat)
    requires h < |p| && p[h] == 1.0 && Mul(1.0, lg(1.0)) == 0.0
    requires forall i | 0 <= i < |p| && i != h :: p[i] == 0.0
    ensures Total(p, PLog(lg)) == 0.0
  {
    if h == 0 {
      NoLogs(lg, p[1..]);
    } else {
      CertainLogs(lg, p[1..], h - 1);
    }
  }

  /** Over the four hypotheses confidence is the missing half of the two bits: 0 for the uniform belief, 1 for
      certainty. */
  lemma ConfidenceIsMissingEntropy(lg: real -> real, k: real, beliefs: Vector)
    requires IsLog2(lg, k) && |beliefs| == 4
    ensures lg(4.0) != 0.0 && 2.0 * Confidence(lg, beliefs) == 2.0 - Entropy(lg, Normalize(beliefs))
    ensures Normalize(beliefs) == Uniform(4) ==> Confidence(lg, beliefs) == 0.0
    ensures forall h | 0 <= h < 4 && Normalize(beliefs)[h] == 1.0 :: Confidence(lg, beliefs) == 1.0
  {
    LogOfFour(lg, k);
    NormalizeIsDistribution(beliefs);
    var p := Normalize(beliefs);
    var e0: Vector := [1.0, 0.0, 0.0, 0.0];
    EntropyExtremes(lg, k, 4, e0, 0);
    forall h | 0 <= h < 4 && p[h] == 1.0 ensures Entropy(lg, p) == 0.0 {
      OnlyOne(p, h);
      EntropyExtremes(lg, k, 4, p, h);
    }
  }

  lemma OnlyOne(p: Vector, h: nat)
    requires IsDistribution(p) && |p| == 4 && h < 4 && p[h] == 1.0
    ensures forall i | 0 <= i < 4 && i != h :: p[i] == 0.0
  {
    TotalNonNegative(p);
    PlusOfFour(p);
  }
}
