/** Beliefs over the intent hypotheses: normalisation, the Bayes update of the steering loop, and the
    log-space update of the case timeline. A belief is a vector indexed by the hypotheses, in their order
    Reconnaissance, Credential Access, Lateral Movement, Collection. */
module Bayes {
  import opened Order
  import opened Numbers

  type Vector = seq<real>

  function Plus(x: real): real { if x > 0.0 then x else 0.0 }

  function Uniform(n: nat): (u: Vector)
    requires n > 0
    ensures |u| == n && forall i | 0 <= i < n :: u[i] == 1.0 / n as real
  {
    seq(n, i => 1.0 / n as real)
  }

  // Products and quotients of variables are named, so that proofs mention exactly those they need.
  function Mul(x: real, y: real): real { x * y }
  function Div(x: real, t: real): real requires t != 0.0 { x / t }

  /** Negative entries count as zero; a vector without positive mass becomes uniform. */
  function Normalize(v: Vector): (r: Vector)
    requires v != []
    ensures |r| == |v|
  {
    if Total(v, Plus) <= 0.0 then Uniform(|v|) else Shares(v, Total(v, Plus))
  }

  function Shares(v: Vector, total: real): (r: Vector)
    requires total > 0.0
    ensures |r| == |v| && forall i | 0 <= i < |v| :: r[i] == Div(Plus(v[i]), total)
  {
    seq(|v|, i requires 0 <= i < |v| => Div(Plus(v[i]), total))
  }

  function Times(a: Vector, b: Vector): (r: Vector)
    requires |a| == |b|
    ensures |r| == |a| && forall i | 0 <= i < |a| :: r[i] == Mul(a[i], b[i])
  {
    seq(|a|, i requires 0 <= i < |a| => Mul(a[i], b[i]))
  }

  function Scale(k: real, v: Vector): (r: Vector)
    ensures |r| == |v| && forall i | 0 <= i < |v| :: r[i] == Mul(k, v[i])
  {
    seq(|v|, i requires 0 <= i < |v| => Mul(k, v[i]))
  }

  ghost predicate NonNegative(v: Vector) { forall i | 0 <= i < |v| :: v[i] >= 0.0 }

  ghost predicate AllPositive(v: Vector) { forall i | 0 <= i < |v| :: v[i] > 0.0 }

  ghost predicate IsDistribution(v: Vector) { v != [] && NonNegative(v) && Total(v, Same) == 1.0 }

  // ---- normalisation ----

  lemma ProductPositive(k: real, x: real)
    requires k > 0.0
    ensures Mul(k, x) > 0.0 <==> x > 0.0
    ensures x >= 0.0 ==> Mul(k, x) >= 0.0
  {
  }

  lemma PlusScale(k: real, x: real)
    requires k > 0.0
    ensures Plus(Mul(k, x)) == Mul(k, Plus(x))
  {
    ProductPositive(k, x);
  }

  lemma {:induction false} TotalScale(k: real, v: Vector)
    requires k > 0.0
    ensures Total(Scale(k, v), Plus) == Mul(k, Total(v, Plus))
  {
    if v != [] {
      assert Scale(k, v)[1..] == Scale(k, v[1..]);
      TotalScale(k, v[1..]);
      PlusScale(k, v[0]);
      Distribute(k, Plus(v[0]), Total(v[1..], Plus));
    }
  }

  lemma Distribute(k: real, x: real, y: real)
    ensures Mul(k, x + y) == Mul(k, x) + Mul(k, y)
  {
  }

  lemma QuotientScale(k: real, x: real, t: real)
    requires k > 0.0 && t > 0.0
    ensures Mul(k, t) > 0.0 && Div(Mul(k, x), Mul(k, t)) == Div(x, t)
  {
    var q := x / t;
    ProductPositive(k, t);
    assert q * t == x;
    assert k * x == q * (k * t);
    QuotientAtLeast(k * x, k * t, q);
  }

  /** Normalisation ignores a positive factor. */
  lemma NormalizeScale(k: real, v: Vector)
    requires k > 0.0 && v != []
    ensures Normalize(Scale(k, v)) == Normalize(v)
  {
    var t := Total(v, Plus);
    TotalScale(k, v);
    ProductPositive(k, t);
    if t > 0.0 {
      ScaledShares(k, v, t);
    }
  }

  lemma ScaledShares(k: real, v: Vector, t: real)
    requires k > 0.0 && t > 0.0 && Mul(k, t) > 0.0
    ensures Shares(Scale(k, v), Mul(k, t)) == Shares(v, t)
  {
    forall i | 0 <= i < |v| ensures Shares(Scale(k, v), Mul(k, t))[i] == Shares(v, t)[i] {
      PlusScale(k, v[i]);
      QuotientScale(k, Plus(v[i]), t);
    }
  }

  lemma {:induction false} TotalNonNegative(v: Vector)
    ensures Total(v, Plus) >= 0.0
    ensures forall i | 0 <= i < |v| :: Total(v, Plus) >= v[i]
    ensures NonNegative(v) ==> Total(v, Plus) == Total(v, Same)
  {
    if v != [] {
      TotalNonNegative(v[1..]);
      forall i | 0 <= i < |v| ensures Total(v, Plus) >= v[i] {
        if i > 0 { assert v[i] == v[1..][i - 1]; }
      }
    }
  }

  lemma {:induction false} TotalPositive(v: Vector) returns (i: nat)
    requires Total(v, Plus) > 0.0
    ensures i < |v| && v[i] > 0.0
  {
    if v[0] > 0.0 {
      i := 0;
    } else {
      var j := TotalPositive(v[1..]);
      i := j + 1;
    }
  }

  lemma {:induction false} TotalOfShares(v: Vector, t: real)
    requires t > 0.0
    ensures Total(Shares(v, t), Same) == Div(Total(v, Plus), t)
  {
    if v != [] {
      assert Shares(v, t)[1..] == Shares(v[1..], t);
      TotalOfShares(v[1..], t);
      QuotientAdds(Plus(v[0]), Total(v[1..], Plus), t);
    } else {
      assert Div(0.0, t) == 0.0;
    }
  }

  lemma QuotientAdds(x: real, y: real, t: real)
    requires t > 0.0
    ensures Div(x + y, t) == Div(x, t) + Div(y, t)
  {
    assert (x / t + y / t) * t == x + y;
    QuotientAtLeast(x + y, t, x / t + y / t);
  }

  lemma {:induction false} TotalUniform(n: nat, r: Vector, x: real)
    requires |r| == n && forall i | 0 <= i < n :: r[i] == x
    ensures Total(r, Same) == x * n as real
  {
    if n > 0 {
      TotalUniform(n - 1, r[1..], x);
      assert n as real == (n - 1) as real + 1.0;
    }
  }

  /** Normalisation always yields a distribution. */
  lemma NormalizeIsDistribution(v: Vector)
    requires v != []
    ensures IsDistribution(Normalize(v))
  {
    var t, r := Total(v, Plus), Normalize(v);
    if t > 0.0 {
      TotalOfShares(v, t);
      forall i | 0 <= i < |r| ensures r[i] >= 0.0 { QuotientAtLeast(Plus(v[i]), t, 0.0); }
      QuotientAtLeast(t, t, 1.0);
    } else {
      TotalUniform(|v|, r, 1.0 / |v| as real);
      QuotientAtLeast(1.0, |v| as real, 0.0);
    }
  }

  /** A distribution is unchanged by normalisation. */
  lemma NormalizeIdempotent(v: Vector)
    requires IsDistribution(v)
    ensures Normalize(v) == v
  {
    TotalNonNegative(v);
    assert Total(v, Plus) == 1.0;
    forall i | 0 <= i < |v| ensures Normalize(v)[i] == v[i] {
      assert Div(v[i], 1.0) == v[i];
    }
  }

  // ---- sequential and batch Bayes ----

  /** `posterior` for one observation, given the likelihood of the outcome under every hypothesis. */
  function Posterior(prior: Vector, likelihood: Vector): (r: Vector)
    requires prior != [] && |likelihood| == |prior|
    ensures |r| == |prior|
  {
    Normalize(Times(prior, likelihood))
  }

  ghost predicate SameLength(prior: Vector, ls: seq<Vector>) {
    prior != [] && forall i | 0 <= i < |ls| :: |ls[i]| == |prior|
  }

  /** Updating on the observations one after the other. */
  function Sequential(prior: Vector, ls: seq<Vector>): (r: Vector)
    requires SameLength(prior, ls)
    ensures |r| == |prior|
  {
    if ls == [] then prior else Posterior(Sequential(prior, ls[..|ls| - 1]), ls[|ls| - 1])
  }

  function Product(prior: Vector, ls: seq<Vector>): (r: Vector)
    requires SameLength(prior, ls)
    ensures |r| == |prior|
  {
    if ls == [] then prior else Times(Product(prior, ls[..|ls| - 1]), ls[|ls| - 1])
  }

  /** One normalisation of the prior times all likelihoods. */
  function Batch(prior: Vector, ls: seq<Vector>): (r: Vector)
    requires SameLength(prior, ls)
    ensures |r| == |prior|
  {
    Normalize(Product(prior, ls))
  }

  lemma {:induction false} ProductNonNegative(prior: Vector, ls: seq<Vector>)
    requires SameLength(prior, ls) && NonNegative(prior) && forall i | 0 <= i < |ls| :: NonNegative(ls[i])
    ensures NonNegative(Product(prior, ls))
  {
    if ls != [] {
      var p, l := Product(prior, ls[..|ls| - 1]), ls[|ls| - 1];
      ProductNonNegative(prior, ls[..|ls| - 1]);
      forall i | 0 <= i < |p| ensures Mul(p[i], l[i]) >= 0.0 { }
    }
  }

  lemma TimesScale(k: real, p: Vector, l: Vector)
    requires |p| == |l|
    ensures Times(Scale(k, p), l) == Scale(k, Times(p, l))
  {
    forall i | 0 <= i < |p| ensures Mul(Mul(k, p[i]), l[i]) == Mul(k, Mul(p[i], l[i])) { }
  }

  lemma NormalizeIsScale(p: Vector)
    requires p != [] && NonNegative(p) && Total(p, Plus) > 0.0
    ensures Div(1.0, Total(p, Plus)) > 0.0
    ensures Normalize(p) == Scale(Div(1.0, Total(p, Plus)), p)
  {
    var t := Total(p, Plus);
    ReciprocalPositive(t);
    forall i | 0 <= i < |p| ensures Normalize(p)[i] == Scale(Div(1.0, t), p)[i] {
      QuotientIsProduct(p[i], t);
    }
  }

  lemma ReciprocalPositive(t: real)
    requires t > 0.0
    ensures Div(1.0, t) > 0.0
  {
  }

  lemma QuotientIsProduct(x: real, t: real)
    requires t > 0.0
    ensures Div(x, t) == Mul(Div(1.0, t), x)
  {
    var r := 1.0 / t;
    assert r * t == 1.0;
    assert r * x * t == x;
    QuotientAtLeast(x, t, r * x);
  }

  /** A positive mass after one more factor was positive before it. */
  lemma MassBefore(p: Vector, l: Vector)
    requires |p| == |l| && NonNegative(p) && NonNegative(l) && Total(Times(p, l), Plus) > 0.0
    ensures Total(p, Plus) > 0.0
  {
    var i := TotalPositive(Times(p, l));
    assert Mul(p[i], l[i]) > 0.0;
    assert p[i] > 0.0;
    TotalNonNegative(p);
  }

  /** Sequential Bayes equals batch Bayes whenever the observations are jointly possible. */
  lemma {:induction false} SequentialIsBatch(prior: Vector, ls: seq<Vector>)
    requires SameLength(prior, ls) && IsDistribution(prior) && forall i | 0 <= i < |ls| :: NonNegative(ls[i])
    requires Total(Product(prior, ls), Plus) > 0.0
    ensures Sequential(prior, ls) == Batch(prior, ls)
  {
    if ls == [] {
      NormalizeIdempotent(prior);
    } else {
      var ls', l := ls[..|ls| - 1], ls[|ls| - 1];
      var p := Product(prior, ls');
      ProductNonNegative(prior, ls');
      MassBefore(p, l);
      SequentialIsBatch(prior, ls');
      NormalizeIsScale(p);
      TimesScale(Div(1.0, Total(p, Plus)), p, l);
      NormalizeScale(Div(1.0, Total(p, Plus)), Times(p, l));
    }
  }

  lemma TimesSwap(p: Vector, x: Vector, y: Vector)
    requires |p| == |x| == |y|
    ensures Times(Times(p, x), y) == Times(Times(p, y), x)
  {
    forall i | 0 <= i < |p| ensures Mul(Mul(p[i], x[i]), y[i]) == Mul(Mul(p[i], y[i]), x[i]) { }
  }

  lemma {:induction false} ProductPull(prior: Vector, a: seq<Vector>, x: Vector, b: seq<Vector>)
    requires SameLength(prior, a + [x] + b)
    ensures SameLength(prior, a + b) && |x| == |prior|
    ensures Product(prior, a + [x] + b) == Times(Product(prior, a + b), x)
    decreases |b|
  {
    var s := a + [x] + b;
    assert s[|a|] == x;
    forall i | 0 <= i < |a + b| ensures |(a + b)[i]| == |prior| {
      assert (a + b)[i] == if i < |a| then s[i] else s[i + 1];
    }
    if b == [] {
      assert s[..|s| - 1] == a && s[|s| - 1] == x && a + b == a;
    } else {
      var n := |b| - 1;
      assert s[..|s| - 1] == a + [x] + b[..n] && s[|s| - 1] == b[n];
      assert (a + b)[..|a + b| - 1] == a + b[..n] && (a + b)[|a + b| - 1] == b[n];
      ProductPull(prior, a, x, b[..n]);
      var p := Product(prior, a + b[..n]);
      TimesSwap(p, x, b[n]);
    }
  }

  lemma {:induction false} ProductPermutation(prior: Vector, ls: seq<Vector>, ms: seq<Vector>)
    requires SameLength(prior, ls) && multiset(ls) == multiset(ms)
    ensures SameLength(prior, ms) && Product(prior, ls) == Product(prior, ms)
    decreases |ls|
  {
    assert |multiset(ls)| == |ls| && |multiset(ms)| == |ms|;
    forall i | 0 <= i < |ms| ensures |ms[i]| == |prior| {
      assert ms[i] in multiset(ls);
    }
    if ls != [] {
      var a, b := PermutationTail(ls, ms);
      assert ls == [] + [ls[0]] + ls[1..] && [] + ls[1..] == ls[1..];
      ProductPull(prior, [], ls[0], ls[1..]);
      ProductPull(prior, a, ls[0], b);
      ProductPermutation(prior, ls[1..], a + b);
    }
  }

  /** The order of jointly possible observations does not matter. */
  lemma ObservationOrderIrrelevant(prior: Vector, ls: seq<Vector>, ms: seq<Vector>)
    requires SameLength(prior, ls) && IsDistribution(prior) && forall i | 0 <= i < |ls| :: NonNegative(ls[i])
    requires Total(Product(prior, ls), Plus) > 0.0 && multiset(ls) == multiset(ms)
    ensures SameLength(prior, ms) && Sequential(prior, ls) == Sequential(prior, ms)
  {
    ProductPermutation(prior, ls, ms);
    forall i | 0 <= i < |ms| ensures NonNegative(ms[i]) {
      assert ms[i] in multiset(ls);
    }
    SequentialIsBatch(prior, ls);
    SequentialIsBatch(prior, ms);
  }

  /** Strictly positive likelihoods keep every set of observations jointly possible. */
  lemma {:induction false} PositiveLikelihoodsKeepMass(prior: Vector, ls: seq<Vector>)
    requires SameLength(prior, ls) && IsDistribution(prior) && forall i | 0 <= i < |ls| :: AllPositive(ls[i])
    ensures Total(Product(prior, ls), Plus) > 0.0
  {
    TotalNonNegative(prior);
    var k := TotalPositive(prior);
    ProductKeepsPositive(prior, ls, k);
    TotalNonNegative(Product(prior, ls));
  }

  lemma {:induction false} ProductKeepsPositive(prior: Vector, ls: seq<Vector>, k: nat)
    requires SameLength(prior, ls) && k < |prior| && prior[k] > 0.0 && forall i | 0 <= i < |ls| :: AllPositive(ls[i])
    ensures Product(prior, ls)[k] > 0.0
  {
    if ls != [] {
      ProductKeepsPositive(prior, ls[..|ls| - 1], k);
      var x, y := Product(prior, ls[..|ls| - 1])[k], ls[|ls| - 1][k];
      assert Mul(x, y) > 0.0;
    }
  }

  // ---- contradictory observations ----

  /** How many observations the belief has forgotten: everything up to and including the last one that left no
      mass at all, after which `normalize` restarted from the uniform belief. */
  ghost function Forgotten(prior: Vector, ls: seq<Vector>): (k: nat)
    requires SameLength(prior, ls)
    ensures k <= |ls|
  {
    if ls == [] then 0
    else
      var n := |ls| - 1;
      if Total(Times(Sequential(prior, ls[..n]), ls[n]), Plus) > 0.0 then Forgotten(prior, ls[..n]) else |ls|
  }

  ghost function RestartFrom(prior: Vector, ls: seq<Vector>): (b: Vector)
    requires SameLength(prior, ls)
    ensures |b| == |prior|
  {
    if Forgotten(prior, ls) == 0 then prior else Uniform(|prior|)
  }

  lemma UniformIsDistribution(n: nat)
    requires n > 0
    ensures IsDistribution(Uniform(n)) && Normalize(Uniform(n)) == Uniform(n)
  {
    TotalUniform(n, Uniform(n), 1.0 / n as real);
    assert n as real * (1.0 / n as real) == 1.0;
    NormalizeIdempotent(Uniform(n));
  }

  /** One more observation on a belief that came from a positive product: its mass is positive exactly when the
      longer product's is. */
  lemma MassCarries(p: Vector, l: Vector)
    requires p != [] && |p| == |l| && NonNegative(p) && NonNegative(l) && Total(p, Plus) > 0.0
    ensures Total(Times(Normalize(p), l), Plus) > 0.0 <==> Total(Times(p, l), Plus) > 0.0
  {
    var k := Div(1.0, Total(p, Plus));
    NormalizeIsScale(p);
    TimesScale(k, p, l);
    TotalScale(k, Times(p, l));
    TimesNonNegative(p, l);
    TotalNonNegative(Times(p, l));
    var t := Total(Times(p, l), Plus);
    if t > 0.0 { ProductPositive(k, t); } else { assert Mul(k, 0.0) == 0.0; }
  }

  lemma TimesNonNegative(p: Vector, l: Vector)
    requires |p| == |l| && NonNegative(p) && NonNegative(l)
    ensures NonNegative(Times(p, l))
  {
    forall i | 0 <= i < |p| ensures Mul(p[i], l[i]) >= 0.0 { }
  }

  /** The belief is the batch belief of the observations after the last contradiction, and these are jointly
      possible from where they start. */
  ghost predicate Restarted(prior: Vector, ls: seq<Vector>)
    requires SameLength(prior, ls)
  {
    IsBatchFrom(RestartFrom(prior, ls), ls[Forgotten(prior, ls)..], Sequential(prior, ls))
  }

  ghost predicate IsBatchFrom(b: Vector, rest: seq<Vector>, belief: Vector) {
    IsDistribution(b) && SameLength(b, rest) && Total(Product(b, rest), Plus) > 0.0 && belief == Batch(b, rest)
  }

  lemma {:induction false} SequentialRestarts(prior: Vector, ls: seq<Vector>)
    requires SameLength(prior, ls) && IsDistribution(prior) && forall i | 0 <= i < |ls| :: NonNegative(ls[i])
    ensures Restarted(prior, ls)
  {
    if ls == [] {
      BatchOfNothing(prior);
    } else {
      var n := |ls| - 1;
      SequentialRestarts(prior, ls[..n]);
      assert ls == ls[..n] + [ls[n]];
      OneMoreObservation(prior, ls[..n], ls[n]);
    }
  }

  lemma OneMoreObservation(prior: Vector, ls: seq<Vector>, l: Vector)
    requires SameLength(prior, ls) && |l| == |prior| && NonNegative(l) && forall i | 0 <= i < |ls| :: NonNegative(ls[i])
    requires Restarted(prior, ls)
    ensures SameLength(prior, ls + [l]) && Restarted(prior, ls + [l])
  {
    if Total(Times(Sequential(prior, ls), l), Plus) > 0.0 {
      ContinuesWith(prior, ls, l);
    } else {
      ResetsOn(prior, ls, l);
    }
  }

  lemma ResetsOn(prior: Vector, ls: seq<Vector>, l: Vector)
    requires SameLength(prior, ls) && |l| == |prior| && Total(Times(Sequential(prior, ls), l), Plus) <= 0.0
    ensures SameLength(prior, ls + [l]) && Restarted(prior, ls + [l])
  {
    var all, u := ls + [l], Uniform(|prior|);
    ContradictionResets(prior, ls, l);
    UniformIsDistribution(|prior|);
    BatchOfNothing(u);
    assert all[|all|..] == [];
    assert IsBatchFrom(u, all[|all|..], u);
  }

  /** An impossible observation forgets everything before it. */
  lemma ContradictionResets(prior: Vector, ls: seq<Vector>, l: Vector)
    requires SameLength(prior, ls) && |l| == |prior| && Total(Times(Sequential(prior, ls), l), Plus) <= 0.0
    ensures var all := ls + [l];
      && SameLength(prior, all) && Sequential(prior, all) == Uniform(|prior|)
      && Forgotten(prior, all) == |all| && RestartFrom(prior, all) == Uniform(|prior|)
  {
    var all := ls + [l];
    assert all[..|all| - 1] == ls;
  }

  lemma ContinuesWith(prior: Vector, ls: seq<Vector>, l: Vector)
    requires SameLength(prior, ls) && |l| == |prior| && NonNegative(l) && forall i | 0 <= i < |ls| :: NonNegative(ls[i])
    requires Restarted(prior, ls) && Total(Times(Sequential(prior, ls), l), Plus) > 0.0
    ensures SameLength(prior, ls + [l]) && Restarted(prior, ls + [l])
  {
    var all, k := ls + [l], Forgotten(prior, ls);
    PossibleContinues(prior, ls, l);
    StillBatch(RestartFrom(prior, ls), ls, k, Sequential(prior, ls), l);
    assert IsBatchFrom(RestartFrom(prior, ls), all[k..], Sequential(prior, all));
  }

  lemma StillBatch(b: Vector, ls: seq<Vector>, k: nat, belief: Vector, l: Vector)
    requires k <= |ls| && forall i | 0 <= i < |ls| :: NonNegative(ls[i])
    requires IsBatchFrom(b, ls[k..], belief) && |l| == |b| == |belief| && NonNegative(l)
    requires Total(Times(belief, l), Plus) > 0.0
    ensures IsBatchFrom(b, (ls + [l])[k..], Posterior(belief, l))
  {
    var rest := ls[k..];
    forall i | 0 <= i < |rest| ensures NonNegative(rest[i]) { assert rest[i] == ls[k + i]; }
    BatchSnoc(b, rest, belief, l);
    assert (ls + [l])[k..] == rest + [l];
  }

  /** A possible observation updates the belief and forgets nothing. */
  lemma PossibleContinues(prior: Vector, ls: seq<Vector>, l: Vector)
    requires SameLength(prior, ls) && |l| == |prior| && Total(Times(Sequential(prior, ls), l), Plus) > 0.0
    ensures var all := ls + [l];
      && SameLength(prior, all) && Sequential(prior, all) == Posterior(Sequential(prior, ls), l)
      && Forgotten(prior, all) == Forgotten(prior, ls) && RestartFrom(prior, all) == RestartFrom(prior, ls)
  {
    var all := ls + [l];
    assert all[..|all| - 1] == ls;
  }

  lemma BatchOfNothing(b: Vector)
    requires IsDistribution(b)
    ensures IsBatchFrom(b, [], b)
  {
    TotalNonNegative(b);
    NormalizeIdempotent(b);
  }

  /** Updating a batch belief on one more possible observation is the longer batch. */
  lemma BatchSnoc(b: Vector, s: seq<Vector>, belief: Vector, l: Vector)
    requires IsBatchFrom(b, s, belief) && |l| == |b| && NonNegative(l) && forall i | 0 <= i < |s| :: NonNegative(s[i])
    requires Total(Times(belief, l), Plus) > 0.0
    ensures IsBatchFrom(b, s + [l], Posterior(belief, l))
  {
    assert (s + [l])[..|s|] == s;
    var p := Product(b, s);
    ProductNonNegative(b, s);
    MassCarries(p, l);
    NormalizeIsScale(p);
    TimesScale(Div(1.0, Total(p, Plus)), p, l);
    NormalizeScale(Div(1.0, Total(p, Plus)), Times(p, l));
  }

  ghost predicate AllEqual(v: Vector) { forall i, j | 0 <= i < |v| && 0 <= j < |v| :: v[i] == v[j] }

  lemma UniformIffEqual(v: Vector)
    requires v != [] && NonNegative(v) && Total(v, Plus) > 0.0
    ensures Normalize(v) == Uniform(|v|) <==> AllEqual(v)
  {
    if AllEqual(v) { EqualSharesAreUniform(v); }
    if Normalize(v) == Uniform(|v|) {
      forall i, j | 0 <= i < |v| && 0 <= j < |v| ensures v[i] == v[j] {
        assert Normalize(v)[i] == Normalize(v)[j];
        TimesQuotient(v[i], Total(v, Plus));
        TimesQuotient(v[j], Total(v, Plus));
      }
    }
  }

  lemma EqualSharesAreUniform(v: Vector)
    requires v != [] && AllEqual(v) && Total(v, Plus) > 0.0
    ensures Normalize(v) == Uniform(|v|)
  {
    NormalizeIsDistribution(v);
    assert AllEqual(Normalize(v));
    ConstantDistribution(Normalize(v));
  }

  lemma ConstantDistribution(r: Vector)
    requires IsDistribution(r) && AllEqual(r)
    ensures r == Uniform(|r|)
  {
    TotalUniform(|r|, r, r[0]);
    ReciprocalOf(|r| as real, r[0]);
  }

  lemma ReciprocalOf(n: real, x: real)
    requires n > 0.0 && x * n == 1.0
    ensures x == 1.0 / n
  {
  }

  lemma {:induction false} ZeroMassStays(prior: Vector, ls: seq<Vector>)
    requires SameLength(prior, ls) && IsDistribution(prior) && forall i | 0 <= i < |ls| :: NonNegative(ls[i])
    ensures Total(Product(prior, ls), Plus) > 0.0 <==> Forgotten(prior, ls) == 0
  {
    SequentialRestarts(prior, ls);
    if Forgotten(prior, ls) == 0 {
      assert ls[0..] == ls;
    }
    if Total(Product(prior, ls), Plus) > 0.0 && ls != [] {
      var n := |ls| - 1;
      ProductNonNegative(prior, ls[..n]);
      MassBefore(Product(prior, ls[..n]), ls[n]);
      ZeroMassStays(prior, ls[..n]);
      SequentialIsBatch(prior, ls[..n]);
      MassCarries(Product(prior, ls[..n]), ls[n]);
    }
  }

  /** Sequential and batch Bayes agree exactly when no observation ever contradicts the belief, or when what came
      after the last contradiction says nothing (the same for every hypothesis). */
  lemma SequentialIsBatchExactly(prior: Vector, ls: seq<Vector>)
    requires SameLength(prior, ls) && IsDistribution(prior) && forall i | 0 <= i < |ls| :: NonNegative(ls[i])
    ensures SameLength(Uniform(|prior|), ls[Forgotten(prior, ls)..])
    ensures Sequential(prior, ls) == Batch(prior, ls) <==>
      Forgotten(prior, ls) == 0 || AllEqual(Product(Uniform(|prior|), ls[Forgotten(prior, ls)..]))
  {
    SequentialRestarts(prior, ls);
    ZeroMassStays(prior, ls);
    var k := Forgotten(prior, ls);
    if k == 0 {
      SequentialIsBatch(prior, ls);
    } else {
      UniformIsDistribution(|prior|);
      ProductNonNegative(Uniform(|prior|), ls[k..]);
      UniformIffEqual(Product(Uniform(|prior|), ls[k..]));
    }
  }

  /** One vector is a positive multiple of the other. */
  ghost predicate Proportional(a: Vector, b: Vector) { exists k: real :: k > 0.0 && b == Scale(k, a) }

  lemma QuotientSwap(x: real, s: real, t: real)
    requires t > 0.0 && s > 0.0
    ensures Mul(Div(x, t), s) == Mul(Div(s, t), x) && Div(s, t) > 0.0
  {
    QuotientIsProduct(x, t);
    QuotientIsProduct(s, t);
    ReciprocalPositive(t);
    ProductPositive(Div(1.0, t), s);
    assert Mul(Mul(Div(1.0, t), x), s) == Mul(Mul(Div(1.0, t), s), x);
  }

  /** Two vectors with mass normalise to one belief exactly when they are proportional. */
  lemma SameBeliefIffProportional(a: Vector, b: Vector)
    requires a != [] && |a| == |b| && NonNegative(a) && NonNegative(b)
    requires Total(a, Plus) > 0.0 && Total(b, Plus) > 0.0
    ensures Normalize(a) == Normalize(b) <==> Proportional(a, b)
  {
    var s, t := Total(b, Plus), Total(a, Plus);
    if Normalize(a) == Normalize(b) {
      forall i | 0 <= i < |a| ensures b[i] == Mul(Div(s, t), a[i]) {
        assert Normalize(a)[i] == Normalize(b)[i];
        TimesQuotient(b[i], s);
        QuotientSwap(a[i], s, t);
      }
      assert b == Scale(Div(s, t), a);
      QuotientSwap(1.0, s, t);
    }
    if k: real :| k > 0.0 && b == Scale(k, a) { NormalizeScale(k, a); }
  }

  /** Two orders of the same observations give the same belief exactly when the observations are jointly possible
      or what follows the last contradiction is proportional in both orders. */
  lemma OrdersAgreeExactly(prior: Vector, ls: seq<Vector>, ms: seq<Vector>)
    requires SameLength(prior, ls) && IsDistribution(prior) && forall i | 0 <= i < |ls| :: NonNegative(ls[i])
    requires multiset(ls) == multiset(ms)
    ensures SameLength(prior, ms) && SameLength(Uniform(|prior|), ls[Forgotten(prior, ls)..])
    ensures SameLength(Uniform(|prior|), ms[Forgotten(prior, ms)..])
    ensures Sequential(prior, ls) == Sequential(prior, ms) <==>
      || Total(Product(prior, ls), Plus) > 0.0
      || Proportional(Product(Uniform(|prior|), ls[Forgotten(prior, ls)..]),
                      Product(Uniform(|prior|), ms[Forgotten(prior, ms)..]))
  {
    ProductPermutation(prior, ls, ms);
    forall i | 0 <= i < |ms| ensures NonNegative(ms[i]) { assert ms[i] in multiset(ls); }
    ZeroMassStays(prior, ls);
    ZeroMassStays(prior, ms);
    if Total(Product(prior, ls), Plus) > 0.0 {
      ObservationOrderIrrelevant(prior, ls, ms);
    } else {
      SequentialRestarts(prior, ls);
      SequentialRestarts(prior, ms);
      var u, l, m := Uniform(|prior|), ls[Forgotten(prior, ls)..], ms[Forgotten(prior, ms)..];
      ProductNonNegative(u, l);
      ProductNonNegative(u, m);
      SameBeliefIffProportional(Product(u, l), Product(u, m));
    }
  }

  /** Certainty of hypothesis `h` of four. */
  function Certain(h: nat): (v: Vector)
    requires h < 4
    ensures |v| == 4 && forall i | 0 <= i < 4 :: v[i] == if i == h then 1.0 else 0.0
  {
    [if h == 0 then 1.0 else 0.0, if h == 1 then 1.0 else 0.0, if h == 2 then 1.0 else 0.0, if h == 3 then 1.0 else 0.0]
  }

  lemma PlusOfFour(u: Vector)
    requires |u| == 4
    ensures Total(u, Plus) == Plus(u[0]) + Plus(u[1]) + Plus(u[2]) + Plus(u[3])
  {
    var a, b, c := u[1..], u[2..], u[3..];
    assert a[1..] == b && b[1..] == c && c[1..] == [];
    assert Total(c, Plus) == Plus(u[3]) + Total(c[1..], Plus);
    assert Total(b, Plus) == Plus(u[2]) + Total(c, Plus);
    assert Total(a, Plus) == Plus(u[1]) + Total(b, Plus);
  }

  /** A belief with some mass on `h`, updated on evidence for `h` alone, becomes certain of it. */
  lemma BecomesCertain(prior: Vector, h: nat)
    requires |prior| == 4 && h < 4 && prior[h] > 0.0
    ensures Posterior(prior, Certain(h)) == Certain(h)
  {
    var u := Times(prior, Certain(h));
    forall i | 0 <= i < 4 ensures u[i] == if i == h then prior[h] else 0.0 {
      assert Mul(prior[i], 1.0) == prior[i] && Mul(prior[i], 0.0) == 0.0;
    }
    PlusOfFour(u);
    assert Total(u, Plus) == prior[h];
    forall i | 0 <= i < 4 ensures Normalize(u)[i] == Certain(h)[i] {
      QuotientsBy(prior[h]);
    }
  }

  /** Evidence for another hypothesis alone leaves no mass, and the belief restarts. */
  lemma Contradicted(h: nat, g: nat)
    requires h < 4 && g < 4 && g != h
    ensures Times(Certain(h), Certain(g)) == [0.0, 0.0, 0.0, 0.0]
    ensures Posterior(Certain(h), Certain(g)) == Uniform(4)
  {
    var u := Times(Certain(h), Certain(g));
    forall i | 0 <= i < 4 ensures u[i] == 0.0 {
      assert Mul(1.0, 0.0) == 0.0 && Mul(0.0, 1.0) == 0.0 && Mul(0.0, 0.0) == 0.0;
    }
    PlusOfFour(u);
  }

  lemma QuotientsBy(x: real)
    requires x > 0.0
    ensures Div(x, x) == 1.0 && Div(0.0, x) == 0.0
  {
  }

  lemma SequentialSnoc(prior: Vector, ls: seq<Vector>, l: Vector)
    requires SameLength(prior, ls) && |l| == |prior|
    ensures SameLength(prior, ls + [l]) && Sequential(prior, ls + [l]) == Posterior(Sequential(prior, ls), l)
  {
    assert (ls + [l])[..|ls + [l]| - 1] == ls;
  }

  /** One more observation, from a known belief to a known belief. */
  lemma BeliefStep(prior: Vector, ls: seq<Vector>, l: Vector, all: seq<Vector>, before: Vector, after: Vector)
    requires SameLength(prior, ls) && |l| == |prior| && all == ls + [l]
    requires Sequential(prior, ls) == before && Posterior(before, l) == after
    ensures SameLength(prior, all) && Sequential(prior, all) == after
  {
    SequentialSnoc(prior, ls, l);
  }

  /** Without positivity the order matters: over the four hypotheses and the uniform prior, two reports for one
      hypothesis and one for another end in certainty or in ignorance, depending on which comes last. */
  lemma ContradictoryObservationsDependOnOrder()
    ensures var u, a, b := Uniform(4), Certain(0), Certain(1);
      Sequential(u, [a, b, a]) == Certain(0) && Sequential(u, [a, a, b]) == u && u != Certain(0)
  {
    var u, a, b := Uniform(4), Certain(0), Certain(1);
    BecomesCertain(u, 0);
    BecomesCertain(a, 0);
    Contradicted(0, 1);
    BeliefStep(u, [], a, [a], u, a);
    BeliefStep(u, [a], b, [a, b], a, u);
    BeliefStep(u, [a, b], a, [a, b, a], u, a);
    BeliefStep(u, [a], a, [a, a], a, a);
    BeliefStep(u, [a, a], b, [a, a, b], a, u);
    assert u[1] == 0.25 && Certain(0)[1] == 0.0;
  }

  // ---- aegis/belief.py: update_beliefs ----

  const FLOOR: real := 0.000000001

  /** `EVENT_LIKELIHOODS.get(event_type)`. */
  function EventLikelihood(eventType: string): (l: Option<Vector>)
    ensures l.Some? ==> |l.value| == 4 && forall i | 0 <= i < 4 :: 0.02 <= l.value[i] <= 0.80
  {
    if eventType == "network_scan" then Some([0.80, 0.10, 0.07, 0.03])
    else if eventType == "ssh_login_failure" then Some([0.18, 0.65, 0.14, 0.03])
    else if eventType == "admin_route_probe" then Some([0.33, 0.46, 0.15, 0.06])
    else if eventType == "synthetic_credential_opened" then Some([0.05, 0.72, 0.16, 0.07])
    else if eventType == "decoy_service_pivot" then Some([0.04, 0.13, 0.75, 0.08])
    else if eventType == "synthetic_archive_requested" then Some([0.02, 0.06, 0.15, 0.77])
    else None
  }

  function AtLeastFloor(x: real): (r: real)
    ensures r >= FLOOR && (x >= FLOOR ==> r == x)
  {
    if x > FLOOR then x else FLOOR
  }

  function Floored(v: Vector): (r: Vector)
    ensures |r| == |v| && forall i | 0 <= i < |v| :: r[i] == AtLeastFloor(v[i])
  {
    seq(|v|, i requires 0 <= i < |v| => AtLeastFloor(v[i]))
  }

  /** The exponential and the natural logarithm, by the laws the update relies on. */
  ghost predicate IsExpLog(exp: real -> real, ln: real -> real) {
    && (forall a :: exp(a) > 0.0)
    && (forall a, b :: ExpAdds(exp, a, b))
    && (forall x :: ExpUndoesLn(exp, ln, x))
  }

  ghost predicate ExpAdds(exp: real -> real, a: real, b: real) { exp(a + b) == Mul(exp(a), exp(b)) }

  ghost predicate ExpUndoesLn(exp: real -> real, ln: real -> real, x: real) { x > 0.0 ==> exp(ln(x)) == x }

  function MaxOf(v: Vector): real
    requires v != []
  {
    if |v| == 1 then v[0] else
      var m := MaxOf(v[1..]);
      if v[0] >= m then v[0] else m
  }

  /** The program: log scores, shifted by their maximum, exponentiated, normalised. */
  function UpdateBeliefs(exp: real -> real, ln: real -> real, prior: Vector, eventType: string): (r: Vector)
    requires |prior| == 4
    ensures |r| == 4
  {
    match EventLikelihood(eventType)
    case None => Normalize(prior)
    case Some(likelihood) =>
      var p, l := Floored(prior), Floored(likelihood);
      var scores := seq(4, i requires 0 <= i < 4 => ln(p[i]) + ln(l[i]));
      var maximum := MaxOf(scores);
      Normalize(seq(4, i requires 0 <= i < 4 => exp(scores[i] - maximum)))
  }

  /** The reading without logarithms: floored prior times likelihood, normalised. */
  function DirectUpdate(prior: Vector, eventType: string): (r: Vector)
    requires |prior| == 4
    ensures |r| == 4
  {
    match EventLikelihood(eventType)
    case None => Normalize(prior)
    case Some(likelihood) => Normalize(Times(Floored(prior), likelihood))
  }

  lemma ShiftedScore(exp: real -> real, ln: real -> real, p: real, l: real, m: real)
    requires IsExpLog(exp, ln) && p > 0.0 && l > 0.0
    ensures exp(ln(p) + ln(l) - m) == Mul(exp(-m), Mul(p, l))
  {
    var s := ln(p) + ln(l);
    assert ExpAdds(exp, ln(p), ln(l)) && ExpUndoesLn(exp, ln, p) && ExpUndoesLn(exp, ln, l);
    assert exp(s) == Mul(p, l);
    assert ExpAdds(exp, s, -m) && s - m == s + -m;
    assert exp(s - m) == Mul(exp(s), exp(-m));
  }

  lemma ShiftedIsScaled(exp: real -> real, ln: real -> real, p: Vector, l: Vector, scores: Vector, m: real)
    requires IsExpLog(exp, ln) && |p| == |l| == |scores| == 4 && AllPositive(p) && AllPositive(l)
    requires forall i | 0 <= i < 4 :: scores[i] == ln(p[i]) + ln(l[i])
    ensures seq(4, i requires 0 <= i < 4 => exp(scores[i] - m)) == Scale(exp(-m), Times(p, l))
  {
    forall i | 0 <= i < 4 ensures exp(scores[i] - m) == Scale(exp(-m), Times(p, l))[i] {
      ShiftedScore(exp, ln, p[i], l[i], m);
    }
  }

  /** The max-shifted log form computes the plain product form, for every prior and every event type. */
  lemma LogFormIsProductForm(exp: real -> real, ln: real -> real, prior: Vector, eventType: string)
    requires IsExpLog(exp, ln) && |prior| == 4
    ensures UpdateBeliefs(exp, ln, prior, eventType) == DirectUpdate(prior, eventType)
  {
    match EventLikelihood(eventType)
    case None =>
    case Some(likelihood) =>
      var p, l := Floored(prior), Floored(likelihood);
      assert l == likelihood;
      var scores := seq(4, i requires 0 <= i < 4 => ln(p[i]) + ln(l[i]));
      var m := MaxOf(scores);
      ShiftedIsScaled(exp, ln, p, l, scores, m);
      NormalizeScale(exp(-m), Times(p, l));
  }

  // ---- when do two timeline updates commute? ----

  /** The mass before the normalisation of one update. */
  function Mass(prior: Vector, l: Vector): real
    requires |l| == |prior|
  {
    Total(Times(Floored(prior), l), Plus)
  }

  ghost predicate IsEventLikelihood(l: Vector) {
    |l| == 4 && forall i | 0 <= i < 4 :: 0.02 <= l[i] <= 0.80
  }

  function Update(prior: Vector, l: Vector): (r: Vector)
    requires prior != [] && |l| == |prior|
    ensures |r| == |prior|
  {
    Normalize(Times(Floored(prior), l))
  }

  lemma UpdateEntries(prior: Vector, l: Vector)
    requires |prior| == 4 && IsEventLikelihood(l)
    ensures AllPositive(Times(Floored(prior), l)) && Mass(prior, l) > 0.0
    ensures Update(prior, l) == Shares(Times(Floored(prior), l), Mass(prior, l))
  {
    var c, u := Floored(prior), Times(Floored(prior), l);
    forall i | 0 <= i < 4 ensures u[i] > 0.0 { ProductPositive(c[i], l[i]); }
    TotalNonNegative(u);
    assert u[0] > 0.0;
  }

  /** Two positive vectors normalise to the same belief exactly when they are proportional. */
  lemma NormalizeEqual(a: Vector, b: Vector)
    requires a != [] && |a| == |b| && AllPositive(a) && AllPositive(b)
    ensures Total(a, Plus) > 0.0 && Total(b, Plus) > 0.0
    ensures Normalize(a) == Normalize(b) <==>
      forall i | 0 <= i < |a| :: Mul(a[i], Total(b, Plus)) == Mul(b[i], Total(a, Plus))
  {
    TotalNonNegative(a);
    TotalNonNegative(b);
    assert a[0] > 0.0 && b[0] > 0.0;
    var s, t := Total(a, Plus), Total(b, Plus);
    forall i | 0 <= i < |a| ensures Normalize(a)[i] == Normalize(b)[i] <==> Mul(a[i], t) == Mul(b[i], s) {
      CrossMultiply(a[i], s, b[i], t);
    }
  }

  lemma CrossMultiply(x: real, s: real, y: real, t: real)
    requires s > 0.0 && t > 0.0
    ensures Div(x, s) == Div(y, t) <==> Mul(x, t) == Mul(y, s)
  {
    var p, q := Div(x, s), Div(y, t);
    TimesQuotient(x, s);
    TimesQuotient(y, t);
    Regroup(p, s, t);
    Regroup(q, t, s);
    ProductPositive(s, t);
    CancelIff(p, q, Mul(s, t));
  }

  lemma TimesQuotient(x: real, s: real)
    requires s > 0.0
    ensures Mul(Div(x, s), s) == x
  {
  }

  lemma Regroup(p: real, s: real, t: real)
    ensures Mul(Mul(p, s), t) == Mul(p, Mul(s, t)) && Mul(s, t) == Mul(t, s)
  {
  }

  lemma CancelIff(p: real, q: real, w: real)
    requires w > 0.0
    ensures Mul(p, w) == Mul(q, w) <==> p == q
  {
    if p != q { Cancel(p, q, w); }
  }

  lemma Cancel(p: real, q: real, k: real)
    requires k > 0.0 && p != q
    ensures p * k != q * k
  {
    assert (p - q) * k != 0.0;
  }

  /** Proportional vectors whose ratio is known at one index have that ratio everywhere. */
  lemma RatioFromAnchor(a: Vector, b: Vector, y: real, z: real, k: nat)
    requires |a| == |b| && k < |a| && AllPositive(a) && AllPositive(b) && y > 0.0 && z > 0.0
    requires Mul(a[k], y) == Mul(b[k], z)
    ensures Total(a, Plus) > 0.0 && Total(b, Plus) > 0.0
    ensures Normalize(a) == Normalize(b) <==> forall i | 0 <= i < |a| :: Mul(a[i], y) == Mul(b[i], z)
  {
    NormalizeEqual(a, b);
    var s, t := Total(a, Plus), Total(b, Plus);
    if Normalize(a) == Normalize(b) {
      forall i | 0 <= i < |a| ensures Mul(a[i], y) == Mul(b[i], z) {
        assert Mul(a[i], t) == Mul(b[i], s) && Mul(a[k], t) == Mul(b[k], s);
        SameRatio(a[k], b[k], a[i], b[i], s, t, y, z);
      }
    }
    if forall i | 0 <= i < |a| :: Mul(a[i], y) == Mul(b[i], z) {
      assert Scale(y, a) == Scale(z, b) by {
        forall i | 0 <= i < |a| ensures Mul(y, a[i]) == Mul(z, b[i]) { assert Mul(a[i], y) == Mul(b[i], z); }
      }
      NormalizeScale(y, a);
      NormalizeScale(z, b);
    }
  }

  lemma SameRatio(ak: real, bk: real, ai: real, bi: real, s: real, t: real, y: real, z: real)
    requires ak > 0.0 && bk > 0.0 && s > 0.0 && t > 0.0 && y > 0.0 && z > 0.0
    requires Mul(ak, y) == Mul(bk, z) && Mul(ak, t) == Mul(bk, s) && Mul(ai, t) == Mul(bi, s)
    ensures Mul(ai, y) == Mul(bi, z)
  {
    var q := bk / ak;
    assert q * ak == bk;
    Cancelled(ak, y, q * z);
    Cancelled(ak, t, q * s);
    assert y == q * z && t == q * s;
    Cancelled(s, ai * q, bi);
  }

  lemma Cancelled(k: real, x: real, y: real)
    requires k > 0.0 && k * x == k * y
    ensures x == y
  {
    if x != y { Cancel(x, y, k); }
  }

  /** The weighted belief of a hypothesis is less than the floor's share of the mass. */
  ghost predicate Clamped(prior: Vector, l: Vector, i: nat)
    requires |l| == |prior| && i < |prior|
  {
    Mul(AtLeastFloor(prior[i]), l[i]) < FLOOR * Mass(prior, l)
  }

  /** Exactly then the update leaves an entry that the next update will lift to the floor. */
  lemma ClampedFallsBelow(prior: Vector, l: Vector, i: nat)
    requires |prior| == 4 && IsEventLikelihood(l) && i < 4
    ensures Clamped(prior, l, i) <==> Update(prior, l)[i] < FLOOR
  {
    UpdateEntries(prior, l);
    var u := Times(Floored(prior), l)[i];
    assert u == Mul(AtLeastFloor(prior[i]), l[i]) && Plus(u) == u;
    QuotientAtLeast(u, Mass(prior, l), FLOOR);
  }

  /** After either of two updates the floor lifts the same hypotheses, and in proportion to the likelihoods. */
  ghost predicate SameClamping(prior: Vector, l: Vector, m: Vector)
    requires |prior| == 4 && IsEventLikelihood(l) && IsEventLikelihood(m)
  {
    forall i | 0 <= i < 4 ::
      && Clamped(prior, l, i) == Clamped(prior, m, i)
      && (Clamped(prior, l, i) ==> Mul(Mass(prior, l), m[i]) == Mul(Mass(prior, m), l[i]))
  }

  /** Entry `i` of the second factor, multiplied back by the mass of the first update. */
  lemma SecondFactor(prior: Vector, l: Vector, m: Vector, i: nat)
    requires |prior| == 4 && IsEventLikelihood(l) && IsEventLikelihood(m) && i < 4
    ensures var f := Times(Floored(Update(prior, l)), m);
      && f[i] > 0.0
      && Mul(f[i], Mass(prior, l)) == if Clamped(prior, l, i) then Mul(FLOOR, Mul(Mass(prior, l), m[i]))
                                       else Mul(AtLeastFloor(prior[i]), Mul(l[i], m[i]))
    ensures Clamped(prior, l, i) ==>
      Mul(AtLeastFloor(prior[i]), Mul(l[i], m[i])) < Mul(FLOOR, Mul(Mass(prior, l), m[i]))
  {
    UpdateEntries(prior, l);
    ClampedFallsBelow(prior, l, i);
    var c, z := AtLeastFloor(prior[i]), Mass(prior, l);
    var u := Times(Floored(prior), l)[i];
    var q := Update(prior, l)[i];
    assert u == Mul(c, l[i]) && Plus(u) == u;
    assert q == u / z && q * z == u;
    ProductPositive(m[i], AtLeastFloor(q));
    SecondFactorArithmetic(c, l[i], m[i], z, q);
  }

  lemma SecondFactorArithmetic(c: real, l: real, m: real, z: real, q: real)
    requires z > 0.0 && m > 0.0 && q * z == c * l
    ensures q >= FLOOR ==> Mul(Mul(AtLeastFloor(q), m), z) == Mul(c, Mul(l, m))
    ensures q < FLOOR ==> Mul(Mul(AtLeastFloor(q), m), z) == Mul(FLOOR, Mul(z, m))
    ensures q < FLOOR ==> Mul(c, Mul(l, m)) < Mul(FLOOR, Mul(z, m))
  {
    assert c * (l * m) == q * (z * m);
    if q >= FLOOR {
      assert q * m * z == q * (z * m);
    } else {
      assert FLOOR * m * z == FLOOR * (z * m);
      ProductPositive(z, m);
      assert (FLOOR - q) * (z * m) > 0.0;
    }
  }

  /** The strongest hypothesis is never clamped by a single update. */
  lemma SomeEntryNeverClamped(prior: Vector) returns (k: nat)
    requires |prior| == 4
    ensures k < 4 && forall l | IsEventLikelihood(l) :: !Clamped(prior, l, k)
  {
    var c := Floored(prior);
    k := if c[0] >= c[1] && c[0] >= c[2] && c[0] >= c[3] then 0
         else if c[1] >= c[2] && c[1] >= c[3] then 1 else if c[2] >= c[3] then 2 else 3;
    forall l | IsEventLikelihood(l) ensures !Clamped(prior, l, k) {
      UpdateEntries(prior, l);
      var u := Times(c, l);
      forall i | 0 <= i < 4 ensures u[i] <= 0.80 * c[k] { EntryBound(c[i], c[k], l[i]); }
      TotalOfFour(u);
      AnchorShare(c[k], l[k], Total(u, Plus));
    }
  }

  lemma TotalOfFour(u: Vector)
    requires |u| == 4 && AllPositive(u)
    ensures Total(u, Plus) == u[0] + u[1] + u[2] + u[3]
  {
    PlusOfFour(u);
  }

  lemma EntryBound(x: real, top: real, l: real)
    requires 0.0 < x <= top && 0.02 <= l <= 0.80
    ensures Mul(x, l) <= 0.80 * top
  {
  }

  lemma AnchorShare(x: real, l: real, z: real)
    requires 0.0 < x && 0.02 <= l && 0.0 < z <= 3.2 * x
    ensures Mul(x, l) >= FLOOR * z
  {
    assert Mul(x, l) >= 0.02 * x;
  }

  /** Two recognised events commute exactly when the floor touches the two intermediate beliefs alike: every
      hypothesis is clamped after neither event, or after both and then by the same factor. The condition reads the
      prior and the two likelihoods only. */
  lemma EventsCommute(prior: Vector, l: Vector, m: Vector)
    requires |prior| == 4 && IsEventLikelihood(l) && IsEventLikelihood(m)
    ensures Update(Update(prior, l), m) == Update(Update(prior, m), l) <==> SameClamping(prior, l, m)
  {
    var a, b := Times(Floored(Update(prior, l)), m), Times(Floored(Update(prior, m)), l);
    var y, z := Mass(prior, l), Mass(prior, m);
    UpdateEntries(prior, l);
    UpdateEntries(prior, m);
    var k := SomeEntryNeverClamped(prior);
    forall i | 0 <= i < 4
      ensures a[i] > 0.0 && b[i] > 0.0
      ensures Mul(a[i], y) == Mul(b[i], z) <==>
        && Clamped(prior, l, i) == Clamped(prior, m, i)
        && (Clamped(prior, l, i) ==> Mul(y, m[i]) == Mul(z, l[i]))
    {
      SecondFactor(prior, l, m, i);
      SecondFactor(prior, m, l, i);
      assert Mul(l[i], m[i]) == Mul(m[i], l[i]);
      if Mul(FLOOR, Mul(y, m[i])) == Mul(FLOOR, Mul(z, l[i])) {
        Cancelled(FLOOR, Mul(y, m[i]), Mul(z, l[i]));
      }
    }
    RatioFromAnchor(a, b, y, z, k);
  }

  /** When two timeline events of any kind commute: two recognised ones by the clamping condition, an unrecognised
      one when normalising first does not shift what the floor lifts. */
  ghost predicate Commutable(prior: Vector, e: string, f: string)
    requires |prior| == 4
  {
    match (EventLikelihood(e), EventLikelihood(f))
    case (Some(l), Some(m)) => SameClamping(prior, l, m)
    case (None, None) => true
    case _ => Proportional(Floored(Normalize(prior)), Floored(prior))
  }

  /** For every prior and every pair of event types, recognised or not. */
  lemma TimelineEventsCommute(prior: Vector, e: string, f: string)
    requires |prior| == 4
    ensures DirectUpdate(DirectUpdate(prior, e), f) == DirectUpdate(DirectUpdate(prior, f), e) <==>
      Commutable(prior, e, f)
    ensures IsDistribution(prior) && (EventLikelihood(e).None? || EventLikelihood(f).None?) ==> Commutable(prior, e, f)
  {
    var le, lf := EventLikelihood(e), EventLikelihood(f);
    if le.Some? && lf.Some? {
      EventsCommute(prior, le.value, lf.value);
    } else {
      if le.Some? { UnknownThenKnown(prior, le.value); }
      if lf.Some? { UnknownThenKnown(prior, lf.value); }
      if IsDistribution(prior) {
        NormalizeIdempotent(prior);
        ProportionalToItself(Floored(prior));
      }
    }
  }

  lemma ProportionalToItself(v: Vector)
    ensures Proportional(v, v)
  {
    forall i | 0 <= i < |v| ensures Mul(1.0, v[i]) == v[i] { }
    assert v == Scale(1.0, v);
  }

  lemma UnknownThenKnown(prior: Vector, l: Vector)
    requires |prior| == 4 && IsEventLikelihood(l)
    ensures Normalize(Update(prior, l)) == Update(prior, l)
    ensures Update(Normalize(prior), l) == Update(prior, l) <==> Proportional(Floored(Normalize(prior)), Floored(prior))
  {
    var p, q := Floored(Normalize(prior)), Floored(prior);
    UpdateEntries(prior, l);
    UpdateEntries(Normalize(prior), l);
    NormalizeIsDistribution(Times(q, l));
    NormalizeIdempotent(Update(prior, l));
    SameBeliefIffProportional(Times(p, l), Times(q, l));
    ProportionalFactors(p, q, l);
  }

  lemma ProportionalFactors(p: Vector, q: Vector, l: Vector)
    requires |p| == |q| == |l| && AllPositive(l)
    ensures Proportional(Times(p, l), Times(q, l)) <==> Proportional(p, q)
  {
    if k: real :| k > 0.0 && q == Scale(k, p) {
      TimesScale(k, p, l);
      assert Times(q, l) == Scale(k, Times(p, l));
    }
    if k: real :| k > 0.0 && Times(q, l) == Scale(k, Times(p, l)) {
      TimesScale(k, p, l);
      forall i | 0 <= i < |p| ensures q[i] == Mul(k, p[i]) {
        assert Times(q, l)[i] == Times(Scale(k, p), l)[i];
        CancelIff(q[i], Mul(k, p[i]), l[i]);
      }
      assert q == Scale(k, p);
    }
  }

  /** In particular events commute when no belief drops below the floor in between. */
  lemma UnclampedEventsCommute(prior: Vector, e: string, f: string)
    requires |prior| == 4 && EventLikelihood(e).Some? && EventLikelihood(f).Some?
    requires forall i | 0 <= i < 4 :: DirectUpdate(prior, e)[i] >= FLOOR && DirectUpdate(prior, f)[i] >= FLOOR
    ensures DirectUpdate(DirectUpdate(prior, e), f) == DirectUpdate(DirectUpdate(prior, f), e)
  {
    var l, m := EventLikelihood(e).value, EventLikelihood(f).value;
    assert DirectUpdate(prior, e) == Update(prior, l) && DirectUpdate(prior, f) == Update(prior, m);
    forall i | 0 <= i < 4 ensures !Clamped(prior, l, i) && !Clamped(prior, m, i) {
      ClampedFallsBelow(prior, l, i);
      ClampedFallsBelow(prior, m, i);
    }
    EventsCommute(prior, l, m);
  }

  const THIRD: real := 0.333333333

  /** The floor does break commutation: a hypothesis at the floor of a stored belief is lifted after a scan, not after
      a login failure. */
  lemma FloorBreaksCommutation(prior: Vector)
    requires prior == [THIRD, FLOOR, THIRD, THIRD]
    ensures IsDistribution(prior)
    ensures DirectUpdate(DirectUpdate(prior, "network_scan"), "ssh_login_failure")
         != DirectUpdate(DirectUpdate(prior, "ssh_login_failure"), "network_scan")
  {
    var l, m := EventLikelihood("network_scan").value, EventLikelihood("ssh_login_failure").value;
    TotalNonNegative(prior);
    TotalOfFour(prior);
    FloorCase(prior, l);
    FloorCase(prior, m);
    assert Clamped(prior, l, 1) && !Clamped(prior, m, 1);
    EventsCommute(prior, l, m);
  }

  lemma FloorCase(prior: Vector, l: Vector)
    requires prior == [THIRD, FLOOR, THIRD, THIRD] && IsEventLikelihood(l)
    ensures Mass(prior, l) == THIRD * l[0] + FLOOR * l[1] + THIRD * l[2] + THIRD * l[3]
    ensures Mul(AtLeastFloor(prior[1]), l[1]) == FLOOR * l[1]
  {
    UpdateEntries(prior, l);
    var u := Times(Floored(prior), l);
    assert u[0] == THIRD * l[0] && u[1] == FLOOR * l[1] && u[2] == THIRD * l[2] && u[3] == THIRD * l[3];
    TotalOfFour(u);
  }
}
