/** When the cohort guard merges two groups, in terms of the members, the edges and the parameters alone. */
module GuardGates {
  import opened Order
  import opened Numbers
  import opened Graph
  import opened Components

  type Pair = (string, string)

  // ---- the score of a pair ----

  /** The probability of the last edge that joins the two, in either direction; 0 without one. */
  function PairScore(es: seq<ScoredEdge>, x: string, y: string): real {
    if es == [] then 0.0
    else
      var e := es[|es| - 1];
      if {e.left, e.right} == {x, y} then e.probability else PairScore(es[..|es| - 1], x, y)
  }

  function Scorer(es: seq<ScoredEdge>): Pair -> real { (p: Pair) => PairScore(es, p.0, p.1) }

  /** A key forgets the direction of a pair and nothing else. */
  lemma KeyForgetsDirection(a: string, b: string, x: string, y: string)
    ensures KeyOf(a, b) == KeyOf(x, y) <==> {a, b} == {x, y}
  {
    StringLeTotal(a, b);
    StringLeTotal(x, y);
    if StringLe(a, b) && StringLe(b, a) { StringLeAntisymmetric(a, b); }
    if StringLe(x, y) && StringLe(y, x) { StringLeAntisymmetric(x, y); }
    SamePair(a, b, x, y);
  }

  lemma SamePair(a: string, b: string, x: string, y: string)
    ensures {a, b} == {x, y} <==> (a == x && b == y) || (a == y && b == x)
  {
    if {a, b} == {x, y} {
      assert a in {x, y} && b in {x, y} && x in {a, b} && y in {a, b};
    }
  }

  lemma {:induction false} LookupIsPairScore(es: seq<ScoredEdge>, x: string, y: string)
    ensures ScoreOf(Lookup(es), x, y) == PairScore(es, x, y)
  {
    if es != [] {
      var e := es[|es| - 1];
      LookupIsPairScore(es[..|es| - 1], x, y);
      KeyForgetsDirection(e.left, e.right, x, y);
    }
  }

  // ---- listings of the cross pairs ----

  function Cross(a: set<string>, b: set<string>): set<Pair> { set x, y | x in a && y in b :: (x, y) }

  /** Every cross pair once, in any order. */
  ghost predicate Lists(ps: seq<Pair>, a: set<string>, b: set<string>) { multiset(ps) == multiset(Cross(a, b)) }

  function Mapped(ps: seq<Pair>, f: Pair -> real): (s: seq<real>)
    ensures |s| == |ps|
  {
    if ps == [] then [] else [f(ps[0])] + Mapped(ps[1..], f)
  }

  lemma {:induction false} MappedConcat(ps: seq<Pair>, qs: seq<Pair>, f: Pair -> real)
    ensures Mapped(ps + qs, f) == Mapped(ps, f) + Mapped(qs, f)
  {
    if ps == [] {
      assert ps + qs == qs;
    } else {
      assert (ps + qs)[1..] == ps[1..] + qs;
      MappedConcat(ps[1..], qs, f);
    }
  }

  lemma {:induction false} MappedPermutation(ps: seq<Pair>, qs: seq<Pair>, f: Pair -> real)
    requires multiset(ps) == multiset(qs)
    ensures multiset(Mapped(ps, f)) == multiset(Mapped(qs, f))
  {
    assert |multiset(ps)| == |ps| && |multiset(qs)| == |qs|;
    if ps != [] {
      var l, r := PermutationTail(ps, qs);
      MappedPermutation(ps[1..], l + r, f);
      MappedSplit(l, ps[0], r, f);
    }
  }

  lemma MappedSplit(l: seq<Pair>, p: Pair, r: seq<Pair>, f: Pair -> real)
    ensures multiset(Mapped(l + [p] + r, f)) == multiset{f(p)} + multiset(Mapped(l + r, f))
  {
    MappedConcat(l + [p], r, f);
    MappedConcat(l, [p], f);
    MappedConcat(l, r, f);
    assert Mapped([p], f) == [f(p)];
  }

  /** The listing that the two nested loops produce. */
  function RowPairs(x: string, ys: seq<string>): seq<Pair> {
    if ys == [] then [] else [(x, ys[0])] + RowPairs(x, ys[1..])
  }

  function LoopPairs(xs: seq<string>, ys: seq<string>): seq<Pair> {
    if xs == [] then [] else RowPairs(xs[0], ys) + LoopPairs(xs[1..], ys)
  }

  lemma {:induction false} RowIsMapped(es: seq<ScoredEdge>, x: string, ys: seq<string>)
    ensures Row(Lookup(es), x, ys) == Mapped(RowPairs(x, ys), Scorer(es))
  {
    if ys != [] {
      LookupIsPairScore(es, x, ys[0]);
      RowIsMapped(es, x, ys[1..]);
      assert RowPairs(x, ys)[1..] == RowPairs(x, ys[1..]);
    }
  }

  lemma {:induction false} LoopIsMapped(es: seq<ScoredEdge>, xs: seq<string>, ys: seq<string>)
    ensures CrossScores(Lookup(es), xs, ys) == Mapped(LoopPairs(xs, ys), Scorer(es))
  {
    if xs != [] {
      RowIsMapped(es, xs[0], ys);
      LoopIsMapped(es, xs[1..], ys);
      MappedConcat(RowPairs(xs[0], ys), LoopPairs(xs[1..], ys), Scorer(es));
    }
  }

  lemma {:induction false} RowCounts(x: string, ys: seq<string>, p: Pair)
    ensures multiset(RowPairs(x, ys))[p] == if p.0 == x then multiset(ys)[p.1] else 0
  {
    if ys != [] {
      RowCounts(x, ys[1..], p);
      assert ys == [ys[0]] + ys[1..];
    }
  }

  lemma {:induction false} LoopCounts(xs: seq<string>, ys: seq<string>, p: Pair)
    ensures multiset(LoopPairs(xs, ys))[p] == multiset(xs)[p.0] * multiset(ys)[p.1]
  {
    if xs != [] {
      RowCounts(xs[0], ys, p);
      LoopCounts(xs[1..], ys, p);
      TailCount(xs, p.0);
      OneRowMore(multiset(xs[1..])[p.0], multiset(ys)[p.1]);
    }
  }

  lemma TailCount(xs: seq<string>, x: string)
    requires xs != []
    ensures multiset(xs)[x] == multiset(xs[1..])[x] + if x == xs[0] then 1 else 0
  {
    assert xs == [xs[0]] + xs[1..];
  }

  lemma OneRowMore(m: nat, y: nat)
    ensures (m + 1) * y == m * y + y
  {
  }

  lemma LoopLists(a: set<string>, b: set<string>)
    ensures Lists(LoopPairs(Elements(a), Elements(b)), a, b)
  {
    var ps := LoopPairs(Elements(a), Elements(b));
    forall p: Pair ensures multiset(ps)[p] == multiset(Cross(a, b))[p] {
      LoopCounts(Elements(a), Elements(b), p);
      InCross(a, b, p);
    }
  }

  lemma InCross(a: set<string>, b: set<string>, p: Pair)
    ensures multiset(Cross(a, b))[p] == multiset(a)[p.0] * multiset(b)[p.1]
  {
    assert p in Cross(a, b) <==> p.0 in a && p.1 in b;
  }

  lemma CrossSize(a: set<string>, b: set<string>, ps: seq<Pair>)
    requires Lists(ps, a, b)
    ensures |ps| == |Cross(a, b)| && |Cross(a, b)| == |a| * |b|
  {
    var qs := LoopPairs(Elements(a), Elements(b));
    LoopLists(a, b);
    assert |multiset(ps)| == |ps| && |multiset(qs)| == |qs|;
    LoopLength(Elements(a), Elements(b));
  }

  lemma {:induction false} LoopLength(xs: seq<string>, ys: seq<string>)
    ensures |LoopPairs(xs, ys)| == |xs| * |ys|
  {
    if xs != [] {
      RowLength(xs[0], ys);
      LoopLength(xs[1..], ys);
    }
  }

  lemma {:induction false} RowLength(x: string, ys: seq<string>)
    ensures |RowPairs(x, ys)| == |ys|
  {
    if ys != [] { RowLength(x, ys[1..]); }
  }

  // ---- the three statistics over any listing ----

  /** The cross pairs whose score reaches the bar. */
  function Reaching(es: seq<ScoredEdge>, a: set<string>, b: set<string>, bar: real): set<Pair> {
    set p | p in Cross(a, b) && Scorer(es)(p) >= bar
  }

  lemma {:induction false} MappedTotal(ps: seq<Pair>, f: Pair -> real, bar: real)
    ensures Total(Mapped(ps, f), Same) == Total(ps, f)
    ensures Total(Mapped(ps, f), Hit(bar)) == Total(ps, Hits(f, bar))
  {
    if ps != [] { MappedTotal(ps[1..], f, bar); }
  }

  function Hits(f: Pair -> real, bar: real): Pair -> real { (p: Pair) => if f(p) >= bar then 1.0 else 0.0 }

  lemma {:induction false} HitsCount(ps: seq<Pair>, all: set<Pair>, f: Pair -> real, bar: real)
    requires multiset(ps) == multiset(all)
    ensures Total(ps, Hits(f, bar)) == |set p | p in all && f(p) >= bar| as real
  {
    assert |multiset(ps)| == |ps|;
    if ps != [] {
      var rest := all - {ps[0]};
      TailMultiset(ps);
      assert ps[0] in multiset(ps);
      assert multiset(rest) == multiset(ps[1..]);
      HitsCount(ps[1..], rest, f, bar);
      OneMore(all, ps[0], f, bar);
    } else {
      assert all == {} by { forall p ensures p !in all { assert multiset(ps)[p] == multiset(all)[p]; } }
      assert (set p | p in all && f(p) >= bar) == {};
    }
  }

  lemma OneMore(all: set<Pair>, q: Pair, f: Pair -> real, bar: real)
    requires q in all
    ensures |set p | p in all && f(p) >= bar| ==
      |set p | p in all - {q} && f(p) >= bar| + if f(q) >= bar then 1 else 0
  {
    var s, t := set p | p in all && f(p) >= bar, set p | p in all - {q} && f(p) >= bar;
    if f(q) >= bar { assert s == t + {q}; } else { assert s == t; }
  }

  /** What the guard computes from one listing it reads off any other. */
  lemma StatisticsOfListing(es: seq<ScoredEdge>, a: set<string>, b: set<string>, ps: seq<Pair>, bar: real)
    requires a != {} && b != {} && Lists(ps, a, b)
    ensures var s, t := GroupScores(Lookup(es), a, b), Mapped(ps, Scorer(es));
      && t != [] && |s| == |t| == |Cross(a, b)| && Median(s) == Median(t)
      && Total(s, Hit(bar)) == Total(t, Hit(bar)) == |Reaching(es, a, b, bar)| as real
      && Total(s, Same) == Total(ps, Scorer(es))
  {
    var s, t := GroupScores(Lookup(es), a, b), Mapped(ps, Scorer(es));
    var qs := LoopPairs(Elements(a), Elements(b));
    LoopIsMapped(es, Elements(a), Elements(b));
    LoopLists(a, b);
    MappedPermutation(qs, ps, Scorer(es));
    CrossSize(a, b, ps);
    SameStatistics(s, t, bar);
    MappedTotal(ps, Scorer(es), bar);
    HitsCount(ps, Cross(a, b), Scorer(es), bar);
  }

  lemma SameStatistics(s: seq<real>, t: seq<real>, bar: real)
    requires s != [] && t != [] && multiset(s) == multiset(t)
    ensures Total(s, Hit(bar)) == Total(t, Hit(bar)) && Total(s, Same) == Total(t, Same) && Median(s) == Median(t)
  {
    StatisticsPermutation(s, t, bar);
    TotalPermutation(s, t, Hit(bar));
    TotalPermutation(s, t, Same);
  }

  // ---- the gates ----

  ghost predicate AtLeastEach(x: real, n: real, k: real) { x >= k * n }

  /** Enough cross pairs reach the threshold, their scores add up to more than the threshold each, and the middle
      score reaches it. */
  ghost predicate CohortsAgree(es: seq<ScoredEdge>, p: Params, a: set<string>, b: set<string>, ps: seq<Pair>) {
    var n := |Cross(a, b)| as real;
    && AtLeastEach(|Reaching(es, a, b, p.threshold)| as real, n, p.minimumCrossSupport)
    && AtLeastEach(Total(ps, Scorer(es)), n, p.threshold + 0.04)
    && MedianReaches(Mapped(ps, Scorer(es)), p.threshold)
  }

  ghost predicate MedianReaches(s: seq<real>, bar: real) { exists m :: IsMedian(s, m) && m >= bar }

  ghost predicate Fits(p: Params, a: set<string>, b: set<string>) { |a| + |b| <= p.maxClusterSize }

  ghost predicate Diverse(e: ScoredEdge) { |e.matchedFamilies| >= 3 }

  /** Two single members need a strong edge, larger groups need each other's agreement. */
  ghost predicate Supported(
    es: seq<ScoredEdge>, p: Params, e: ScoredEdge, a: set<string>, b: set<string>, ps: seq<Pair>)
  {
    if |a| == 1 && |b| == 1 then e.probability >= p.seedThreshold else CohortsAgree(es, p, a, b, ps)
  }

  ghost predicate Admitted(
    es: seq<ScoredEdge>, p: Params, e: ScoredEdge, a: set<string>, b: set<string>, ps: seq<Pair>)
  {
    Fits(p, a, b) && Diverse(e) && Supported(es, p, e, a, b, ps)
  }

  /** An audit entry: the edge, the statistics, the decision, and the first gate that refused. */
  ghost predicate Records(
    es: seq<ScoredEdge>, p: Params, e: ScoredEdge, a: set<string>, b: set<string>, ps: seq<Pair>, d: Decision)
  {
    var n := |Cross(a, b)| as real;
    && d.left == e.left && d.right == e.right && d.edgeType == e.edgeType && d.edgeProbability == e.probability
    && Ratio(d.crossSupport, |Reaching(es, a, b, p.threshold)| as real, n)
    && Ratio(d.meanCrossProbability, Total(ps, Scorer(es)), n)
    && d.proposedClusterSize == |a| + |b|
    && (d.merge <==> Admitted(es, p, e, a, b, ps))
    && (d.reason.MergedCohortSupport? <==> Admitted(es, p, e, a, b, ps))
    && (d.reason.RejectMaxCluster? <==> !Fits(p, a, b))
    && (d.reason.RejectEvidenceDiversity? <==> Fits(p, a, b) && !Diverse(e))
    && (d.reason.RejectTransitiveBridge? <==> Fits(p, a, b) && Diverse(e) && !Supported(es, p, e, a, b, ps))
  }

  lemma GateOfCount(a: set<string>, b: set<string>, ps: seq<Pair>)
    requires a != {} && b != {} && Lists(ps, a, b)
    ensures |Cross(a, b)| == 1 <==> |a| == 1 && |b| == 1
  {
    CrossSize(a, b, ps);
    ProductIsOne(|a|, |b|);
  }

  lemma ProductIsOne(m: nat, n: nat)
    ensures m * n == 1 <==> m == 1 && n == 1
  {
    if m >= 2 && n >= 1 { assert m * n >= 2 * n; }
    if n >= 2 && m >= 1 { assert m * n >= m * 2; }
  }

  lemma MedianGate(s: seq<real>, bar: real)
    requires s != []
    ensures MedianReaches(s, bar) <==> Median(s) >= bar
  {
    MedianIsMiddle(s, Median(s));
    if MedianReaches(s, bar) {
      var m :| IsMedian(s, m) && m >= bar;
      MedianIsMiddle(s, m);
    }
  }

  /** The two quotients that the gates read, cross-multiplied: `hits` and `total` over `n` scores. */
  ghost predicate Measured(p: Params, hits: real, total: real, n: real, support: real, mean: real) {
    && Ratio(support, hits, n) && Ratio(mean, total, n)
    && (support >= p.minimumCrossSupport <==> AtLeastEach(hits, n, p.minimumCrossSupport))
    && (mean >= p.threshold + 0.04 <==> AtLeastEach(total, n, p.threshold + 0.04))
  }

  lemma ScoresMeasured(p: Params, s: seq<real>)
    requires s != []
    ensures Measured(p, Total(s, Hit(p.threshold)), Total(s, Same), |s| as real, Support(s, p.threshold), Mean(s))
  {
    SupportMeasured(s, p.threshold, p.minimumCrossSupport);
    MeanMeasured(s, p.threshold + 0.04);
  }

  lemma SupportMeasured(s: seq<real>, bar: real, k: real)
    requires s != []
    ensures Ratio(Support(s, bar), Total(s, Hit(bar)), |s| as real)
    ensures Support(s, bar) >= k <==> AtLeastEach(Total(s, Hit(bar)), |s| as real, k)
  {
    CrossMultiplied(Total(s, Hit(bar)), |s| as real, Support(s, bar), k);
  }

  lemma MeanMeasured(s: seq<real>, k: real)
    requires s != []
    ensures Ratio(Mean(s), Total(s, Same), |s| as real)
    ensures Mean(s) >= k <==> AtLeastEach(Total(s, Same), |s| as real, k)
  {
    CrossMultiplied(Total(s, Same), |s| as real, Mean(s), k);
  }

  lemma CrossMultiplied(x: real, n: real, q: real, k: real)
    requires n > 0.0 && q == x / n
    ensures Ratio(q, x, n) && (q >= k <==> AtLeastEach(x, n, k))
  {
    QuotientAtLeast(x, n, k);
  }

  lemma JudgeRecords(es: seq<ScoredEdge>, p: Params, e: ScoredEdge, a: set<string>, b: set<string>, ps: seq<Pair>,
    count: int, support: real, mean: real, median: real)
    requires Measured(p, |Reaching(es, a, b, p.threshold)| as real, Total(ps, Scorer(es)), |Cross(a, b)| as real,
      support, mean)
    requires median >= p.threshold <==> MedianReaches(Mapped(ps, Scorer(es)), p.threshold)
    requires count == 1 <==> |a| == 1 && |b| == 1
    ensures Records(es, p, e, a, b, ps, Judge(e, p, count, support, mean, median, |a| + |b|))
  {
  }

  lemma VerdictRecords(
    es: seq<ScoredEdge>, p: Params, e: ScoredEdge, a: set<string>, b: set<string>, ps: seq<Pair>)
    requires a != {} && b != {} && Lists(ps, a, b)
    ensures Records(es, p, e, a, b, ps, Verdict(Lookup(es), e, p, a, b))
  {
    var s := GroupScores(Lookup(es), a, b);
    CountOfOne(es, a, b, ps);
    StatisticsOfListing(es, a, b, ps, p.threshold);
    ScoresMeasured(p, s);
    MedianGate(Mapped(ps, Scorer(es)), p.threshold);
    JudgeRecords(es, p, e, a, b, ps, |s|, Support(s, p.threshold), Mean(s), Median(s));
  }

  lemma CountOfOne(es: seq<ScoredEdge>, a: set<string>, b: set<string>, ps: seq<Pair>)
    requires a != {} && b != {} && Lists(ps, a, b)
    ensures |GroupScores(Lookup(es), a, b)| == 1 <==> |a| == 1 && |b| == 1
  {
    StatisticsOfListing(es, a, b, ps, 0.0);
    GateOfCount(a, b, ps);
  }

  // ---- the run ----

  /** Where the guard stands after the first `i` edges in processing order. */
  ghost function After(members: set<string>, edges: seq<ScoredEdge>, p: Params, i: nat): (r: Run)
    requires NoKeyError(members, edges, p.threshold) && i <= |Ordered(edges)|
    ensures RunOk(members, r)
  {
    OrderedKeyError(members, edges, p.threshold);
    GuardRun(members, Lookup(edges), p, Ordered(edges)[..i])
  }

  /** The members of both groups now share their union, everyone else is where they were. */
  ghost predicate Joined(before: Classes, after: Classes, a: set<string>, b: set<string>) {
    && after.Keys == before.Keys
    && forall x | x in before :: after[x] == if x in a + b then a + b else before[x]
  }

  /** What one edge does: nothing below the threshold or inside a group; between two groups it joins them exactly
      when it is admitted, and is recorded exactly when it is admitted or a stress bridge. */
  ghost predicate EdgeEffect(es: seq<ScoredEdge>, p: Params, e: ScoredEdge, before: Run, after: Run) {
    if e.probability < p.threshold then after == before
    else
      && e.left in before.classes && e.right in before.classes
      && var a, b := before.classes[e.left], before.classes[e.right];
         if a == b then after == before else forall ps | Lists(ps, a, b) :: PairEffect(es, p, e, before, after, ps)
  }

  ghost predicate PairEffect(
    es: seq<ScoredEdge>, p: Params, e: ScoredEdge, before: Run, after: Run, ps: seq<Pair>)
    requires e.left in before.classes && e.right in before.classes
  {
    var a, b := before.classes[e.left], before.classes[e.right];
    var admitted := Admitted(es, p, e, a, b, ps);
    && (if admitted then Joined(before.classes, after.classes, a, b) else after.classes == before.classes)
    && (if admitted || e.edgeType == "bridge_stress"
        then RecordedLast(es, p, e, a, b, ps, before.decisions, after.decisions)
        else after.decisions == before.decisions)
  }

  ghost predicate RecordedLast(es: seq<ScoredEdge>, p: Params, e: ScoredEdge, a: set<string>, b: set<string>,
    ps: seq<Pair>, before: seq<Decision>, after: seq<Decision>)
  {
    && |after| == |before| + 1 && after[..|before|] == before
    && Records(es, p, e, a, b, ps, after[|before|])
  }

  lemma MergeJoins(c: Classes, l: string, r: string)
    requires IsPartition(c) && l in c && r in c
    ensures Joined(c, Merge(c, l, r), c[l], c[r])
  {
    forall x | x in c ensures (c[x] == c[l] || c[x] == c[r]) <==> x in c[l] + c[r] { assert x in c[x]; }
  }

  lemma StepEffect(members: set<string>, edges: seq<ScoredEdge>, p: Params, run: Run, e: ScoredEdge)
    requires RunOk(members, run)
    requires e.probability >= p.threshold ==> e.left in members && e.right in members
    ensures EdgeEffect(edges, p, e, run, GuardStep(members, Lookup(edges), p, run, e))
  {
    if e.probability >= p.threshold {
      GuardStepCases(members, Lookup(edges), p, run, e);
      var a, b := run.classes[e.left], run.classes[e.right];
      if a != b {
        MergeJoins(run.classes, e.left, e.right);
        forall ps | Lists(ps, a, b)
          ensures PairEffect(edges, p, e, run, GuardStep(members, Lookup(edges), p, run, e), ps)
        {
          VerdictRecords(edges, p, e, a, b, ps);
        }
      }
    }
  }

  /** The whole run, for all members, edges and parameters: it starts from single members and an empty trail, takes
      the edges in processing order, each with the effect its gates decide, and ends in the answer. */
  lemma GuardDecidesExactly(members: set<string>, edges: seq<ScoredEdge>, p: Params, i: nat)
    requires NoKeyError(members, edges, p.threshold)
    ensures After(members, edges, p, 0).decisions == []
    ensures forall x | x in members :: After(members, edges, p, 0).classes[x] == {x}
    ensures After(members, edges, p, |Ordered(edges)|) == Guarded(members, edges, p)
    ensures i < |Ordered(edges)| ==>
      EdgeEffect(edges, p, Ordered(edges)[i], After(members, edges, p, i), After(members, edges, p, i + 1))
  {
    var es := Ordered(edges);
    assert es[..|es|] == es;
    OrderedKeyError(members, edges, p.threshold);
    if i < |es| {
      var before := After(members, edges, p, i);
      assert es[..i + 1] == es[..i] + [es[i]];
      GuardRunSnoc(members, Lookup(edges), p, es[..i], es[i]);
      assert es[i] in es;
      StepEffect(members, edges, p, before, es[i]);
    }
  }

  /** No merge of more than two single members rests on a minority: at least half of the cross pairs reach the
      threshold. One bridge between cohorts with three or more cross pairs never joins them. */
  lemma MergesNeedMajority(
    es: seq<ScoredEdge>, p: Params, e: ScoredEdge, a: set<string>, b: set<string>, ps: seq<Pair>)
    requires a != {} && b != {} && Lists(ps, a, b) && Admitted(es, p, e, a, b, ps)
    ensures |Cross(a, b)| > 1 ==> 2 * |Reaching(es, a, b, p.threshold)| >= |Cross(a, b)|
    ensures |Reaching(es, a, b, p.threshold)| <= 1 ==> |Cross(a, b)| <= 2
  {
    GateOfCount(a, b, ps);
    if |Cross(a, b)| > 1 { MedianMajority(es, p, a, b, ps); }
  }

  lemma MedianMajority(es: seq<ScoredEdge>, p: Params, a: set<string>, b: set<string>, ps: seq<Pair>)
    requires a != {} && b != {} && Lists(ps, a, b) && MedianReaches(Mapped(ps, Scorer(es)), p.threshold)
    ensures 2 * |Reaching(es, a, b, p.threshold)| >= |Cross(a, b)|
  {
    var t := Mapped(ps, Scorer(es));
    StatisticsOfListing(es, a, b, ps, p.threshold);
    MedianGate(t, p.threshold);
    HalfReaches(t, p.threshold);
  }

  lemma HalfReaches(s: seq<real>, bar: real)
    requires s != [] && Median(s) >= bar
    ensures 2.0 * Total(s, Hit(bar)) >= |s| as real
  {
    MedianForcesSupport(s, bar);
    SupportedByHalf(s, bar);
  }

  lemma SupportedByHalf(s: seq<real>, bar: real)
    requires s != [] && Support(s, bar) >= 0.5
    ensures 2.0 * Total(s, Hit(bar)) >= |s| as real
  {
    QuotientAtLeast(Total(s, Hit(bar)), |s| as real, 0.5);
  }
}
