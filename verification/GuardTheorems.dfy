/** What the cohort guard guarantees over every member set, edge list and parameter choice. */
module GuardTheorems {
  import opened Order
  import opened Numbers
  import opened Graph
  import opened Components

  /** The edges that the audit trail records as MERGE. */
  function MergeTrail(ds: seq<Decision>): (r: seq<ScoredEdge>)
    ensures |r| <= |ds|
  {
    if ds == [] then []
    else
      var d := ds[|ds| - 1];
      MergeTrail(ds[..|ds| - 1]) +
      (if d.merge then [ScoredEdge(d.left, d.right, d.edgeProbability, [], d.edgeType)] else [])
  }

  lemma MergeTrailSnoc(ds: seq<Decision>, d: Decision)
    ensures MergeTrail(ds + [d]) == MergeTrail(ds) +
      (if d.merge then [ScoredEdge(d.left, d.right, d.edgeProbability, [], d.edgeType)] else [])
  {
    assert (ds + [d])[..|ds + [d]| - 1] == ds;
  }

  // ---- the audit trail is a spanning forest of the answer ----

  ghost predicate Spans(members: set<string>, run: Run) {
    var trail := MergeTrail(run.decisions);
    && RunOk(members, run)
    && Covers(members, trail)
    && run.classes == MergeAll(Singletons(members), trail)
    && |run.classes.Values| + |trail| == |members|
  }

  lemma MergeSpans(members: set<string>, run: Run, d: Decision)
    requires Spans(members, run) && d.merge && d.left in members && d.right in members
    requires run.classes[d.left] != run.classes[d.right]
    ensures Spans(members, Run(Merge(run.classes, d.left, d.right), run.decisions + [d]))
  {
    var f := ScoredEdge(d.left, d.right, d.edgeProbability, [], d.edgeType);
    var trail := MergeTrail(run.decisions);
    MergeTrailSnoc(run.decisions, d);
    MergeAllSnoc(Singletons(members), trail, f);
    MergeCount(run.classes, d.left, d.right);
    MergePartition(run.classes, d.left, d.right);
  }

  lemma StepSpans(members: set<string>, lookup: map<Key, real>, p: Params, run: Run, e: ScoredEdge)
    requires Spans(members, run)
    requires e.probability >= p.threshold ==> e.left in members && e.right in members
    ensures Spans(members, GuardStep(members, lookup, p, run, e))
  {
    if e.probability >= p.threshold && run.classes[e.left] != run.classes[e.right] {
      GuardStepCases(members, lookup, p, run, e);
      var d := Verdict(lookup, e, p, run.classes[e.left], run.classes[e.right]);
      if d.merge {
        MergeSpans(members, run, d);
      } else {
        MergeTrailSnoc(run.decisions, d);
        assert MergeTrail(run.decisions + [d]) == MergeTrail(run.decisions);
      }
    }
  }

  lemma {:induction false} RunSpans(members: set<string>, lookup: map<Key, real>, p: Params, es: seq<ScoredEdge>)
    requires NoKeyError(members, es, p.threshold)
    ensures Spans(members, GuardRun(members, lookup, p, es))
  {
    if es == [] {
      SingletonsPartition(members);
      SingletonsCount(members);
    } else {
      var es', e := es[..|es| - 1], es[|es| - 1];
      assert es == es' + [e] && e in es;
      GuardRunSnoc(members, lookup, p, es', e);
      RunSpans(members, lookup, p, es');
      StepSpans(members, lookup, p, GuardRun(members, lookup, p, es'), e);
    }
  }

  /** The MERGE entries form a forest whose connected components are exactly the returned clusters,
      and clusters plus MERGE entries account for every member. */
  lemma AuditTrailIsSpanningForest(members: set<string>, edges: seq<ScoredEdge>, p: Params)
    requires NoKeyError(members, edges, p.threshold)
    ensures var run := Guarded(members, edges, p);
      var trail := MergeTrail(run.decisions);
      && IsPartition(run.classes)
      && (forall x, y | x in members && y in members :: y in run.classes[x] <==> Connected(trail, x, y))
      && IsForest(trail)
      && |run.classes.Values| + |trail| == |members|
  {
    OrderedMembers(edges);
    RunSpans(members, Lookup(edges), p, Ordered(edges));
    var run := Guarded(members, edges, p);
    var trail := MergeTrail(run.decisions);
    CountForcesForest(members, trail);
    forall x, y | x in members && y in members ensures y in run.classes[x] <==> Connected(trail, x, y) {
      MergeAllIsReachability(members, trail, x, y);
    }
  }

  // ---- every decision is about an edge, and every merge passed the gates ----

  ghost predicate Explained(d: Decision, es: seq<ScoredEdge>, p: Params) {
    exists e :: e in es && EdgeOf(d, e) && e.probability >= p.threshold
      && (d.merge ==> |e.matchedFamilies| >= 3 && d.proposedClusterSize <= p.maxClusterSize)
      && (!d.merge ==> e.edgeType == "bridge_stress")
  }

  ghost predicate EdgeOf(d: Decision, e: ScoredEdge) {
    d.left == e.left && d.right == e.right && d.edgeType == e.edgeType && d.edgeProbability == e.probability
  }

  /** The seed of a cohort: a recorded MERGE inside `g` over an edge that cleared the higher bar. */
  ghost predicate Seeded(g: set<string>, ds: seq<Decision>, es: seq<ScoredEdge>, p: Params) {
    exists d, e :: d in ds && e in es && EdgeOf(d, e) && d.merge && e.left in g && e.right in g
      && e.probability >= p.seedThreshold && |e.matchedFamilies| >= 3
  }

  ghost predicate AllExplained(ds: seq<Decision>, es: seq<ScoredEdge>, p: Params) {
    forall d | d in ds :: Explained(d, es, p)
  }

  ghost predicate AllSeeded(c: Classes, ds: seq<Decision>, es: seq<ScoredEdge>, p: Params) {
    forall x | x in c && |c[x]| >= 2 :: Seeded(c[x], ds, es, p)
  }

  ghost predicate Capped(c: Classes, p: Params) {
    p.maxClusterSize >= 1 ==> forall x | x in c :: |c[x]| <= p.maxClusterSize
  }

  ghost predicate Gated(run: Run, es: seq<ScoredEdge>, p: Params) {
    AllExplained(run.decisions, es, p) && AllSeeded(run.classes, run.decisions, es, p) && Capped(run.classes, p)
  }

  lemma SeededGrows(g: set<string>, h: set<string>, ds: seq<Decision>, cs: seq<Decision>,
    es: seq<ScoredEdge>, fs: seq<ScoredEdge>, p: Params)
    requires Seeded(g, ds, es, p) && g <= h && (forall d | d in ds :: d in cs) && Within(es, fs)
    ensures Seeded(h, cs, fs, p)
  {
    var d, e :| d in ds && e in es && EdgeOf(d, e) && d.merge && e.left in g && e.right in g
      && e.probability >= p.seedThreshold && |e.matchedFamilies| >= 3;
    assert d in cs && e in fs;
  }

  lemma ExplainedGrows(d: Decision, es: seq<ScoredEdge>, fs: seq<ScoredEdge>, p: Params)
    requires Explained(d, es, p) && Within(es, fs)
    ensures Explained(d, fs, p)
  {
    var e :| e in es && EdgeOf(d, e) && e.probability >= p.threshold
      && (d.merge ==> |e.matchedFamilies| >= 3 && d.proposedClusterSize <= p.maxClusterSize)
      && (!d.merge ==> e.edgeType == "bridge_stress");
    assert e in fs;
  }

  lemma SizeOfUnion(a: set<string>, b: set<string>)
    requires a != {} && b != {}
    ensures |a + b| <= |a| + |b|
    ensures |a| * |b| == 1 ==> |a| == 1 && |b| == 1
  {
    assert |a + b| == |a| + |b| - |a * b|;
    assert |a| >= 1 && |b| >= 1;
    assert |a| * |b| >= |a| && |a| * |b| >= |b|;
  }

  lemma UnionSeeded(
    c: Classes, lookup: map<Key, real>, e: ScoredEdge, p: Params, ds: seq<Decision>, es: seq<ScoredEdge>)
    requires e.left in c && e.right in c && e.left in c[e.left] && e.right in c[e.right]
    requires Verdict(lookup, e, p, c[e.left], c[e.right]).merge
    requires AllSeeded(c, ds, es, p)
    ensures Seeded(c[e.left] + c[e.right], ds + [Verdict(lookup, e, p, c[e.left], c[e.right])], es + [e], p)
  {
    var a, b := c[e.left], c[e.right];
    var d := Verdict(lookup, e, p, a, b);
    SizeOfUnion(a, b);
    assert |a| >= 1 && |b| >= 1;
    if |a| >= 2 {
      SeededGrows(a, a + b, ds, ds + [d], es, es + [e], p);
    } else if |b| >= 2 {
      SeededGrows(b, a + b, ds, ds + [d], es, es + [e], p);
    } else {
      assert d in ds + [d] && e in es + [e] && EdgeOf(d, e);
      assert e.left in a && e.right in b;
    }
  }

  lemma AllGrow(run: Run, cs: seq<Decision>, es: seq<ScoredEdge>, fs: seq<ScoredEdge>, p: Params)
    requires Gated(run, es, p) && Within(es, fs) && forall d | d in run.decisions :: d in cs
    ensures AllExplained(run.decisions, fs, p) && AllSeeded(run.classes, cs, fs, p)
  {
    forall d | d in run.decisions ensures Explained(d, fs, p) { ExplainedGrows(d, es, fs, p); }
    forall x | x in run.classes && |run.classes[x]| >= 2 ensures Seeded(run.classes[x], cs, fs, p) {
      SeededGrows(run.classes[x], run.classes[x], run.decisions, cs, es, fs, p);
    }
  }

  lemma AppendExplained(ds: seq<Decision>, d: Decision, es: seq<ScoredEdge>, e: ScoredEdge, p: Params)
    requires AllExplained(ds, es, p) && e in es && EdgeOf(d, e) && e.probability >= p.threshold
    requires d.merge ==> |e.matchedFamilies| >= 3 && d.proposedClusterSize <= p.maxClusterSize
    requires !d.merge ==> e.edgeType == "bridge_stress"
    ensures AllExplained(ds + [d], es, p)
  {
    assert Explained(d, es, p);
  }

  lemma RecordGated(lookup: map<Key, real>, p: Params, run: Run, es: seq<ScoredEdge>, e: ScoredEdge)
    requires Gated(run, es, p) && e.left in run.classes && e.right in run.classes && e.probability >= p.threshold
    requires e.left in run.classes[e.left] && e.right in run.classes[e.right]
    ensures var d := Verdict(lookup, e, p, run.classes[e.left], run.classes[e.right]);
      && (d.merge ==> Gated(Run(Merge(run.classes, e.left, e.right), run.decisions + [d]), es + [e], p))
      && (!d.merge && e.edgeType == "bridge_stress" ==> Gated(Run(run.classes, run.decisions + [d]), es + [e], p))
  {
    var a, b := run.classes[e.left], run.classes[e.right];
    var d := Verdict(lookup, e, p, a, b);
    AllGrow(run, run.decisions + [d], es, es + [e], p);
    if d.merge || e.edgeType == "bridge_stress" {
      AppendExplained(run.decisions, d, es + [e], e, p);
    }
    if d.merge {
      UnionSeeded(run.classes, lookup, e, p, run.decisions, es);
      SizeOfUnion(a, b);
      MergedClassesGated(run.classes, e, run.decisions + [d], es + [e], p);
    }
  }

  lemma StepGated(members: set<string>, lookup: map<Key, real>, p: Params, run: Run, es: seq<ScoredEdge>, e: ScoredEdge)
    requires RunOk(members, run) && Gated(run, es, p)
    requires e.probability >= p.threshold ==> e.left in members && e.right in members
    ensures Gated(GuardStep(members, lookup, p, run, e), es + [e], p)
  {
    AllGrow(run, run.decisions, es, es + [e], p);
    if e.probability >= p.threshold {
      GuardStepCases(members, lookup, p, run, e);
      assert e.left in run.classes[e.left] && e.right in run.classes[e.right];
      RecordGated(lookup, p, run, es, e);
    }
  }

  lemma MergedClassesGated(c: Classes, e: ScoredEdge, ds: seq<Decision>, es: seq<ScoredEdge>, p: Params)
    requires e.left in c && e.right in c && AllSeeded(c, ds, es, p) && Capped(c, p)
    requires Seeded(c[e.left] + c[e.right], ds, es, p) && |c[e.left] + c[e.right]| <= p.maxClusterSize
    ensures AllSeeded(Merge(c, e.left, e.right), ds, es, p) && Capped(Merge(c, e.left, e.right), p)
  {
  }

  lemma {:induction false} RunGated(members: set<string>, lookup: map<Key, real>, p: Params, es: seq<ScoredEdge>)
    requires NoKeyError(members, es, p.threshold)
    ensures Gated(GuardRun(members, lookup, p, es), es, p)
  {
    if es == [] {
      SingletonsPartition(members);
    } else {
      var es', e := es[..|es| - 1], es[|es| - 1];
      assert es == es' + [e] && e in es;
      GuardRunSnoc(members, lookup, p, es', e);
      RunGated(members, lookup, p, es');
      StepGated(members, lookup, p, GuardRun(members, lookup, p, es'), es', e);
    }
  }

  /** Every cluster respects the size cap, and every cluster of two or more members contains a recorded
      MERGE over an edge that cleared the seed threshold with at least three signal families. Every audit
      entry is about a qualifying input edge; only stress bridges are recorded when rejected. */
  lemma ClustersAreSeededAndCapped(members: set<string>, edges: seq<ScoredEdge>, p: Params)
    requires NoKeyError(members, edges, p.threshold)
    ensures Gated(Guarded(members, edges, p), edges, p)
  {
    OrderedMembers(edges);
    var run := Guarded(members, edges, p);
    RunGated(members, Lookup(edges), p, Ordered(edges));
    AllGrow(run, run.decisions, Ordered(edges), edges, p);
  }

  // ---- the guard only ever refines plain transitive closure ----

  lemma {:induction false} RunInsideClosure(
    members: set<string>, lookup: map<Key, real>, p: Params, es: seq<ScoredEdge>)
    requires NoKeyError(members, es, p.threshold)
    ensures forall x | x in members ::
      GuardRun(members, lookup, p, es).classes[x] <= ClosureClasses(members, es, p.threshold)[x]
  {
    if es != [] {
      var es', e := es[..|es| - 1], es[|es| - 1];
      assert es == es' + [e] && e in es;
      GuardRunSnoc(members, lookup, p, es', e);
      ClosureStep(members, es', e, p.threshold);
      RunInsideClosure(members, lookup, p, es');
      if e.probability >= p.threshold {
        var run := GuardRun(members, lookup, p, es');
        GuardStepCases(members, lookup, p, run, e);
        MergeMonotone(run.classes, ClosureClasses(members, es', p.threshold), members, es', e, p.threshold);
      }
    }
  }

  lemma MergeMonotone(c: Classes, d: Classes, members: set<string>, es: seq<ScoredEdge>, e: ScoredEdge, t: real)
    requires NoKeyError(members, es, t) && d == ClosureClasses(members, es, t)
    requires c.Keys == members && IsPartition(c) && e.left in members && e.right in members
    requires forall x | x in members :: c[x] <= d[x]
    ensures forall x | x in members :: Merge(c, e.left, e.right)[x] <= Merge(d, e.left, e.right)[x]
    ensures forall x | x in members :: c[x] <= Merge(d, e.left, e.right)[x]
  {
    forall x | x in members
      ensures Merge(c, e.left, e.right)[x] <= Merge(d, e.left, e.right)[x]
      ensures c[x] <= Merge(d, e.left, e.right)[x]
    {
      ClosureIsReachability(members, es, t, x, x);
      if c[x] == c[e.left] { assert x in c[e.left]; }
      if c[x] == c[e.right] { assert x in c[e.right]; }
    }
  }

  /** Every guarded cluster lies inside one plain cluster at the same threshold. */
  lemma GuardRefinesClosure(members: set<string>, edges: seq<ScoredEdge>, p: Params)
    requires NoKeyError(members, edges, p.threshold)
    ensures forall x | x in members ::
      Guarded(members, edges, p).classes[x] <= ClosureClasses(members, edges, p.threshold)[x]
  {
    OrderedMembers(edges);
    RunInsideClosure(members, Lookup(edges), p, Ordered(edges));
    AboveOfOrdered(members, edges, p.threshold);
  }

  // ---- the median gate subsumes weak support ----

  lemma VerdictIgnoresWeakSupport(
    lookup: map<Key, real>, e: ScoredEdge, p: Params, q: Params, a: set<string>, b: set<string>)
    requires a != {} && b != {} && q == p.(minimumCrossSupport := q.minimumCrossSupport)
    requires p.minimumCrossSupport <= 0.5 && q.minimumCrossSupport <= 0.5
    ensures Verdict(lookup, e, p, a, b) == Verdict(lookup, e, q, a, b)
  {
    var s := GroupScores(lookup, a, b);
    if Median(s) >= p.threshold { MedianForcesSupport(s, p.threshold); }
    JudgeIgnoresSupport(e, p, q, |s|, Support(s, p.threshold), Mean(s), Median(s), |a| + |b|);
  }

  lemma JudgeIgnoresSupport(
    e: ScoredEdge, p: Params, q: Params, count: int, support: real, mean: real, median: real, size: int)
    requires q == p.(minimumCrossSupport := q.minimumCrossSupport)
    requires p.minimumCrossSupport <= 0.5 && q.minimumCrossSupport <= 0.5 && (median >= p.threshold ==> support >= 0.5)
    ensures Judge(e, p, count, support, mean, median, size) == Judge(e, q, count, support, mean, median, size)
  {
  }

  lemma {:induction false} RunIgnoresWeakSupport(
    members: set<string>, lookup: map<Key, real>, p: Params, q: Params, es: seq<ScoredEdge>)
    requires NoKeyError(members, es, p.threshold) && q == p.(minimumCrossSupport := q.minimumCrossSupport)
    requires p.minimumCrossSupport <= 0.5 && q.minimumCrossSupport <= 0.5
    ensures GuardRun(members, lookup, p, es) == GuardRun(members, lookup, q, es)
  {
    if es != [] {
      var es', e := es[..|es| - 1], es[|es| - 1];
      assert es == es' + [e] && e in es;
      GuardRunSnoc(members, lookup, p, es', e);
      GuardRunSnoc(members, lookup, q, es', e);
      RunIgnoresWeakSupport(members, lookup, p, q, es');
      if e.probability >= p.threshold {
        var run := GuardRun(members, lookup, p, es');
        GuardStepCases(members, lookup, p, run, e);
        GuardStepCases(members, lookup, q, run, e);
        VerdictIgnoresWeakSupport(lookup, e, p, q, run.classes[e.left], run.classes[e.right]);
      }
    }
  }

  /** Any two support requirements of at most one half give the same clusters and the same audit trail. */
  lemma WeakSupportIsRedundant(members: set<string>, edges: seq<ScoredEdge>, p: Params, support: real)
    requires NoKeyError(members, edges, p.threshold)
    requires p.minimumCrossSupport <= 0.5 && support <= 0.5
    ensures Guarded(members, edges, p) == Guarded(members, edges, p.(minimumCrossSupport := support))
  {
    OrderedMembers(edges);
    RunIgnoresWeakSupport(members, Lookup(edges), p, p.(minimumCrossSupport := support), Ordered(edges));
  }

  /** The support rows 0.35 and 0.45 of the selection grid are the same experiment. */
  lemma GridRowsCoincide(members: set<string>, edges: seq<ScoredEdge>, t: real, seed: real)
    requires NoKeyError(members, edges, t)
    ensures Guarded(members, edges, Params(t, DEFAULT_MAX_CLUSTER_SIZE, seed, 0.35))
         == Guarded(members, edges, Params(t, DEFAULT_MAX_CLUSTER_SIZE, seed, 0.45))
  {
    WeakSupportIsRedundant(members, edges, Params(t, DEFAULT_MAX_CLUSTER_SIZE, seed, 0.35), 0.45);
  }

  // ---- independence of the input order ----

  lemma LookupOfDistinctKeys(es: seq<ScoredEdge>, e: ScoredEdge)
    requires DistinctKeys(es) && e in es
    ensures EdgeKey(e) in Lookup(es) && Lookup(es)[EdgeKey(e)] == e.probability
  {
    LookupEntries(es);
    var f :| f in es && EdgeKey(f) == EdgeKey(e) && f.probability == Lookup(es)[EdgeKey(e)];
    var i :| 0 <= i < |es| && es[i] == e;
    var j :| 0 <= j < |es| && es[j] == f;
    assert i == j;
  }

  lemma LookupPermutation(es: seq<ScoredEdge>, fs: seq<ScoredEdge>)
    requires DistinctKeys(es) && DistinctKeys(fs) && Within(es, fs) && Within(fs, es)
    ensures Lookup(es) == Lookup(fs)
  {
    LookupEntries(es);
    LookupEntries(fs);
    forall k ensures k in Lookup(es) <==> k in Lookup(fs) {
      if k in Lookup(es) { var e :| e in es && EdgeKey(e) == k; assert e in fs; }
      if k in Lookup(fs) { var e :| e in fs && EdgeKey(e) == k; assert e in es; }
    }
    forall k | k in Lookup(es) ensures Lookup(es)[k] == Lookup(fs)[k] {
      var e :| e in es && EdgeKey(e) == k && e.probability == Lookup(es)[k];
      LookupOfDistinctKeys(fs, e);
    }
  }

  /** With one edge per pair, any rearrangement of the edge list gives the same clusters and audit trail. */
  lemma GuardIgnoresEdgeOrder(members: set<string>, es: seq<ScoredEdge>, fs: seq<ScoredEdge>, p: Params)
    requires DistinctKeys(es) && DistinctKeys(fs) && multiset(es) == multiset(fs)
    requires NoKeyError(members, es, p.threshold)
    ensures NoKeyError(members, fs, p.threshold) && Guarded(members, es, p) == Guarded(members, fs, p)
  {
    forall e ensures e in es <==> e in fs {
      assert e in es <==> e in multiset(es);
    }
    LookupPermutation(es, fs);
    forall x, y | x in es && y in es && EdgeLe(x, y) && EdgeLe(y, x) ensures x == y {
      KeyLeTotal(EdgeKey(x), EdgeKey(y));
      var i :| 0 <= i < |es| && es[i] == x;
      var j :| 0 <= j < |es| && es[j] == y;
      assert i == j;
    }
    EdgeLeIsTotalPreorder();
    SortOfPermutation(es, fs, EdgeLe);
  }
}
