/** `connected_components` and `guarded_components`: the plain transitive-closure clustering
    and the cohort-guarded one with its audit trail. */
module Components {
  import opened Order
  import opened Numbers
  import opened Graph
  import opened DisjointSets

  // ---- edge keys, the processing order, and the score lookup ----

  type Key = (string, string)

  /** `tuple(sorted((a, b)))`. */
  function KeyOf(a: string, b: string): Key {
    if StringLe(a, b) then (a, b) else (b, a)
  }

  function EdgeKey(e: ScoredEdge): Key { KeyOf(e.left, e.right) }

  predicate KeyLe(a: Key, b: Key) {
    if a.0 != b.0 then StringLe(a.0, b.0) else StringLe(a.1, b.1)
  }

  /** Strongest edge first, ties by key: the order of `(-probability, key)`. */
  predicate EdgeLe(e: ScoredEdge, f: ScoredEdge) {
    e.probability > f.probability || (e.probability == f.probability && KeyLe(EdgeKey(e), EdgeKey(f)))
  }

  lemma KeyLeTotal(a: Key, b: Key)
    ensures KeyLe(a, b) || KeyLe(b, a)
    ensures KeyLe(a, b) && KeyLe(b, a) ==> a == b
  {
    StringLeTotal(a.0, b.0);
    StringLeTotal(a.1, b.1);
    if KeyLe(a, b) && KeyLe(b, a) {
      StringLeAntisymmetric(a.0, b.0);
      StringLeAntisymmetric(a.1, b.1);
    }
  }

  lemma KeyLeTransitive(a: Key, b: Key, c: Key)
    requires KeyLe(a, b) && KeyLe(b, c)
    ensures KeyLe(a, c)
  {
    if a.0 == b.0 == c.0 {
      StringLeTransitive(a.1, b.1, c.1);
    } else if a.0 != b.0 && b.0 != c.0 {
      StringLeTransitive(a.0, b.0, c.0);
      if a.0 == c.0 { StringLeAntisymmetric(a.0, b.0); }
    }
  }

  lemma EdgeLeIsTotalPreorder()
    ensures TotalPreorder(EdgeLe)
  {
    forall e, f ensures EdgeLe(e, f) || EdgeLe(f, e) { KeyLeTotal(EdgeKey(e), EdgeKey(f)); }
    forall e, f, g | EdgeLe(e, f) && EdgeLe(f, g) ensures EdgeLe(e, g) {
      if e.probability == f.probability == g.probability { KeyLeTransitive(EdgeKey(e), EdgeKey(f), EdgeKey(g)); }
    }
  }

  function Ordered(es: seq<ScoredEdge>): (r: seq<ScoredEdge>)
    ensures multiset(r) == multiset(es)
  {
    Sort(es, EdgeLe)
  }

  /** The two ends of an edge, in dictionary order. */
  ghost predicate Ends(e: ScoredEdge, k: Key) {
    (k == (e.left, e.right) || k == (e.right, e.left)) && Dictionary(k.0, k.1)
  }

  /** The stronger edge comes first; of two equally strong ones, that whose ends come first in the dictionary. */
  ghost predicate ComesFirst(e: ScoredEdge, f: ScoredEdge) {
    || e.probability > f.probability
    || (e.probability == f.probability && exists k, l :: Ends(e, k) && Ends(f, l) && KeysInOrder(k, l))
  }

  ghost predicate KeysInOrder(k: Key, l: Key) {
    if k.0 == l.0 then Dictionary(k.1, l.1) else Dictionary(k.0, l.0)
  }

  lemma EdgeKeyIsEnds(e: ScoredEdge, k: Key)
    ensures Ends(e, k) <==> k == EdgeKey(e)
  {
    StringLeIsDictionary(e.left, e.right);
    StringLeIsDictionary(e.right, e.left);
    StringLeTotal(e.left, e.right);
    if StringLe(e.left, e.right) && StringLe(e.right, e.left) { StringLeAntisymmetric(e.left, e.right); }
  }

  lemma EdgesByStrengthAndEnds(e: ScoredEdge, f: ScoredEdge)
    ensures EdgeLe(e, f) <==> ComesFirst(e, f)
  {
    var k, l := EdgeKey(e), EdgeKey(f);
    forall x ensures Ends(e, x) <==> x == k { EdgeKeyIsEnds(e, x); }
    forall x ensures Ends(f, x) <==> x == l { EdgeKeyIsEnds(f, x); }
    StringLeIsDictionary(k.0, l.0);
    StringLeIsDictionary(k.1, l.1);
    assert KeysInOrder(k, l) <==> KeyLe(k, l);
  }

  /** The processing order is by falling probability, ties by key, equal keys in input order. */
  lemma OrderedIsStableByProbabilityAndKey(es: seq<ScoredEdge>, e: ScoredEdge)
    ensures Sorted(Ordered(es), EdgeLe)
    ensures Ties(Ordered(es), e, EdgeLe) == Ties(es, e, EdgeLe)
  {
    EdgeLeIsTotalPreorder();
    SortSorts(es, EdgeLe);
    SortIsStable(es, e, EdgeLe);
  }

  lemma OrderedMembers(es: seq<ScoredEdge>)
    ensures forall e :: e in Ordered(es) <==> e in es
  {
    SortMembers(es, EdgeLe);
  }

  /** `{edge.key: edge.probability for edge in edges}`: the last edge of a key wins. */
  function Lookup(es: seq<ScoredEdge>): map<Key, real> {
    if es == [] then map[]
    else Lookup(es[..|es| - 1])[EdgeKey(es[|es| - 1]) := es[|es| - 1].probability]
  }

  /** Every entry is the probability of some edge, and every edge has an entry. */
  lemma {:induction false} LookupEntries(es: seq<ScoredEdge>)
    ensures forall k | k in Lookup(es) :: exists e :: e in es && EdgeKey(e) == k && e.probability == Lookup(es)[k]
    ensures forall e | e in es :: EdgeKey(e) in Lookup(es)
  {
    if es != [] {
      var es', e := es[..|es| - 1], es[|es| - 1];
      LookupEntries(es');
      assert es == es' + [e];
      forall k | k in Lookup(es) ensures exists f :: f in es && EdgeKey(f) == k && f.probability == Lookup(es)[k] {
        if k == EdgeKey(e) {
          assert e in es;
        } else {
          var f :| f in es' && EdgeKey(f) == k && f.probability == Lookup(es')[k];
          assert f in es;
        }
      }
    }
  }

  ghost predicate DistinctKeys(es: seq<ScoredEdge>) {
    forall i, j | 0 <= i < |es| && 0 <= j < |es| && EdgeKey(es[i]) == EdgeKey(es[j]) :: i == j
  }

  // ---- plain connected components ----

  function Above(es: seq<ScoredEdge>, threshold: real): (r: seq<ScoredEdge>)
    ensures forall e :: e in r <==> e in es && e.probability >= threshold
  {
    if es == [] then []
    else
      assert es == es[..|es| - 1] + [es[|es| - 1]];
      Above(es[..|es| - 1], threshold) + (if es[|es| - 1].probability >= threshold then [es[|es| - 1]] else [])
  }

  /** Every edge that will be looked at has both ends among the members; otherwise Python
      raises KeyError out of `find`. */
  ghost predicate NoKeyError(members: set<string>, es: seq<ScoredEdge>, threshold: real) {
    forall e | e in es && e.probability >= threshold :: e.left in members && e.right in members
  }

  lemma AboveCovers(members: set<string>, es: seq<ScoredEdge>, threshold: real)
    requires NoKeyError(members, es, threshold)
    ensures Covers(members, Above(es, threshold))
  {
    forall i | 0 <= i < |Above(es, threshold)|
      ensures Above(es, threshold)[i].left in members && Above(es, threshold)[i].right in members
    {
      assert Above(es, threshold)[i] in Above(es, threshold);
    }
  }

  /** The classes of the reachability relation of the edges at or above `threshold`. */
  ghost function ClosureClasses(members: set<string>, es: seq<ScoredEdge>, threshold: real): (c: Classes)
    requires NoKeyError(members, es, threshold)
    ensures c.Keys == members
  {
    AboveCovers(members, es, threshold);
    MergeAll(Singletons(members), Above(es, threshold))
  }

  lemma OrderedKeyError(members: set<string>, es: seq<ScoredEdge>, threshold: real)
    ensures NoKeyError(members, Ordered(es), threshold) <==> NoKeyError(members, es, threshold)
  {
    OrderedMembers(es);
  }

  lemma AboveOfOrdered(members: set<string>, es: seq<ScoredEdge>, threshold: real)
    requires NoKeyError(members, es, threshold)
    ensures NoKeyError(members, Ordered(es), threshold)
    ensures ClosureClasses(members, Ordered(es), threshold) == ClosureClasses(members, es, threshold)
  {
    OrderedMembers(es);
    AboveCovers(members, es, threshold);
    AboveCovers(members, Ordered(es), threshold);
    SameEdgesSameClasses(members, Above(Ordered(es), threshold), Above(es, threshold));
  }

  lemma ClosureStep(members: set<string>, es: seq<ScoredEdge>, e: ScoredEdge, threshold: real)
    requires NoKeyError(members, es, threshold)
    ensures NoKeyError(members, es + [e], threshold) <==>
      (e.probability >= threshold ==> e.left in members && e.right in members)
    ensures NoKeyError(members, es + [e], threshold) ==>
      ClosureClasses(members, es + [e], threshold) ==
        if e.probability >= threshold then Merge(ClosureClasses(members, es, threshold), e.left, e.right)
        else ClosureClasses(members, es, threshold)
  {
    assert forall f :: f in es + [e] <==> f in es || f == e;
    assert (es + [e])[..|es + [e]| - 1] == es;
    if e.probability >= threshold ==> e.left in members && e.right in members {
      AboveCovers(members, es, threshold);
      if e.probability >= threshold {
        assert Above(es + [e], threshold) == Above(es, threshold) + [e];
        MergeAllSnoc(Singletons(members), Above(es, threshold), e);
      } else {
        assert Above(es + [e], threshold) == Above(es, threshold);
      }
    }
  }

  lemma KeyErrorInPrefix(members: set<string>, es: seq<ScoredEdge>, i: nat, threshold: real)
    requires i < |es| && !NoKeyError(members, es[..i + 1], threshold)
    ensures !NoKeyError(members, es, threshold)
  {
  }

  /** The loop body; false is the KeyError of an unknown endpoint. */
  method JoinEdge(
    unionFind: UnionFind, members: set<string>, threshold: real, ghost done: seq<ScoredEdge>, edge: ScoredEdge)
    returns (known: bool)
    requires unionFind.Valid() && NoKeyError(members, done, threshold)
    requires View(unionFind.State()) == ClosureClasses(members, done, threshold)
    modifies unionFind
    ensures known <==> NoKeyError(members, done + [edge], threshold)
    ensures known ==> unionFind.Valid()
    ensures known ==> View(unionFind.State()) == ClosureClasses(members, done + [edge], threshold)
  {
    ClosureStep(members, done, edge, threshold);
    known := true;
    if edge.probability >= threshold {
      if edge.left !in unionFind.parent || edge.right !in unionFind.parent {
        return false;
      }
      var _ := unionFind.Union(edge.left, edge.right);
    }
  }

  /** The loop; it stops at the first unknown endpoint. */
  method JoinAll(unionFind: UnionFind, members: set<string>, threshold: real, es: seq<ScoredEdge>)
    returns (known: bool)
    requires unionFind.Valid() && View(unionFind.State()) == Singletons(members)
    modifies unionFind
    ensures known <==> NoKeyError(members, es, threshold)
    ensures known ==> unionFind.Valid() && View(unionFind.State()) == ClosureClasses(members, es, threshold)
  {
    for i := 0 to |es|
      invariant unionFind.Valid()
      invariant NoKeyError(members, es[..i], threshold)
      invariant View(unionFind.State()) == ClosureClasses(members, es[..i], threshold)
    {
      assert es[..i + 1] == es[..i] + [es[i]];
      known := JoinEdge(unionFind, members, threshold, es[..i], es[i]);
      if !known {
        KeyErrorInPrefix(members, es, i, threshold);
        return false;
      }
    }
    assert es[..|es|] == es;
    known := true;
  }

  method ConnectedComponents(members: set<string>, edges: seq<ScoredEdge>, threshold: real)
    returns (r: Option<seq<seq<string>>>)
    ensures r.Some? <==> NoKeyError(members, edges, threshold)
    ensures r.Some? ==> IsCanonical(r.value, ClosureClasses(members, edges, threshold).Values)
  {
    var unionFind := new UnionFind(members);
    OrderedKeyError(members, edges, threshold);
    var known := JoinAll(unionFind, members, threshold, Ordered(edges));
    if !known {
      return None;
    }
    AboveOfOrdered(members, edges, threshold);
    var c := unionFind.Clusters();
    r := Some(c);
  }

  /** Two members share a class exactly when a walk over qualifying edges joins them, and the
      classes form a partition. */
  lemma ClosureIsReachability(members: set<string>, es: seq<ScoredEdge>, threshold: real, x: string, y: string)
    requires NoKeyError(members, es, threshold) && x in members && y in members
    ensures IsPartition(ClosureClasses(members, es, threshold))
    ensures y in ClosureClasses(members, es, threshold)[x] <==> Connected(Above(es, threshold), x, y)
  {
    AboveCovers(members, es, threshold);
    SingletonsPartition(members);
    MergeAllPartition(Singletons(members), Above(es, threshold));
    MergeAllIsReachability(members, Above(es, threshold), x, y);
  }

  /** Any rearrangement (or repetition) of the edges gives the same list of clusters. */
  lemma EdgeOrderIsIrrelevant(
    members: set<string>, es: seq<ScoredEdge>, fs: seq<ScoredEdge>, threshold: real,
    c: seq<seq<string>>, d: seq<seq<string>>)
    requires Within(es, fs) && Within(fs, es) && NoKeyError(members, es, threshold)
    requires IsCanonical(c, ClosureClasses(members, es, threshold).Values)
    requires NoKeyError(members, fs, threshold) ==> IsCanonical(d, ClosureClasses(members, fs, threshold).Values)
    ensures NoKeyError(members, fs, threshold) && c == d
  {
    AboveCovers(members, es, threshold);
    AboveCovers(members, fs, threshold);
    SameEdgesSameClasses(members, Above(es, threshold), Above(fs, threshold));
    CanonicalUnique(c, d, ClosureClasses(members, es, threshold).Values);
  }

  /** Raising the threshold only splits clusters. */
  lemma HigherThresholdRefines(members: set<string>, es: seq<ScoredEdge>, low: real, high: real)
    requires low <= high && NoKeyError(members, es, low)
    ensures NoKeyError(members, es, high)
    ensures forall x | x in members ::
      ClosureClasses(members, es, high)[x] <= ClosureClasses(members, es, low)[x]
  {
    AboveCovers(members, es, low);
    AboveCovers(members, es, high);
    MoreEdgesCoarsen(members, Above(es, high), Above(es, low));
  }

  // ---- cross scores ----

  function ScoreOf(lookup: map<Key, real>, a: string, b: string): real {
    if KeyOf(a, b) in lookup then lookup[KeyOf(a, b)] else 0.0
  }

  function Row(lookup: map<Key, real>, x: string, ys: seq<string>): (r: seq<real>)
    ensures |r| == |ys|
  {
    if ys == [] then [] else [ScoreOf(lookup, x, ys[0])] + Row(lookup, x, ys[1..])
  }

  /** `[score(x, y) for x in xs for y in ys]`. */
  function CrossScores(lookup: map<Key, real>, xs: seq<string>, ys: seq<string>): (r: seq<real>)
    ensures |r| == |xs| * |ys|
  {
    if xs == [] then []
    else Row(lookup, xs[0], ys) + CrossScores(lookup, xs[1..], ys)
  }

  lemma {:induction false} RowConcat(lookup: map<Key, real>, x: string, a: seq<string>, b: seq<string>)
    ensures Row(lookup, x, a + b) == Row(lookup, x, a) + Row(lookup, x, b)
  {
    if a == [] {
      assert a + b == b;
    } else {
      assert (a + b)[1..] == a[1..] + b;
      RowConcat(lookup, x, a[1..], b);
    }
  }

  lemma {:induction false} RowPermutation(lookup: map<Key, real>, x: string, ys: seq<string>, zs: seq<string>)
    requires multiset(ys) == multiset(zs)
    ensures multiset(Row(lookup, x, ys)) == multiset(Row(lookup, x, zs))
  {
    assert |multiset(ys)| == |ys| && |multiset(zs)| == |zs|;
    if ys != [] {
      var l, r := PermutationTail(ys, zs);
      RowPermutation(lookup, x, ys[1..], l + r);
      RowSplit(lookup, x, l, ys[0], r);
    }
  }

  lemma RowSplit(lookup: map<Key, real>, x: string, l: seq<string>, y: string, r: seq<string>)
    ensures multiset(Row(lookup, x, l + [y] + r)) == multiset{ScoreOf(lookup, x, y)} + multiset(Row(lookup, x, l + r))
  {
    RowConcat(lookup, x, l, r);
    RowConcat(lookup, x, l + [y], r);
    RowConcat(lookup, x, l, [y]);
    assert Row(lookup, x, [y]) == [ScoreOf(lookup, x, y)];
  }

  lemma {:induction false} CrossConcat(lookup: map<Key, real>, a: seq<string>, b: seq<string>, ys: seq<string>)
    ensures CrossScores(lookup, a + b, ys) == CrossScores(lookup, a, ys) + CrossScores(lookup, b, ys)
  {
    if a == [] {
      assert a + b == b;
    } else {
      assert (a + b)[1..] == a[1..] + b;
      CrossConcat(lookup, a[1..], b, ys);
    }
  }

  lemma {:induction false} CrossRight(lookup: map<Key, real>, xs: seq<string>, ys: seq<string>, zs: seq<string>)
    requires multiset(ys) == multiset(zs)
    ensures multiset(CrossScores(lookup, xs, ys)) == multiset(CrossScores(lookup, xs, zs))
  {
    if xs != [] {
      RowPermutation(lookup, xs[0], ys, zs);
      CrossRight(lookup, xs[1..], ys, zs);
    }
  }

  lemma CrossSplit(lookup: map<Key, real>, l: seq<string>, x: string, r: seq<string>, ys: seq<string>)
    ensures multiset(CrossScores(lookup, l + [x] + r, ys)) ==
      multiset(Row(lookup, x, ys)) + multiset(CrossScores(lookup, l + r, ys))
  {
    CrossConcat(lookup, l, r, ys);
    CrossConcat(lookup, l + [x], r, ys);
    CrossConcat(lookup, l, [x], ys);
    assert [x][1..] == [];
    assert CrossScores(lookup, [x], ys) == Row(lookup, x, ys);
  }

  lemma {:induction false} CrossLeft(lookup: map<Key, real>, xs: seq<string>, ws: seq<string>, ys: seq<string>)
    requires multiset(xs) == multiset(ws)
    ensures multiset(CrossScores(lookup, xs, ys)) == multiset(CrossScores(lookup, ws, ys))
  {
    assert |multiset(xs)| == |xs| && |multiset(ws)| == |ws|;
    if xs != [] {
      var l, r := PermutationTail(xs, ws);
      CrossLeft(lookup, xs[1..], l + r, ys);
      CrossSplit(lookup, l, xs[0], r, ys);
    }
  }

  /** The scores of two groups, in one fixed enumeration of each group. */
  ghost function GroupScores(lookup: map<Key, real>, a: set<string>, b: set<string>): (s: seq<real>)
    requires a != {} && b != {}
    ensures s != [] && |s| == |a| * |b|
  {
    CrossScores(lookup, Elements(a), Elements(b))
  }

  /** Hash-table iteration order does not influence the statistics of the cross scores. */
  lemma ScoresAreOrderFree(
    lookup: map<Key, real>, a: set<string>, b: set<string>, xs: seq<string>, ys: seq<string>, bar: real)
    requires a != {} && b != {} && multiset(xs) == multiset(a) && multiset(ys) == multiset(b)
    ensures var s, t := CrossScores(lookup, xs, ys), GroupScores(lookup, a, b);
      s != [] && |s| == |t| && Support(s, bar) == Support(t, bar) && Mean(s) == Mean(t) && Median(s) == Median(t)
  {
    var s, t := CrossScores(lookup, xs, ys), GroupScores(lookup, a, b);
    CrossLeft(lookup, xs, Elements(a), ys);
    CrossRight(lookup, Elements(a), ys, Elements(b));
    assert |multiset(s)| == |s| && |multiset(t)| == |t|;
    StatisticsPermutation(s, t, bar);
  }

  // ---- the guard ----

  datatype Params = Params(
    threshold: real, maxClusterSize: int, seedThreshold: real, minimumCrossSupport: real)

  const DEFAULT_MAX_CLUSTER_SIZE: int := 8

  datatype Reason =
    | MergedCohortSupport | RejectMaxCluster | RejectEvidenceDiversity | RejectTransitiveBridge

  datatype Decision = Decision(
    left: string, right: string, edgeType: string, edgeProbability: real,
    crossSupport: real, meanCrossProbability: real, proposedClusterSize: int,
    merge: bool, reason: Reason)

  /** The gates, from the four statistics they read. */
  function Judge(e: ScoredEdge, p: Params, count: int, support: real, mean: real, median: real, size: int)
    : (d: Decision)
    ensures d.merge <==> d.reason.MergedCohortSupport?
  {
    var singletonGate := e.probability >= p.seedThreshold;
    var cohortGate := support >= p.minimumCrossSupport && mean >= p.threshold + 0.04 && median >= p.threshold;
    var allowed := size <= p.maxClusterSize && |e.matchedFamilies| >= 3
      && (if count == 1 then singletonGate else cohortGate);
    Decision(e.left, e.right, e.edgeType, e.probability, support, mean, size, allowed,
      if allowed then MergedCohortSupport
      else if size > p.maxClusterSize then RejectMaxCluster
      else if |e.matchedFamilies| < 3 then RejectEvidenceDiversity
      else RejectTransitiveBridge)
  }

  ghost function Verdict(lookup: map<Key, real>, e: ScoredEdge, p: Params, a: set<string>, b: set<string>): Decision
    requires a != {} && b != {}
  {
    var s := GroupScores(lookup, a, b);
    Judge(e, p, |s|, Support(s, p.threshold), Mean(s), Median(s), |a| + |b|)
  }

  datatype Run = Run(classes: Classes, decisions: seq<Decision>)

  ghost predicate RunOk(members: set<string>, run: Run) {
    run.classes.Keys == members && IsPartition(run.classes)
  }

  /** One pass of the loop body. */
  ghost function GuardStep(members: set<string>, lookup: map<Key, real>, p: Params, run: Run, e: ScoredEdge): (r: Run)
    requires RunOk(members, run)
    requires e.probability >= p.threshold ==> e.left in members && e.right in members
    ensures RunOk(members, r)
  {
    if e.probability < p.threshold then run
    else
      var a, b := run.classes[e.left], run.classes[e.right];
      if a == b then run
      else
        assert e.left in a && e.right in b;
        var d := Verdict(lookup, e, p, a, b);
        MergePartition(run.classes, e.left, e.right);
        Run(
          if d.merge then Merge(run.classes, e.left, e.right) else run.classes,
          if e.edgeType == "bridge_stress" || d.merge then run.decisions + [d] else run.decisions)
  }

  ghost function GuardRun(members: set<string>, lookup: map<Key, real>, p: Params, es: seq<ScoredEdge>): (r: Run)
    requires NoKeyError(members, es, p.threshold)
    ensures RunOk(members, r)
  {
    if es == [] then
      SingletonsPartition(members);
      Run(Singletons(members), [])
    else
      var es', e := es[..|es| - 1], es[|es| - 1];
      assert e in es && forall f | f in es' :: f in es;
      GuardStep(members, lookup, p, GuardRun(members, lookup, p, es'), e)
  }

  /** The whole computation as a function of the arguments. */
  ghost function Guarded(members: set<string>, edges: seq<ScoredEdge>, p: Params): (r: Run)
    requires NoKeyError(members, edges, p.threshold)
    ensures RunOk(members, r)
  {
    OrderedMembers(edges);
    GuardRun(members, Lookup(edges), p, Ordered(edges))
  }

  lemma GuardRunSnoc(members: set<string>, lookup: map<Key, real>, p: Params, es: seq<ScoredEdge>, e: ScoredEdge)
    requires NoKeyError(members, es, p.threshold)
    ensures NoKeyError(members, es + [e], p.threshold) <==>
      (e.probability >= p.threshold ==> e.left in members && e.right in members)
    ensures NoKeyError(members, es + [e], p.threshold) ==>
      GuardRun(members, lookup, p, es + [e]) == GuardStep(members, lookup, p, GuardRun(members, lookup, p, es), e)
  {
    assert forall f :: f in es + [e] <==> f in es || f == e;
    assert (es + [e])[..|es + [e]| - 1] == es;
  }

  /** The decision for an edge between two different groups. */
  method EvaluateEdge(lookup: map<Key, real>, p: Params, edge: ScoredEdge, a: set<string>, b: set<string>)
    returns (d: Decision)
    requires a != {} && b != {}
    ensures d == Verdict(lookup, edge, p, a, b)
  {
    var xs := Enumerate(a);
    var ys := Enumerate(b);
    var scores := CrossScores(lookup, xs, ys);
    ScoresAreOrderFree(lookup, a, b, xs, ys, p.threshold);
    d := Judge(edge, p, |scores|, Support(scores, p.threshold), Mean(scores), Median(scores), |a| + |b|);
  }

  lemma GuardStepCases(members: set<string>, lookup: map<Key, real>, p: Params, run: Run, e: ScoredEdge)
    requires RunOk(members, run) && e.left in members && e.right in members && e.probability >= p.threshold
    ensures var a, b := run.classes[e.left], run.classes[e.right];
      && a != {} && b != {}
      && (a == b ==> GuardStep(members, lookup, p, run, e) == run)
      && (a != b ==> var d := Verdict(lookup, e, p, a, b);
        GuardStep(members, lookup, p, run, e) == Run(
          if d.merge then Merge(run.classes, e.left, e.right) else run.classes,
          if e.edgeType == "bridge_stress" || d.merge then run.decisions + [d] else run.decisions))
  {
    assert e.left in run.classes[e.left] && e.right in run.classes[e.right];
  }

  /** The loop body for an edge at or above the threshold. */
  method ConsiderEdge(
    unionFind: UnionFind, lookup: map<Key, real>, p: Params, edge: ScoredEdge, decisions: seq<Decision>)
    returns (ds: seq<Decision>)
    requires unionFind.Valid() && edge.left in unionFind.parent && edge.right in unionFind.parent
    modifies unionFind
    ensures unionFind.Valid()
    ensures var c := old(View(unionFind.State()));
      var a, b := c[edge.left], c[edge.right];
      && a != {} && b != {}
      && (a == b ==> View(unionFind.State()) == c && ds == decisions)
      && (a != b ==> var d := Verdict(lookup, edge, p, a, b);
        && View(unionFind.State()) == (if d.merge then Merge(c, edge.left, edge.right) else c)
        && ds == if edge.edgeType == "bridge_stress" || d.merge then decisions + [d] else decisions)
  {
    ds := decisions;
    ClassNotEmpty(unionFind.State(), edge.left);
    ClassNotEmpty(unionFind.State(), edge.right);
    var leftGroup := unionFind.Members(edge.left);
    var rightGroup := unionFind.Members(edge.right);
    if leftGroup != rightGroup {
      var d := EvaluateEdge(lookup, p, edge, leftGroup, rightGroup);
      if edge.edgeType == "bridge_stress" || d.merge {
        ds := ds + [d];
      }
      if d.merge {
        var _ := unionFind.Union(edge.left, edge.right);
      }
    }
  }

  lemma ClassNotEmpty(f: Forest, m: string)
    requires Inv(f) && m in f.parent
    ensures View(f)[m] != {}
  {
    assert NodeOk(f, m);
    assert m in View(f)[m];
  }

  /** The whole loop body; None is the KeyError of an unknown endpoint. */
  method VisitEdge(
    unionFind: UnionFind, members: set<string>, lookup: map<Key, real>, p: Params,
    ghost done: seq<ScoredEdge>, edge: ScoredEdge, decisions: seq<Decision>)
    returns (r: Option<seq<Decision>>)
    requires unionFind.Valid() && NoKeyError(members, done, p.threshold)
    requires Run(View(unionFind.State()), decisions) == GuardRun(members, lookup, p, done)
    modifies unionFind
    ensures r.Some? <==> NoKeyError(members, done + [edge], p.threshold)
    ensures r.Some? ==> unionFind.Valid()
    ensures r.Some? ==> Run(View(unionFind.State()), r.value) == GuardRun(members, lookup, p, done + [edge])
  {
    GuardRunSnoc(members, lookup, p, done, edge);
    if edge.probability < p.threshold {
      return Some(decisions);
    }
    if edge.left !in unionFind.parent || edge.right !in unionFind.parent {
      return None;
    }
    GuardStepCases(members, lookup, p, GuardRun(members, lookup, p, done), edge);
    var ds := ConsiderEdge(unionFind, lookup, p, edge, decisions);
    r := Some(ds);
  }

  method GuardedComponents(members: set<string>, edges: seq<ScoredEdge>, p: Params)
    returns (r: Option<(seq<seq<string>>, seq<Decision>)>)
    ensures r.Some? <==> NoKeyError(members, edges, p.threshold)
    ensures r.Some? ==> IsCanonical(r.value.0, Guarded(members, edges, p).classes.Values)
    ensures r.Some? ==> r.value.1 == Guarded(members, edges, p).decisions
  {
    var lookup := Lookup(edges);
    var unionFind := new UnionFind(members);
    var decisions: seq<Decision> := [];
    var es := Ordered(edges);
    OrderedMembers(edges);
    for i := 0 to |es|
      invariant unionFind.Valid() && fresh(unionFind)
      invariant NoKeyError(members, es[..i], p.threshold)
      invariant Run(View(unionFind.State()), decisions) == GuardRun(members, lookup, p, es[..i])
    {
      assert es[..i + 1] == es[..i] + [es[i]];
      var step := VisitEdge(unionFind, members, lookup, p, es[..i], es[i], decisions);
      if step.None? {
        KeyErrorInPrefix(members, es, i, p.threshold);
        return None;
      }
      decisions := step.value;
    }
    assert es[..|es|] == es;
    var c := unionFind.Clusters();
    r := Some((c, decisions));
  }
}
