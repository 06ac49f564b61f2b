/** Weighted association graphs, the partition that merging edges produces, and
    reachability, its independent meaning. */
module Graph {

  datatype ScoredEdge = ScoredEdge(
    left: string, right: string, probability: real,
    matchedFamilies: seq<string>, edgeType: string)

  /** Every member's class. */
  type Classes = map<string, set<string>>

  ghost predicate IsPartition(c: Classes) {
    forall x | x in c :: x in c[x] && forall y | y in c[x] :: y in c && c[y] == c[x]
  }

  function Singletons(members: set<string>): (c: Classes)
    ensures c.Keys == members
  {
    map m | m in members :: {m}
  }

  predicate Covers(members: set<string>, es: seq<ScoredEdge>) {
    forall i | 0 <= i < |es| :: es[i].left in members && es[i].right in members
  }

  function Merge(c: Classes, l: string, r: string): (d: Classes)
    requires l in c && r in c
    ensures d.Keys == c.Keys
  {
    map m | m in c :: if c[m] == c[l] || c[m] == c[r] then c[l] + c[r] else c[m]
  }

  /** Merging the edges in list order. */
  function MergeAll(c: Classes, es: seq<ScoredEdge>): (d: Classes)
    requires Covers(c.Keys, es)
    ensures d.Keys == c.Keys
  {
    if es == [] then c
    else Merge(MergeAll(c, es[..|es| - 1]), es[|es| - 1].left, es[|es| - 1].right)
  }

  lemma {:induction false} MergeAllSnoc(c: Classes, es: seq<ScoredEdge>, e: ScoredEdge)
    requires Covers(c.Keys, es) && e.left in c && e.right in c
    ensures Covers(c.Keys, es + [e])
    ensures MergeAll(c, es + [e]) == Merge(MergeAll(c, es), e.left, e.right)
  {
    assert (es + [e])[..|es + [e]| - 1] == es;
  }

  lemma SingletonsPartition(members: set<string>)
    ensures IsPartition(Singletons(members))
  {
  }

  lemma MergePartition(c: Classes, l: string, r: string)
    requires IsPartition(c) && l in c && r in c
    ensures IsPartition(Merge(c, l, r))
  {
    var d := Merge(c, l, r);
    forall x, y | x in d && y in d[x] ensures y in d && d[y] == d[x] {
      if d[x] == c[l] + c[r] {
        assert y in c[l] || y in c[r];
      }
    }
  }

  lemma MergeSameClass(c: Classes, l: string, r: string)
    requires l in c && r in c && c[l] == c[r]
    ensures Merge(c, l, r) == c
  {
    assert c[l] + c[r] == c[l];
  }

  /** Where the members of a merged class come from. */
  lemma MergeSources(c: Classes, l: string, r: string, x: string, y: string)
    requires IsPartition(c) && l in c && r in c && x in c && y in Merge(c, l, r)[x]
    ensures y in c[x] || (l in c[x] && y in c[r]) || (r in c[x] && y in c[l])
  {
  }

  lemma {:induction false} MergeAllPartition(c: Classes, es: seq<ScoredEdge>)
    requires IsPartition(c) && Covers(c.Keys, es)
    ensures IsPartition(MergeAll(c, es))
  {
    if es != [] {
      MergeAllPartition(c, es[..|es| - 1]);
      MergePartition(MergeAll(c, es[..|es| - 1]), es[|es| - 1].left, es[|es| - 1].right);
    }
  }

  // ---- counting classes ----

  /** Merging two different classes leaves one class fewer. */
  lemma MergeCount(c: Classes, l: string, r: string)
    requires IsPartition(c) && l in c && r in c && c[l] != c[r]
    ensures |Merge(c, l, r).Values| == |c.Values| - 1
  {
    var d := Merge(c, l, r);
    var rest := c.Values - {c[l], c[r]};
    var u := c[l] + c[r];
    forall m | m in c ensures c[m] != u {
      assert l in u && r in u && c[l] != c[r];
    }
    forall g ensures g in d.Values <==> g in rest + {u} {
      if g in d.Values { var m :| m in d && d[m] == g; }
      if g in rest { var m :| m in c && c[m] == g; assert d[m] == g; }
      assert d[l] == u;
    }
    assert d.Values == rest + {u};
    assert c.Values == rest + {c[l], c[r]};
    assert |{c[l], c[r]}| == 2;
  }

  lemma SingletonsCount(members: set<string>)
    ensures |Singletons(members).Values| == |members|
    decreases |members|
  {
    if members != {} {
      var m :| m in members;
      SingletonsCount(members - {m});
      var c, d := Singletons(members), Singletons(members - {m});
      assert c[m] == {m};
      forall g ensures g in c.Values <==> g in d.Values + {{m}} {
        if g in c.Values { var x :| x in c && c[x] == g; if x != m { assert d[x] == g; } }
        if g in d.Values { var x :| x in d && d[x] == g; assert c[x] == g; }
      }
      assert c.Values == d.Values + {{m}};
      assert {m} !in d.Values;
    }
  }

  /** Each merge removes at most one class. */
  lemma {:induction false} MergeAllCount(members: set<string>, es: seq<ScoredEdge>)
    requires Covers(members, es)
    ensures |MergeAll(Singletons(members), es).Values| >= |members| - |es|
  {
    SingletonsCount(members);
    if es != [] {
      var es', e := es[..|es| - 1], es[|es| - 1];
      MergeAllCount(members, es');
      var c := MergeAll(Singletons(members), es');
      SingletonsPartition(members);
      MergeAllPartition(Singletons(members), es');
      if c[e.left] != c[e.right] { MergeCount(c, e.left, e.right); } else { MergeSameClass(c, e.left, e.right); }
    }
  }

  // ---- reachability ----

  ghost predicate Linked(es: seq<ScoredEdge>, x: string, y: string) {
    exists i | 0 <= i < |es| ::
      (es[i].left == x && es[i].right == y) || (es[i].left == y && es[i].right == x)
  }

  ghost predicate IsPath(es: seq<ScoredEdge>, p: seq<string>) {
    p != [] && forall i | 0 < i < |p| :: Linked(es, p[i - 1], p[i])
  }

  /** Some walk along the edges leads from `x` to `y`: the reflexive, symmetric and
      transitive closure of being linked. */
  ghost predicate Connected(es: seq<ScoredEdge>, x: string, y: string) {
    exists p :: IsPath(es, p) && p[0] == x && p[|p| - 1] == y
  }

  lemma ConnectedReflexive(es: seq<ScoredEdge>, x: string)
    ensures Connected(es, x, x)
  {
    assert IsPath(es, [x]);
  }

  lemma LinkedConnected(es: seq<ScoredEdge>, x: string, y: string)
    requires Linked(es, x, y)
    ensures Connected(es, x, y) && Connected(es, y, x)
  {
    assert IsPath(es, [x, y]) && [x, y][1] == y;
    assert IsPath(es, [y, x]) && [y, x][1] == x;
  }

  lemma ConnectedTransitive(es: seq<ScoredEdge>, x: string, y: string, z: string)
    requires Connected(es, x, y) && Connected(es, y, z)
    ensures Connected(es, x, z)
  {
    var p :| IsPath(es, p) && p[0] == x && p[|p| - 1] == y;
    var q :| IsPath(es, q) && q[0] == y && q[|q| - 1] == z;
    var w := p + q[1..];
    forall i | 0 < i < |w| ensures Linked(es, w[i - 1], w[i]) {
      if i < |p| { assert Linked(es, p[i - 1], p[i]); }
      else { assert Linked(es, q[i - |p|], q[i - |p| + 1]); }
    }
    assert IsPath(es, w) && w[0] == x && w[|w| - 1] == z;
  }

  ghost predicate Within(es: seq<ScoredEdge>, fs: seq<ScoredEdge>) {
    forall e | e in es :: e in fs
  }

  lemma ConnectedMonotone(es: seq<ScoredEdge>, fs: seq<ScoredEdge>, x: string, y: string)
    requires Within(es, fs) && Connected(es, x, y)
    ensures Connected(fs, x, y)
  {
    var p :| IsPath(es, p) && p[0] == x && p[|p| - 1] == y;
    forall i | 0 < i < |p| ensures Linked(fs, p[i - 1], p[i]) {
      assert Linked(es, p[i - 1], p[i]);
      var k :| 0 <= k < |es| &&
        ((es[k].left == p[i - 1] && es[k].right == p[i]) || (es[k].left == p[i] && es[k].right == p[i - 1]));
      assert es[k] in fs;
      var m :| 0 <= m < |fs| && fs[m] == es[k];
    }
    assert IsPath(fs, p);
  }

  // ---- merging edges computes reachability ----

  ghost predicate LinksInside(c: Classes, es: seq<ScoredEdge>) {
    forall i | 0 <= i < |es| :: es[i].left in c && es[i].right in c && c[es[i].left] == c[es[i].right]
  }

  lemma MergeKeepsLinks(c: Classes, es: seq<ScoredEdge>, e: ScoredEdge)
    requires IsPartition(c) && LinksInside(c, es) && e.left in c && e.right in c
    ensures LinksInside(Merge(c, e.left, e.right), es + [e])
  {
    var d := Merge(c, e.left, e.right);
    forall i | 0 <= i < |es + [e]|
      ensures var f := (es + [e])[i]; f.left in d && f.right in d && d[f.left] == d[f.right]
    {
      if i < |es| { assert (es + [e])[i] == es[i]; }
    }
  }

  lemma {:induction false} MergeAllJoins(c: Classes, es: seq<ScoredEdge>)
    requires IsPartition(c) && Covers(c.Keys, es)
    ensures LinksInside(MergeAll(c, es), es)
  {
    if es != [] {
      var es', e := es[..|es| - 1], es[|es| - 1];
      MergeAllJoins(c, es');
      MergeAllPartition(c, es');
      MergeKeepsLinks(MergeAll(c, es'), es', e);
      assert es' + [e] == es;
    }
  }

  /** A walk never leaves its class. */
  lemma {:induction false} PathStaysInClass(c: Classes, es: seq<ScoredEdge>, p: seq<string>)
    requires IsPartition(c) && LinksInside(c, es) && IsPath(es, p) && p[0] in c
    ensures p[|p| - 1] in c && c[p[|p| - 1]] == c[p[0]]
    decreases |p|
  {
    if |p| > 1 {
      var p' := p[..|p| - 1];
      assert IsPath(es, p') by {
        forall i | 0 < i < |p'| ensures Linked(es, p'[i - 1], p'[i]) { assert Linked(es, p[i - 1], p[i]); }
      }
      PathStaysInClass(c, es, p');
      assert Linked(es, p[|p| - 2], p[|p| - 1]);
    }
  }

  lemma {:induction false} ClassIsConnected(members: set<string>, es: seq<ScoredEdge>, x: string, y: string)
    requires Covers(members, es) && x in members && y in MergeAll(Singletons(members), es)[x]
    ensures Connected(es, x, y)
    decreases |es|
  {
    if es == [] {
      ConnectedReflexive(es, x);
    } else {
      var es', e := es[..|es| - 1], es[|es| - 1];
      var c := MergeAll(Singletons(members), es');
      SingletonsPartition(members);
      MergeAllPartition(Singletons(members), es');
      MergeSources(c, e.left, e.right, x, y);
      if y in c[x] {
        ClassIsConnected(members, es', x, y);
        ConnectedMonotone(es', es, x, y);
      } else if e.left in c[x] && y in c[e.right] {
        ClassIsConnected(members, es', x, e.left);
        ClassIsConnected(members, es', e.right, y);
        BridgeConnects(es', es, x, e.left, e.right, y);
      } else {
        ClassIsConnected(members, es', x, e.right);
        ClassIsConnected(members, es', e.left, y);
        BridgeConnects(es', es, x, e.right, e.left, y);
      }
    }
  }

  lemma BridgeConnects(es': seq<ScoredEdge>, es: seq<ScoredEdge>, x: string, a: string, b: string, y: string)
    requires Within(es', es) && Connected(es', x, a) && Linked(es, a, b) && Connected(es', b, y)
    ensures Connected(es, x, y)
  {
    ConnectedMonotone(es', es, x, a);
    ConnectedMonotone(es', es, b, y);
    LinkedConnected(es, a, b);
    ConnectedTransitive(es, x, a, b);
    ConnectedTransitive(es, x, b, y);
  }

  /** Merging all edges yields exactly the reachability classes. */
  lemma MergeAllIsReachability(members: set<string>, es: seq<ScoredEdge>, x: string, y: string)
    requires Covers(members, es) && x in members && y in members
    ensures y in MergeAll(Singletons(members), es)[x] <==> Connected(es, x, y)
  {
    var c := MergeAll(Singletons(members), es);
    SingletonsPartition(members);
    MergeAllPartition(Singletons(members), es);
    MergeAllJoins(Singletons(members), es);
    if y in c[x] { ClassIsConnected(members, es, x, y); }
    if Connected(es, x, y) {
      var p :| IsPath(es, p) && p[0] == x && p[|p| - 1] == y;
      PathStaysInClass(c, es, p);
    }
  }

  /** The partition depends on the set of edges only, and more edges only coarsen it. */
  lemma MoreEdgesCoarsen(members: set<string>, es: seq<ScoredEdge>, fs: seq<ScoredEdge>)
    requires Covers(members, es) && Covers(members, fs) && Within(es, fs)
    ensures forall x | x in members ::
      MergeAll(Singletons(members), es)[x] <= MergeAll(Singletons(members), fs)[x]
  {
    SingletonsPartition(members);
    MergeAllPartition(Singletons(members), es);
    forall x, y | x in members && y in MergeAll(Singletons(members), es)[x]
      ensures y in MergeAll(Singletons(members), fs)[x]
    {
      assert y in MergeAll(Singletons(members), es);
      MergeAllIsReachability(members, es, x, y);
      ConnectedMonotone(es, fs, x, y);
      MergeAllIsReachability(members, fs, x, y);
    }
  }

  lemma SameEdgesSameClasses(members: set<string>, es: seq<ScoredEdge>, fs: seq<ScoredEdge>)
    requires Covers(members, es) && Covers(members, fs) && Within(es, fs) && Within(fs, es)
    ensures MergeAll(Singletons(members), es) == MergeAll(Singletons(members), fs)
  {
    MoreEdgesCoarsen(members, es, fs);
    MoreEdgesCoarsen(members, fs, es);
    var c, d := MergeAll(Singletons(members), es), MergeAll(Singletons(members), fs);
    assert forall x | x in c :: c[x] == d[x];
  }

  // ---- forests ----

  function Without(es: seq<ScoredEdge>, i: nat): (r: seq<ScoredEdge>)
    requires i < |es|
    ensures |r| == |es| - 1
  {
    es[..i] + es[i + 1..]
  }

  /** Acyclic: no edge closes a cycle, that is, deleting any edge disconnects its ends. */
  ghost predicate IsForest(es: seq<ScoredEdge>) {
    forall i | 0 <= i < |es| :: !Connected(Without(es, i), es[i].left, es[i].right)
  }

  /** Edges that each removed one class form a forest. */
  lemma CountForcesForest(members: set<string>, es: seq<ScoredEdge>)
    requires Covers(members, es)
    requires |MergeAll(Singletons(members), es).Values| == |members| - |es|
    ensures IsForest(es)
  {
    forall i | 0 <= i < |es| ensures !Connected(Without(es, i), es[i].left, es[i].right) {
      if Connected(Without(es, i), es[i].left, es[i].right) {
        var fs := Without(es, i);
        RedundantEdge(members, es, i);
        MergeAllCount(members, fs);
        assert false;
      }
    }
  }

  lemma WithoutCovers(members: set<string>, es: seq<ScoredEdge>, i: nat)
    requires Covers(members, es) && i < |es|
    ensures Covers(members, Without(es, i))
    ensures Within(es, Without(es, i) + [es[i]]) && Within(Without(es, i) + [es[i]], es)
  {
    var fs := Without(es, i);
    forall k | 0 <= k < |fs| ensures fs[k].left in members && fs[k].right in members && fs[k] in es {
      assert fs[k] == if k < i then es[k] else es[k + 1];
    }
    forall f | f in es ensures f in fs + [es[i]] {
      var k :| 0 <= k < |es| && es[k] == f;
      if k < i { assert fs[k] == f; } else if k > i { assert fs[k - 1] == f; }
    }
  }

  lemma RedundantEdge(members: set<string>, es: seq<ScoredEdge>, i: nat)
    requires Covers(members, es) && i < |es|
    requires Connected(Without(es, i), es[i].left, es[i].right)
    ensures Covers(members, Without(es, i))
    ensures MergeAll(Singletons(members), es) == MergeAll(Singletons(members), Without(es, i))
  {
    var fs, e := Without(es, i), es[i];
    WithoutCovers(members, es, i);
    var c := MergeAll(Singletons(members), fs);
    MergeAllIsReachability(members, fs, e.left, e.right);
    SingletonsPartition(members);
    MergeAllPartition(Singletons(members), fs);
    MergeSameClass(c, e.left, e.right);
    MergeAllSnoc(Singletons(members), fs, e);
    SameEdgesSameClasses(members, es, fs + [e]);
  }
}
