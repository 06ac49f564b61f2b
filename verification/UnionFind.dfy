/** The mutable disjoint-set structure: parent pointers with path compression, union by
    size, and the explicit member sets kept beside them. */
module DisjointSets {
  import opened Order
  import opened Graph

  function Pow2(n: nat): (p: nat)
    ensures p >= n + 1
  {
    if n == 0 then 1 else 2 * Pow2(n - 1)
  }

  /** A snapshot of the structure: `parent` and `groups` as the program stores them, and for every
      member the root of its tree and a bound on its depth. */
  datatype Forest = Forest(
    parent: map<string, string>, groups: map<string, set<string>>,
    root: map<string, string>, depth: map<string, nat>)

  /** The parent pointer of `m` lowers `depth` and leads to the root of `m`, whose group holds `m`
      and is exponentially large in the depth. */
  ghost predicate NodeOk(f: Forest, m: string) {
    && m in f.parent && m in f.root && m in f.depth
    && var p, r := f.parent[m], f.root[m];
    && p in f.parent && p in f.root && p in f.depth
    && r in f.parent && f.parent[r] == r && r in f.groups && m in f.groups[r]
    && (if p == m then r == m && f.depth[m] == 0 else f.depth[p] < f.depth[m] && f.root[p] == r)
    && Pow2(f.depth[m]) <= |f.groups[r]|
  }

  ghost predicate GroupOk(f: Forest, r: string) {
    && r in f.groups && r in f.parent && f.parent[r] == r
    && forall m | m in f.groups[r] :: m in f.root && f.root[m] == r
  }

  ghost predicate Inv(f: Forest) {
    && f.root.Keys == f.parent.Keys && f.depth.Keys == f.parent.Keys
    && (forall m {:trigger NodeOk(f, m)} | m in f.parent :: NodeOk(f, m))
    && (forall r {:trigger GroupOk(f, r)} | r in f.groups :: GroupOk(f, r))
  }

  /** The partition the structure stands for. */
  ghost function View(f: Forest): (c: Classes)
    requires Inv(f)
    ensures c.Keys == f.parent.Keys
  {
    map m | m in f.parent :: assert NodeOk(f, m); f.groups[f.root[m]]
  }

  lemma ViewIsPartition(f: Forest)
    requires Inv(f)
    ensures IsPartition(View(f))
  {
    forall m | m in f.parent ensures m in View(f)[m] {
      assert NodeOk(f, m);
    }
    forall m, y | m in f.parent && y in View(f)[m] ensures y in View(f) && View(f)[y] == View(f)[m] {
      ClassMember(f, m, y);
    }
  }

  lemma ClassMember(f: Forest, m: string, y: string)
    requires Inv(f) && m in f.parent && y in View(f)[m]
    ensures y in f.parent && View(f)[y] == View(f)[m]
  {
    assert NodeOk(f, m) && GroupOk(f, f.root[m]);
  }

  /** The groups are the classes, and their keys are the roots. */
  lemma GroupsAreClasses(f: Forest)
    requires Inv(f)
    ensures View(f).Values == f.groups.Values
    ensures forall r :: r in f.groups <==> r in f.parent && f.parent[r] == r
  {
    forall r ensures r in f.groups <==> r in f.parent && f.parent[r] == r {
      if r in f.groups { assert GroupOk(f, r); }
      if r in f.parent { assert NodeOk(f, r); }
    }
    forall g ensures g in View(f).Values <==> g in f.groups.Values {
      if g in View(f).Values {
        var m :| m in f.parent && View(f)[m] == g;
        assert NodeOk(f, m);
      }
      if g in f.groups.Values {
        var r :| r in f.groups && f.groups[r] == g;
        assert GroupOk(f, r) && NodeOk(f, r);
        assert View(f)[r] == g;
      }
    }
  }

  lemma SameClassSameRoot(f: Forest, x: string, y: string)
    requires Inv(f) && x in f.parent && y in f.parent
    ensures NodeOk(f, x) && NodeOk(f, y)
    ensures View(f)[x] == View(f)[y] <==> f.root[x] == f.root[y]
  {
    assert NodeOk(f, x) && NodeOk(f, y) && GroupOk(f, f.root[y]);
  }

  /** The nodes that `find` walks over. */
  ghost function PathSet(f: Forest, m: string): set<string>
    requires Inv(f) && m in f.parent
    decreases if m in f.depth then f.depth[m] else 0
  {
    assert NodeOk(f, m);
    if f.parent[m] == m then {m} else {m} + PathSet(f, f.parent[m])
  }

  /** Path compression: every walked node points straight at its root. */
  ghost function Compress(f: Forest, m: string): Forest
    requires Inv(f) && m in f.parent
  {
    var path := PathSet(f, m);
    f.(parent := map x | x in f.parent :: assert NodeOk(f, x); if x in path then f.root[x] else f.parent[x])
  }

  lemma CompressKeepsNode(f: Forest, m: string, x: string)
    requires Inv(f) && m in f.parent && x in f.parent
    ensures NodeOk(Compress(f, m), x)
  {
    assert NodeOk(f, x);
    assert NodeOk(f, f.root[x]);
  }

  lemma CompressKeepsGroup(f: Forest, m: string, r: string)
    requires Inv(f) && m in f.parent && r in f.groups
    ensures GroupOk(Compress(f, m), r)
  {
    assert GroupOk(f, r);
    assert NodeOk(f, r);
  }

  lemma CompressKeeps(f: Forest, m: string)
    requires Inv(f) && m in f.parent
    ensures Inv(Compress(f, m)) && View(Compress(f, m)) == View(f)
  {
    var g := Compress(f, m);
    forall x {:trigger NodeOk(g, x)} | x in g.parent ensures NodeOk(g, x) {
      CompressKeepsNode(f, m, x);
    }
    forall r {:trigger GroupOk(g, r)} | r in g.groups ensures GroupOk(g, r) {
      CompressKeepsGroup(f, m, r);
    }
  }

  /** Hanging the tree of root `below` under root `top`. */
  ghost function Attach(f: Forest, top: string, below: string): Forest
    requires Inv(f) && top in f.groups && below in f.groups
  {
    Forest(
      f.parent[below := top],
      (f.groups - {below})[top := f.groups[top] + f.groups[below]],
      map m | m in f.root :: if f.root[m] == below then top else f.root[m],
      map m | m in f.depth :: assert m in f.root; if f.root[m] == below then f.depth[m] + 1 else f.depth[m])
  }

  /** Union by size keeps the depth bound because the smaller tree is the one that sinks. */
  lemma AttachKeepsNode(f: Forest, top: string, below: string, x: string)
    requires Inv(f) && top in f.groups && below in f.groups && top != below
    requires |f.groups[below]| <= |f.groups[top]| && x in f.parent
    ensures NodeOk(Attach(f, top, below), x)
  {
    assert GroupOk(f, top) && GroupOk(f, below);
    assert NodeOk(f, top) && NodeOk(f, below) && NodeOk(f, x) && NodeOk(f, f.parent[x]);
    var a, b := f.groups[top], f.groups[below];
    assert a !! b;
    assert |a + b| == |a| + |b|;
  }

  lemma AttachKeepsGroup(f: Forest, top: string, below: string, r: string)
    requires Inv(f) && top in f.groups && below in f.groups && top != below
    requires r in Attach(f, top, below).groups
    ensures GroupOk(Attach(f, top, below), r)
  {
    assert GroupOk(f, top) && GroupOk(f, below) && GroupOk(f, r);
    assert NodeOk(f, top) && NodeOk(f, below) && NodeOk(f, r);
  }

  lemma AttachKeeps(f: Forest, top: string, below: string)
    requires Inv(f) && top in f.groups && below in f.groups && top != below
    requires |f.groups[below]| <= |f.groups[top]|
    ensures Inv(Attach(f, top, below))
  {
    var g := Attach(f, top, below);
    assert GroupOk(f, top) && GroupOk(f, below);
    forall x {:trigger NodeOk(g, x)} | x in g.parent ensures NodeOk(g, x) {
      AttachKeepsNode(f, top, below, x);
    }
    forall r {:trigger GroupOk(g, r)} | r in g.groups ensures GroupOk(g, r) {
      AttachKeepsGroup(f, top, below, r);
    }
  }

  lemma AttachMerges(f: Forest, top: string, below: string, l: string, r: string)
    requires Inv(f) && top in f.groups && below in f.groups && top != below
    requires |f.groups[below]| <= |f.groups[top]|
    requires l in f.root && r in f.root && {f.root[l], f.root[r]} == {top, below}
    ensures Inv(Attach(f, top, below))
    ensures View(Attach(f, top, below)) == Merge(View(f), l, r)
  {
    AttachKeeps(f, top, below);
    assert f.root[l] in {top, below} && f.root[r] in {top, below};
    assert top in {f.root[l], f.root[r]};
    assert f.groups[top] + f.groups[below] == View(f)[l] + View(f)[r];
    forall x | x in f.parent ensures View(Attach(f, top, below))[x] == Merge(View(f), l, r)[x] {
      AttachMergesAt(f, top, below, l, r, x);
    }
  }

  lemma AttachMergesAt(f: Forest, top: string, below: string, l: string, r: string, x: string)
    requires Inv(f) && top in f.groups && below in f.groups && top != below && Inv(Attach(f, top, below))
    requires l in f.root && r in f.root && {f.root[l], f.root[r]} == {top, below}
    requires f.groups[top] + f.groups[below] == View(f)[l] + View(f)[r]
    requires x in f.parent
    ensures View(Attach(f, top, below))[x] == Merge(View(f), l, r)[x]
  {
    SameClassSameRoot(f, x, l);
    SameClassSameRoot(f, x, r);
    assert f.root[l] in {top, below} && f.root[r] in {top, below};
    assert top in {f.root[l], f.root[r]} && below in {f.root[l], f.root[r]};
    assert NodeOk(f, x) && NodeOk(Attach(f, top, below), x);
  }

  /** `n` parent steps from `m`. */
  ghost function Climb(f: Forest, m: string, n: nat): (x: string)
    requires Inv(f) && m in f.parent
    ensures x in f.parent
    decreases n
  {
    assert NodeOk(f, m);
    if n == 0 then m else Climb(f, f.parent[m], n - 1)
  }

  lemma {:induction false} RootStays(f: Forest, m: string, n: nat)
    requires Inv(f) && m in f.parent && f.parent[m] == m
    ensures Climb(f, m, n) == m
    decreases n
  {
    if n > 0 { RootStays(f, m, n - 1); }
  }

  lemma {:induction false} ClimbReachesRoot(f: Forest, m: string, n: nat)
    requires Inv(f) && m in f.parent && NodeOk(f, m) && n >= f.depth[m]
    ensures Climb(f, m, n) == f.root[m]
    decreases n
  {
    if f.parent[m] == m {
      RootStays(f, m, n);
    } else {
      assert NodeOk(f, f.parent[m]);
      ClimbReachesRoot(f, f.parent[m], n - 1);
    }
  }

  ghost predicate RootAfter(f: Forest, m: string, n: nat)
    requires Inv(f) && m in f.parent
  {
    var r := Climb(f, m, n);
    f.parent[r] == r && r in f.groups && f.groups[r] == View(f)[m]
  }

  /** The recursion of `find` is shallow: the root of `m`, the only self-parented ancestor, is reached
      in some `n` parent steps with 2^n <= |group of m|. Hence parent pointers are acyclic. */
  lemma DepthIsLogarithmic(f: Forest, m: string)
    requires Inv(f) && m in f.parent
    ensures exists n: nat :: RootAfter(f, m, n) && Pow2(n) <= |View(f)[m]|
  {
    assert NodeOk(f, m);
    ClimbReachesRoot(f, m, f.depth[m]);
    assert RootAfter(f, m, f.depth[m]);
  }

  /** What `union` does to the whole structure: both lookups compress, then the root of the smaller
      group is hung under the root of the larger one, the left root winning a tie. */
  ghost function UnionState(f: Forest, l: string, r: string): Forest
    requires Inv(f) && l in f.parent && r in f.parent
  {
    CompressKeeps(f, l);
    CompressKeeps(Compress(f, l), r);
    Joined(Compress(Compress(f, l), r), l, r)
  }

  ghost function Joined(f: Forest, l: string, r: string): Forest
    requires Inv(f) && l in f.parent && r in f.parent
  {
    assert NodeOk(f, l) && NodeOk(f, r);
    var lr, rr := f.root[l], f.root[r];
    if lr == rr then f
    else if |f.groups[lr]| < |f.groups[rr]| then Attach(f, rr, lr)
    else Attach(f, lr, rr)
  }

  lemma JoinedMerges(f: Forest, l: string, r: string)
    requires Inv(f) && l in f.parent && r in f.parent
    ensures Inv(Joined(f, l, r))
    ensures View(Joined(f, l, r)) == Merge(View(f), l, r)
  {
    SameClassSameRoot(f, l, r);
    var lr, rr := f.root[l], f.root[r];
    if lr == rr {
      MergeSameClass(View(f), l, r);
    } else if |f.groups[lr]| < |f.groups[rr]| {
      AttachMerges(f, rr, lr, l, r);
    } else {
      AttachMerges(f, lr, rr, l, r);
    }
  }

  lemma UnionStateMerges(f: Forest, l: string, r: string)
    requires Inv(f) && l in f.parent && r in f.parent
    ensures Inv(UnionState(f, l, r))
    ensures View(UnionState(f, l, r)) == Merge(View(f), l, r)
    ensures View(f)[l] == View(f)[r] <==> f.root[l] == f.root[r]
  {
    CompressKeeps(f, l);
    CompressKeeps(Compress(f, l), r);
    JoinedMerges(Compress(Compress(f, l), r), l, r);
    SameClassSameRoot(f, l, r);
  }

  class UnionFind {
    var parent: map<string, string>
    var groups: map<string, set<string>>
    ghost var root: map<string, string>
    ghost var depth: map<string, nat>

    ghost function State(): Forest
      reads this
    {
      Forest(parent, groups, root, depth)
    }

    ghost predicate Valid()
      reads this
    {
      Inv(State())
    }

    constructor (members: set<string>)
      ensures Valid() && View(State()) == Singletons(members)
    {
      parent := map m | m in members :: m;
      groups := map m | m in members :: {m};
      root := map m | m in members :: m;
      depth := map m | m in members :: 0;
      new;
      forall m | m in parent ensures NodeOk(State(), m) { }
      forall r | r in groups ensures GroupOk(State(), r) { }
    }

    /** Returns the root and compresses the walked path; nothing else changes. */
    method Find(member: string) returns (r: string)
      requires Valid() && member in parent
      modifies this`parent
      ensures State() == old(Compress(State(), member))
      ensures Valid() && View(State()) == old(View(State()))
      ensures member in root && r == root[member]
      decreases if member in depth then depth[member] else 0
    {
      ghost var f := State();
      CompressKeeps(f, member);
      assert NodeOk(f, member);
      var p := parent[member];
      if p != member {
        assert NodeOk(f, p);
        r := Find(p);
        parent := parent[member := r];
      } else {
        r := p;
      }
      assert parent == Compress(f, member).parent by {
        forall x | x in f.parent ensures parent[x] == Compress(f, member).parent[x] { assert NodeOk(f, x); }
      }
    }

    /** The group of a member. */
    method Members(member: string) returns (g: set<string>)
      requires Valid() && member in parent
      modifies this`parent
      ensures Valid() && View(State()) == old(View(State()))
      ensures g == View(State())[member]
    {
      var r := Find(member);
      assert NodeOk(State(), member);
      g := groups[r];
    }

    /** Joins the two groups; returns whether they differed. */
    method Union(left: string, right: string) returns (merged: bool)
      requires Valid() && left in parent && right in parent
      modifies this
      ensures State() == old(UnionState(State(), left, right))
      ensures Valid() && View(State()) == Merge(old(View(State())), left, right)
      ensures merged <==> old(View(State())[left] != View(State())[right])
    {
      UnionStateMerges(State(), left, right);
      var leftRoot := Find(left);
      var rightRoot := Find(right);
      merged := leftRoot != rightRoot;
      if merged {
        Link(left, right, leftRoot, rightRoot);
      }
    }

    /** The part of `union` after both roots are known to differ. */
    method Link(ghost left: string, ghost right: string, leftRoot: string, rightRoot: string)
      requires Valid() && left in parent && right in parent && left in root && right in root
      requires leftRoot == root[left] && rightRoot == root[right] && leftRoot != rightRoot
      modifies this
      ensures State() == old(Joined(State(), left, right))
    {
      ghost var f := State();
      assert NodeOk(f, left) && NodeOk(f, right);
      var top, below := leftRoot, rightRoot;
      if |groups[leftRoot]| < |groups[rightRoot]| {
        top, below := rightRoot, leftRoot;
      }
      parent := parent[below := top];
      var absorbed := groups[below];
      groups := groups - {below};
      groups := groups[top := groups[top] + absorbed];
      root, depth := Attach(f, top, below).root, Attach(f, top, below).depth;
    }

    /** All groups in canonical order. */
    method Clusters() returns (c: seq<seq<string>>)
      requires Valid()
      ensures IsCanonical(c, View(State()).Values)
    {
      var table := groups;
      var keys := Enumerate(table.Keys);
      var ls: seq<seq<string>> := [];
      for i := 0 to |keys|
        invariant |ls| == i
        invariant forall k | 0 <= k < i ::
          keys[k] in table && Increasing(ls[k], StringLt) && SetOf(ls[k]) == table[keys[k]]
      {
        assert keys[i] in table;
        var xs := Enumerate(table[keys[i]]);
        SortedGroup(table[keys[i]], xs);
        ls := ls + [Sort(xs, StringLe)];
      }
      GroupsListed(State(), keys, ls);
      c := Sort(ls, GroupLe);
    }
  }

  lemma GroupsApart(f: Forest, r: string, s: string, x: string)
    requires Inv(f) && r in f.groups && s in f.groups && x in f.groups[r] && x in f.groups[s]
    ensures r == s
  {
    assert GroupOk(f, r) && GroupOk(f, s);
  }

  lemma GroupsListed(f: Forest, keys: seq<string>, ls: seq<seq<string>>)
    requires Inv(f) && |ls| == |keys|
    requires forall k :: k in keys <==> k in f.groups
    requires forall i, j | 0 <= i < j < |keys| :: keys[i] != keys[j]
    requires forall k | 0 <= k < |keys| :: Increasing(ls[k], StringLt) && SetOf(ls[k]) == f.groups[keys[k]]
    ensures IsCanonical(Sort(ls, GroupLe), View(f).Values)
  {
    GroupsAreClasses(f);
    var p := f.groups.Values;
    forall k | 0 <= k < |ls| ensures ls[k] != [] && SetOf(ls[k]) in p {
      assert keys[k] in f.groups;
      ListIsGroup(f, keys[k], ls[k]);
    }
    forall g | g in p ensures exists k | 0 <= k < |ls| :: SetOf(ls[k]) == g {
      var r :| r in f.groups && f.groups[r] == g;
      var k :| 0 <= k < |keys| && keys[k] == r;
    }
    forall j, k | 0 <= j < k < |ls| ensures FirstApart(ls[j], ls[k]) {
      assert keys[j] in f.groups && keys[k] in f.groups;
      ListsApart(f, keys[j], keys[k], ls[j], ls[k]);
    }
    SortedGroupsAreCanonical(ls, p);
  }

  lemma ListIsGroup(f: Forest, r: string, a: seq<string>)
    requires Inv(f) && r in f.groups && SetOf(a) == f.groups[r]
    ensures a != [] && SetOf(a) in f.groups.Values
  {
    assert GroupOk(f, r) && NodeOk(f, r);
    assert r in SetOf(a);
  }

  lemma ListsApart(f: Forest, r: string, s: string, a: seq<string>, b: seq<string>)
    requires Inv(f) && r in f.groups && s in f.groups && r != s
    requires a != [] && b != [] && SetOf(a) == f.groups[r] && SetOf(b) == f.groups[s]
    ensures FirstApart(a, b)
  {
    assert a[0] in SetOf(a) && b[0] in SetOf(b);
    if a[0] == b[0] { GroupsApart(f, r, s, a[0]); }
  }
}
