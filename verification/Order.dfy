/** Orders and sorting: the code-point order of Python strings, the stable `sorted`,
    and the one sorted listing of a finite set. */
module Order {

  /** Lexicographic order by code point, as Python compares `str`. */
  predicate StringLe(a: string, b: string) {
    if a == "" then true
    else if b == "" then false
    else if a[0] != b[0] then a[0] < b[0]
    else StringLe(a[1..], b[1..])
  }

  /** Dictionary order: a prefix comes first, otherwise the first character that differs decides. */
  ghost predicate Dictionary(a: string, b: string) { a <= b || exists k :: LessAt(a, b, k) }

  ghost predicate LessAt(a: string, b: string, k: int) { 0 <= k < |a| && k < |b| && a[..k] == b[..k] && a[k] < b[k] }

  lemma {:induction false} StringLeIsDictionary(a: string, b: string)
    ensures StringLe(a, b) <==> Dictionary(a, b)
  {
    if a == "" || b == "" {
    } else if a[0] != b[0] {
      assert a[0] < b[0] ==> LessAt(a, b, 0);
    } else {
      StringLeIsDictionary(a[1..], b[1..]);
      TailsCompare(a, b);
    }
  }

  lemma TailsCompare(a: string, b: string)
    requires a != "" && b != "" && a[0] == b[0]
    ensures Dictionary(a, b) <==> Dictionary(a[1..], b[1..])
  {
    assert a == [a[0]] + a[1..] && b == [b[0]] + b[1..];
    forall k ensures LessAt(a[1..], b[1..], k) <==> k >= 0 && LessAt(a, b, k + 1) { LessLater(a, b, k); }
    if Dictionary(a, b) && !(a <= b) {
      var k :| LessAt(a, b, k);
      assert LessAt(a[1..], b[1..], k - 1);
    }
  }

  lemma LessLater(a: string, b: string, k: int)
    requires a != "" && b != "" && a[0] == b[0]
    ensures LessAt(a[1..], b[1..], k) <==> k >= 0 && LessAt(a, b, k + 1)
  {
    if 0 <= k < |a| - 1 && k < |b| - 1 {
      assert a[..k + 1] == [a[0]] + a[1..][..k] && b[..k + 1] == [b[0]] + b[1..][..k];
      assert a[1..][..k] == a[..k + 1][1..] && b[1..][..k] == b[..k + 1][1..];
    }
  }

  lemma {:induction false} StringLeTotal(a: string, b: string)
    ensures StringLe(a, b) || StringLe(b, a)
  {
    if a != "" && b != "" && a[0] == b[0] {
      StringLeTotal(a[1..], b[1..]);
    }
  }

  lemma {:induction false} StringLeAntisymmetric(a: string, b: string)
    requires StringLe(a, b) && StringLe(b, a)
    ensures a == b
  {
    if a != "" && b != "" {
      StringLeAntisymmetric(a[1..], b[1..]);
      assert a == [a[0]] + a[1..] && b == [b[0]] + b[1..];
    }
  }

  lemma {:induction false} StringLeTransitive(a: string, b: string, c: string)
    requires StringLe(a, b) && StringLe(b, c)
    ensures StringLe(a, c)
  {
    if a != "" && b != "" && c != "" && a[0] == b[0] == c[0] {
      StringLeTransitive(a[1..], b[1..], c[1..]);
    }
  }

  ghost predicate TotalPreorder<T(!new)>(le: (T, T) -> bool) {
    && (forall x, y :: le(x, y) || le(y, x))
    && (forall x, y, z :: le(x, y) && le(y, z) ==> le(x, z))
  }

  ghost predicate Sorted<T>(s: seq<T>, le: (T, T) -> bool) {
    forall i, j | 0 <= i < j < |s| :: le(s[i], s[j])
  }

  /** No two different elements of `s` tie. */
  ghost predicate TieFree<T>(s: seq<T>, le: (T, T) -> bool) {
    forall x, y | x in s && y in s && le(x, y) && le(y, x) :: x == y
  }

  function Insert<T>(x: T, s: seq<T>, le: (T, T) -> bool): (r: seq<T>)
    ensures multiset(r) == multiset{x} + multiset(s)
    ensures |r| == |s| + 1
  {
    if s == [] || le(x, s[0]) then [x] + s
    else
      assert s == [s[0]] + s[1..];
      [s[0]] + Insert(x, s[1..], le)
  }

  /** Python's `sorted(s, key=...)`: `le` compares the keys. */
  function Sort<T>(s: seq<T>, le: (T, T) -> bool): (r: seq<T>)
    ensures multiset(r) == multiset(s)
    ensures |r| == |s|
  {
    if s == [] then []
    else
      assert s == [s[0]] + s[1..];
      Insert(s[0], Sort(s[1..], le), le)
  }

  lemma {:induction false} InsertSorted<T(!new)>(x: T, s: seq<T>, le: (T, T) -> bool)
    requires TotalPreorder(le) && Sorted(s, le)
    ensures Sorted(Insert(x, s, le), le)
  {
    if s != [] && !le(x, s[0]) {
      TailSorted(s, le);
      InsertSorted(x, s[1..], le);
      InsertedAbove(x, s, le);
      ConsSorted(s[0], Insert(x, s[1..], le), le);
    }
  }

  ghost predicate LowerBound<T>(y: T, r: seq<T>, le: (T, T) -> bool) { forall k | 0 <= k < |r| :: le(y, r[k]) }

  lemma ConsSorted<T>(y: T, r: seq<T>, le: (T, T) -> bool)
    requires Sorted(r, le) && LowerBound(y, r, le)
    ensures Sorted([y] + r, le)
  {
  }

  lemma InsertedAbove<T(!new)>(x: T, s: seq<T>, le: (T, T) -> bool)
    requires TotalPreorder(le) && s != [] && Sorted(s, le) && !le(x, s[0])
    ensures LowerBound(s[0], Insert(x, s[1..], le), le)
  {
    var r := Insert(x, s[1..], le);
    forall k | 0 <= k < |r| ensures le(s[0], r[k]) {
      assert r[k] in multiset(r);
      if r[k] != x {
        assert r[k] in multiset(s[1..]);
        assert r[k] in s[1..];
      }
    }
  }

  lemma {:induction false} SortSorts<T(!new)>(s: seq<T>, le: (T, T) -> bool)
    requires TotalPreorder(le)
    ensures Sorted(Sort(s, le), le)
  {
    if s != [] {
      SortSorts(s[1..], le);
      InsertSorted(s[0], Sort(s[1..], le), le);
    }
  }

  ghost function Tie<T>(x: T, k: T, le: (T, T) -> bool): seq<T> { if le(x, k) && le(k, x) then [x] else [] }

  /** Elements of `s` that tie with `k`, in order. */
  ghost function Ties<T>(s: seq<T>, k: T, le: (T, T) -> bool): seq<T> {
    if s == [] then [] else Tie(s[0], k, le) + Ties(s[1..], k, le)
  }

  lemma TiesCons<T>(x: T, s: seq<T>, k: T, le: (T, T) -> bool)
    ensures Ties([x] + s, k, le) == Tie(x, k, le) + Ties(s, k, le)
  {
    assert ([x] + s)[1..] == s;
  }

  lemma {:induction false} InsertKeepsTies<T>(x: T, s: seq<T>, k: T, le: (T, T) -> bool)
    requires forall y | y in s && le(x, k) && le(k, y) :: le(x, y)
    ensures Ties(Insert(x, s, le), k, le) == Tie(x, k, le) + Ties(s, k, le)
  {
    if s == [] || le(x, s[0]) {
      TiesCons(x, s, k, le);
    } else {
      var head, t := Tie(s[0], k, le), Insert(x, s[1..], le);
      assert forall y | y in s[1..] :: y in s;
      InsertKeepsTies(x, s[1..], k, le);
      TiesCons(s[0], t, k, le);
      assert Tie(x, k, le) == [] || head == [] by { assert s[0] in s; }
      EmptyCommutes(head, Tie(x, k, le), Ties(s[1..], k, le));
    }
  }

  lemma EmptyCommutes<T>(a: seq<T>, b: seq<T>, c: seq<T>)
    requires a == [] || b == []
    ensures a + (b + c) == b + (a + c)
  {
  }

  /** `sorted` is stable: elements with equal keys keep their input order. */
  lemma {:induction false} SortIsStable<T(!new)>(s: seq<T>, k: T, le: (T, T) -> bool)
    requires TotalPreorder(le)
    ensures Ties(Sort(s, le), k, le) == Ties(s, k, le)
  {
    if s != [] {
      SortIsStable(s[1..], k, le);
      InsertKeepsTies(s[0], Sort(s[1..], le), k, le);
    }
  }

  lemma SortedFirstUnique<T>(a: seq<T>, b: seq<T>, le: (T, T) -> bool)
    requires a != [] && b != [] && Sorted(a, le) && Sorted(b, le) && TieFree(a, le)
    requires a[0] in b && b[0] in a
    ensures a[0] == b[0]
  {
    var i :| 0 <= i < |b| && b[i] == a[0];
    var j :| 0 <= j < |a| && a[j] == b[0];
    if i != 0 && j != 0 {
      assert le(b[0], b[i]) && le(a[0], a[j]);
    }
  }

  lemma TailMultiset<T>(a: seq<T>)
    requires a != []
    ensures multiset(a[1..]) == multiset(a) - multiset{a[0]}
  {
    assert a == [a[0]] + a[1..];
  }

  /** Two sorted arrangements of the same tie-free elements coincide. */
  lemma {:induction false} SortedUnique<T>(a: seq<T>, b: seq<T>, le: (T, T) -> bool)
    requires multiset(a) == multiset(b) && Sorted(a, le) && Sorted(b, le) && TieFree(a, le)
    ensures a == b
  {
    assert |multiset(a)| == |a| && |multiset(b)| == |b|;
    if a != [] {
      SameFirst(a, b, le);
      TailSorted(a, le);
      TailSorted(b, le);
      TailTieFree(a, le);
      SortedUnique(a[1..], b[1..], le);
      assert a == [a[0]] + a[1..] && b == [b[0]] + b[1..];
    }
  }

  lemma SameFirst<T>(a: seq<T>, b: seq<T>, le: (T, T) -> bool)
    requires a != [] && b != [] && multiset(a) == multiset(b) && Sorted(a, le) && Sorted(b, le) && TieFree(a, le)
    ensures a[0] == b[0] && multiset(a[1..]) == multiset(b[1..])
  {
    assert a[0] in multiset(b) && b[0] in multiset(a);
    SortedFirstUnique(a, b, le);
    TailMultiset(a);
    TailMultiset(b);
  }

  lemma TailTieFree<T>(a: seq<T>, le: (T, T) -> bool)
    requires a != [] && TieFree(a, le)
    ensures TieFree(a[1..], le)
  {
    forall x | x in a[1..] ensures x in a { }
  }

  lemma TailSorted<T>(a: seq<T>, le: (T, T) -> bool)
    requires a != [] && Sorted(a, le)
    ensures Sorted(a[1..], le)
  {
    forall i, j | 0 <= i < j < |a| - 1 ensures le(a[1..][i], a[1..][j]) { assert le(a[i + 1], a[j + 1]); }
  }

  lemma {:induction false} SortOfPermutation<T(!new)>(a: seq<T>, b: seq<T>, le: (T, T) -> bool)
    requires TotalPreorder(le) && multiset(a) == multiset(b) && TieFree(a, le)
    ensures Sort(a, le) == Sort(b, le)
  {
    SortSorts(a, le);
    SortSorts(b, le);
    forall x | x in Sort(a, le)
      ensures x in a
    {
      assert x in multiset(Sort(a, le));
    }
    SortedUnique(Sort(a, le), Sort(b, le), le);
  }

  /** Some enumeration of a finite set. */
  ghost function Elements<T>(s: set<T>): (r: seq<T>)
    ensures multiset(r) == multiset(s)
    ensures |r| == |s|
    decreases |s|
  {
    if s == {} then []
    else
      var x :| x in s;
      assert s == {x} + (s - {x});
      [x] + Elements(s - {x})
  }

  lemma StringLeIsTotalPreorder()
    ensures TotalPreorder(StringLe)
  {
    forall x, y ensures StringLe(x, y) || StringLe(y, x) { StringLeTotal(x, y); }
    forall x, y, z | StringLe(x, y) && StringLe(y, z) ensures StringLe(x, z) { StringLeTransitive(x, y, z); }
  }

  function SetOf(s: seq<string>): set<string> { set x | x in s }

  /** An enumeration in whatever order the hash table yields. */
  method Enumerate<T(==)>(s: set<T>) returns (xs: seq<T>)
    ensures multiset(xs) == multiset(s)
    ensures |xs| == |s|
    ensures forall x :: x in xs <==> x in s
    ensures forall i, j | 0 <= i < j < |xs| :: xs[i] != xs[j]
  {
    xs := [];
    var rest := s;
    while rest != {}
      invariant rest <= s
      invariant multiset(xs) + multiset(rest) == multiset(s)
      invariant |xs| + |rest| == |s|
      invariant forall x :: x in xs <==> x in s && x !in rest
      invariant forall i, j | 0 <= i < j < |xs| :: xs[i] != xs[j]
      decreases |rest|
    {
      var x :| x in rest;
      assert rest == {x} + (rest - {x});
      xs := xs + [x];
      rest := rest - {x};
    }
  }

  ghost predicate Pairwise<T>(s: seq<T>, apart: (T, T) -> bool) {
    forall i, j | 0 <= i < j < |s| :: apart(s[i], s[j])
  }

  lemma {:induction false} InsertKeepsPairwise<T>(x: T, s: seq<T>, le: (T, T) -> bool, apart: (T, T) -> bool)
    requires Pairwise(s, apart)
    requires forall y | y in s :: apart(x, y) && apart(y, x)
    ensures Pairwise(Insert(x, s, le), apart)
  {
    if s != [] && !le(x, s[0]) {
      InsertKeepsPairwise(x, s[1..], le, apart);
      var t := Insert(x, s[1..], le);
      forall k | 0 <= k < |t| ensures apart(s[0], t[k]) {
        assert t[k] in multiset(t);
        if t[k] != x { assert t[k] in s[1..]; }
      }
    }
  }

  /** Sorting keeps a symmetric pairwise property. */
  lemma {:induction false} SortKeepsPairwise<T>(s: seq<T>, le: (T, T) -> bool, apart: (T, T) -> bool)
    requires Pairwise(s, apart)
    requires forall x, y | x in s && y in s && apart(x, y) :: apart(y, x)
    ensures Pairwise(Sort(s, le), apart)
  {
    if s != [] {
      SortKeepsPairwise(s[1..], le, apart);
      forall y | y in Sort(s[1..], le) ensures apart(s[0], y) && apart(y, s[0]) {
        assert y in multiset(s[1..]);
        var k :| 0 <= k < |s[1..]| && s[1..][k] == y;
        assert apart(s[0], s[k + 1]);
      }
      InsertKeepsPairwise(s[0], Sort(s[1..], le), le, apart);
    }
  }

  lemma SortMembers<T>(s: seq<T>, le: (T, T) -> bool)
    ensures forall x :: x in Sort(s, le) <==> x in s
  {
    forall x ensures x in Sort(s, le) <==> x in s {
      assert x in Sort(s, le) <==> x in multiset(Sort(s, le));
    }
  }

  predicate StringLt(a: string, b: string) { a != b && StringLe(a, b) }

  ghost predicate Increasing<T>(s: seq<T>, lt: (T, T) -> bool) {
    forall i, j | 0 <= i < j < |s| :: lt(s[i], s[j])
  }

  /** A strictly increasing arrangement is determined by its members. */
  lemma {:induction false} IncreasingUnique<T>(a: seq<T>, b: seq<T>, lt: (T, T) -> bool)
    requires Increasing(a, lt) && Increasing(b, lt)
    requires forall x :: x in a <==> x in b
    requires forall x, y | x in a && y in a && lt(x, y) :: !lt(y, x)
    ensures a == b
  {
    if b != [] { assert b[0] in b; }
    if a != [] {
      assert a[0] in b && b[0] in a;
      var i :| 0 <= i < |b| && b[i] == a[0];
      var j :| 0 <= j < |a| && a[j] == b[0];
      assert a[0] == b[0];
      var a', b' := a[1..], b[1..];
      assert a == [a[0]] + a' && b == [b[0]] + b';
      forall k | 0 <= k < |a'| ensures a'[k] != a[0] { assert lt(a[0], a[k + 1]); }
      forall k | 0 <= k < |b'| ensures b'[k] != b[0] { assert lt(b[0], b[k + 1]); }
      forall x ensures x in a' <==> x in b' {
        if x in a' { assert x in a; }
        if x in b' { assert x in b; }
      }
      IncreasingUnique(a', b', lt);
    }
  }

  /** `sorted(group)` for any enumeration of a group. */
  lemma SortedGroup(g: set<string>, xs: seq<string>)
    requires forall x :: x in xs <==> x in g
    requires forall i, j | 0 <= i < j < |xs| :: xs[i] != xs[j]
    ensures Increasing(Sort(xs, StringLe), StringLt) && SetOf(Sort(xs, StringLe)) == g
  {
    StringLeIsTotalPreorder();
    SortSorts(xs, StringLe);
    SortKeepsPairwise(xs, StringLe, (a, b) => a != b);
    SortMembers(xs, StringLe);
  }

  /** The order `clusters()` sorts by: first member, then size. */
  predicate GroupLe(g: seq<string>, h: seq<string>) {
    g == [] || (h != [] && (if g[0] == h[0] then |g| <= |h| else StringLe(g[0], h[0])))
  }

  lemma GroupLeIsTotalPreorder()
    ensures TotalPreorder(GroupLe)
  {
    forall g, h ensures GroupLe(g, h) || GroupLe(h, g) {
      if g != [] && h != [] { StringLeTotal(g[0], h[0]); }
    }
    forall g, h, k | GroupLe(g, h) && GroupLe(h, k) ensures GroupLe(g, k) {
      if g != [] && h != [] && k != [] && g[0] != h[0] && h[0] != k[0] {
        StringLeTransitive(g[0], h[0], k[0]);
        if g[0] == k[0] { StringLeAntisymmetric(g[0], h[0]); }
      }
    }
  }

  predicate FirstLt(g: seq<string>, h: seq<string>) {
    g != [] && h != [] && StringLt(g[0], h[0])
  }

  /** The canonical list of a family of groups: exactly the groups of `p`, each listed in strictly
      increasing order, in strictly increasing order of first member. */
  ghost predicate IsCanonical(c: seq<seq<string>>, p: set<set<string>>) {
    && (forall k | 0 <= k < |c| :: c[k] != [] && Increasing(c[k], StringLt) && SetOf(c[k]) in p)
    && (forall g | g in p :: exists k | 0 <= k < |c| :: SetOf(c[k]) == g)
    && Increasing(c, FirstLt)
  }

  lemma CanonicalMembers(c: seq<seq<string>>, d: seq<seq<string>>, p: set<set<string>>, k: int)
    requires IsCanonical(c, p) && IsCanonical(d, p) && 0 <= k < |c|
    ensures c[k] in d
  {
    var g := SetOf(c[k]);
    assert g in p;
    var j :| 0 <= j < |d| && SetOf(d[j]) == g;
    forall x ensures x in c[k] <==> x in d[j] {
      assert x in c[k] <==> x in SetOf(c[k]);
    }
    forall x, y | StringLt(x, y) ensures !StringLt(y, x) {
      if StringLt(y, x) { StringLeAntisymmetric(x, y); }
    }
    IncreasingUnique(c[k], d[j], StringLt);
  }

  /** A family of groups has at most one canonical list. */
  lemma CanonicalUnique(c: seq<seq<string>>, d: seq<seq<string>>, p: set<set<string>>)
    requires IsCanonical(c, p) && IsCanonical(d, p)
    ensures c == d
  {
    forall x ensures x in c <==> x in d {
      if x in c { var k :| 0 <= k < |c| && c[k] == x; CanonicalMembers(c, d, p, k); }
      if x in d { var k :| 0 <= k < |d| && d[k] == x; CanonicalMembers(d, c, p, k); }
    }
    forall x, y | FirstLt(x, y) ensures !FirstLt(y, x) {
      if FirstLt(y, x) { StringLeAntisymmetric(x[0], y[0]); }
    }
    IncreasingUnique(c, d, FirstLt);
  }

  predicate FirstApart(g: seq<string>, h: seq<string>) {
    g != [] && h != [] && g[0] != h[0]
  }

  /** Sorting the sorted groups gives the canonical list. */
  lemma SortedGroupsAreCanonical(ls: seq<seq<string>>, p: set<set<string>>)
    requires forall k | 0 <= k < |ls| :: ls[k] != [] && Increasing(ls[k], StringLt) && SetOf(ls[k]) in p
    requires forall g | g in p :: exists k | 0 <= k < |ls| :: SetOf(ls[k]) == g
    requires Pairwise(ls, FirstApart)
    ensures IsCanonical(Sort(ls, GroupLe), p)
  {
    GroupsIncrease(ls);
    SortMembers(ls, GroupLe);
    SameGroupsListed(ls, Sort(ls, GroupLe), p);
  }

  lemma SameGroupsListed(ls: seq<seq<string>>, c: seq<seq<string>>, p: set<set<string>>)
    requires forall k | 0 <= k < |ls| :: ls[k] != [] && Increasing(ls[k], StringLt) && SetOf(ls[k]) in p
    requires forall g | g in p :: exists k | 0 <= k < |ls| :: SetOf(ls[k]) == g
    requires forall x :: x in c <==> x in ls
    ensures forall k | 0 <= k < |c| :: c[k] != [] && Increasing(c[k], StringLt) && SetOf(c[k]) in p
    ensures forall g | g in p :: exists k | 0 <= k < |c| :: SetOf(c[k]) == g
  {
    forall k | 0 <= k < |c| ensures c[k] != [] && Increasing(c[k], StringLt) && SetOf(c[k]) in p {
      assert c[k] in ls;
    }
    forall g | g in p ensures exists k | 0 <= k < |c| :: SetOf(c[k]) == g {
      var i :| 0 <= i < |ls| && SetOf(ls[i]) == g;
      assert ls[i] in c;
      var k :| 0 <= k < |c| && c[k] == ls[i];
    }
  }

  lemma GroupsIncrease(ls: seq<seq<string>>)
    requires Pairwise(ls, FirstApart)
    ensures Increasing(Sort(ls, GroupLe), FirstLt)
  {
    var c := Sort(ls, GroupLe);
    GroupLeIsTotalPreorder();
    SortSorts(ls, GroupLe);
    SortKeepsPairwise(ls, GroupLe, FirstApart);
    forall j, k | 0 <= j < k < |c| ensures FirstLt(c[j], c[k]) {
      assert GroupLe(c[j], c[k]) && FirstApart(c[j], c[k]);
    }
  }

  /** How many groups a canonical list has. */
  lemma {:induction false} CanonicalLength(c: seq<seq<string>>, p: set<set<string>>)
    requires IsCanonical(c, p)
    ensures |c| == |p|
    decreases |c|
  {
    if c == [] {
      assert p == {};
    } else {
      CanonicalInit(c, p);
      CanonicalLength(c[..|c| - 1], p - {SetOf(c[|c| - 1])});
    }
  }

  lemma CanonicalInit(c: seq<seq<string>>, p: set<set<string>>)
    requires IsCanonical(c, p) && c != []
    ensures SetOf(c[|c| - 1]) in p && IsCanonical(c[..|c| - 1], p - {SetOf(c[|c| - 1])})
  {
    var n := |c| - 1;
    var g := SetOf(c[n]);
    var c', p' := c[..n], p - {g};
    CanonicalOthers(c, p, p');
    forall h | h in p' ensures exists k | 0 <= k < |c'| :: SetOf(c'[k]) == h {
      var k :| 0 <= k < |c| && SetOf(c[k]) == h;
      assert c'[k] == c[k];
    }
  }

  lemma CanonicalOthers(c: seq<seq<string>>, p: set<set<string>>, p': set<set<string>>)
    requires IsCanonical(c, p) && c != [] && p' == p - {SetOf(c[|c| - 1])}
    ensures forall k | 0 <= k < |c| - 1 :: SetOf(c[k]) in p'
  {
    forall k | 0 <= k < |c| - 1 ensures SetOf(c[k]) in p' { OtherGroup(c, p, k); }
  }

  lemma OtherGroup(c: seq<seq<string>>, p: set<set<string>>, k: nat)
    requires IsCanonical(c, p) && k < |c| - 1
    ensures SetOf(c[k]) in p && SetOf(c[k]) != SetOf(c[|c| - 1])
  {
    if SetOf(c[k]) == SetOf(c[|c| - 1]) { CanonicalSameGroup(c, p, k, |c| - 1); }
  }

  lemma CanonicalSameGroup(c: seq<seq<string>>, p: set<set<string>>, j: int, k: int)
    requires IsCanonical(c, p) && 0 <= j < |c| && 0 <= k < |c| && SetOf(c[j]) == SetOf(c[k])
    ensures c[j] == c[k] && j == k
  {
    assert j < k ==> FirstLt(c[j], c[k]);
    assert k < j ==> FirstLt(c[k], c[j]);
    forall x ensures x in c[j] <==> x in c[k] {
      assert x in c[j] <==> x in SetOf(c[j]);
    }
    forall x, y | StringLt(x, y) ensures !StringLt(y, x) {
      if StringLt(y, x) { StringLeAntisymmetric(x, y); }
    }
    IncreasingUnique(c[j], c[k], StringLt);
  }
}
