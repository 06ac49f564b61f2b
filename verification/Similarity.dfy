/** The two sequence-similarity programs, one with a rolling row and one with a full matrix,
    against one specification: the longest common subsequence. */
module Similarity {
  import opened Numbers

  function Max(x: nat, y: nat): nat { if x >= y then x else y }

  /** The recurrence both programs tabulate. */
  ghost function Lcs<T>(a: seq<T>, b: seq<T>): nat
    decreases |a| + |b|
  {
    if a == [] || b == [] then 0
    else
      var a', b' := a[..|a| - 1], b[..|b| - 1];
      if a[|a| - 1] == b[|b| - 1] then Lcs(a', b') + 1 else Max(Lcs(a', b), Lcs(a, b'))
  }

  // ---- meaning: subsequences by strictly increasing positions ----

  ghost predicate Embeds<T>(c: seq<T>, a: seq<T>, f: seq<nat>) {
    && |f| == |c|
    && (forall i | 0 <= i < |c| :: f[i] < |a| && a[f[i]] == c[i])
    && (forall i, j | 0 <= i < j < |c| :: f[i] < f[j])
  }

  ghost predicate IsSubsequence<T>(c: seq<T>, a: seq<T>) {
    exists f :: Embeds(c, a, f)
  }

  lemma {:induction false} NoCommonIsLonger<T>(a: seq<T>, b: seq<T>, c: seq<T>, f: seq<nat>, g: seq<nat>)
    requires Embeds(c, a, f) && Embeds(c, b, g)
    ensures |c| <= Lcs(a, b)
    decreases |a| + |b|
  {
    if c != [] {
      var k := |c| - 1;
      assert f[k] < |a| && g[k] < |b|;
      var n, m := |a| - 1, |b| - 1;
      if a[n] == b[m] {
        assert forall i | 0 <= i < k :: f[i] < f[k] && g[i] < g[k];
        NoCommonIsLonger(a[..n], b[..m], c[..k], f[..k], g[..k]);
      } else if f[k] != n {
        assert forall i | 0 <= i < k :: f[i] < f[k];
        NoCommonIsLonger(a[..n], b, c, f, g);
      } else {
        assert forall i | 0 <= i < k :: g[i] < g[k];
        NoCommonIsLonger(a, b[..m], c, f, g);
      }
    }
  }

  lemma {:induction false} SomeCommonIsAsLong<T>(a: seq<T>, b: seq<T>) returns (c: seq<T>, f: seq<nat>, g: seq<nat>)
    ensures Embeds(c, a, f) && Embeds(c, b, g) && |c| == Lcs(a, b)
    decreases |a| + |b|
  {
    if a == [] || b == [] {
      c, f, g := [], [], [];
    } else {
      var n, m := |a| - 1, |b| - 1;
      if a[n] == b[m] {
        c, f, g := SomeCommonIsAsLong(a[..n], b[..m]);
        c, f, g := c + [a[n]], f + [n], g + [m];
      } else if Lcs(a[..n], b) >= Lcs(a, b[..m]) {
        c, f, g := SomeCommonIsAsLong(a[..n], b);
      } else {
        c, f, g := SomeCommonIsAsLong(a, b[..m]);
      }
    }
  }

  /** `Lcs` is the length of a longest common subsequence: one of that length exists, none is longer. */
  lemma LcsIsOptimal<T>(a: seq<T>, b: seq<T>)
    ensures exists c :: IsSubsequence(c, a) && IsSubsequence(c, b) && |c| == Lcs(a, b)
    ensures forall c :: IsSubsequence(c, a) && IsSubsequence(c, b) ==> |c| <= Lcs(a, b)
  {
    var c, f, g := SomeCommonIsAsLong(a, b);
    assert IsSubsequence(c, a) && IsSubsequence(c, b);
    forall c | IsSubsequence(c, a) && IsSubsequence(c, b) ensures |c| <= Lcs(a, b) {
      var f :| Embeds(c, a, f);
      var g :| Embeds(c, b, g);
      NoCommonIsLonger(a, b, c, f, g);
    }
  }

  // ---- the score ----

  ghost function Score<T>(a: seq<T>, b: seq<T>): real {
    if a == [] || b == [] then 0.0 else Lcs(a, b) as real / Max(|a|, |b|) as real
  }

  lemma {:induction false} LcsSymmetric<T>(a: seq<T>, b: seq<T>)
    ensures Lcs(a, b) == Lcs(b, a)
    decreases |a| + |b|
  {
    if a != [] && b != [] {
      var a', b' := a[..|a| - 1], b[..|b| - 1];
      LcsSymmetric(a', b');
      LcsSymmetric(a', b);
      LcsSymmetric(a, b');
    }
  }

  lemma {:induction false} LcsBounded<T>(a: seq<T>, b: seq<T>)
    ensures Lcs(a, b) <= |a| && Lcs(a, b) <= |b|
    ensures Lcs(a, b) == |a| == |b| ==> a == b
    decreases |a| + |b|
  {
    if a != [] && b != [] {
      var a', b' := a[..|a| - 1], b[..|b| - 1];
      LcsBounded(a', b');
      LcsBounded(a', b);
      LcsBounded(a, b');
      assert a == a' + [a[|a| - 1]] && b == b' + [b[|b| - 1]];
    }
  }

  lemma {:induction false} LcsOfSelf<T>(a: seq<T>)
    ensures Lcs(a, a) == |a|
  {
    if a != [] { LcsOfSelf(a[..|a| - 1]); }
  }

  /** The score is symmetric, lies in [0, 1], and is 1 exactly for equal non-empty sequences. */
  lemma ScoreLaws<T>(a: seq<T>, b: seq<T>)
    ensures Score(a, b) == Score(b, a)
    ensures 0.0 <= Score(a, b) <= 1.0
    ensures Score(a, b) == 1.0 <==> a != [] && a == b
  {
    LcsSymmetric(a, b);
    LcsBounded(a, b);
    if a != [] && b != [] {
      Fractions(0.0, Lcs(a, b) as real, Max(|a|, |b|) as real);
      if a == b { LcsOfSelf(a); }
    }
  }

  /** `q` is `k` out of `n`. */
  ghost predicate IsShare(q: real, k: nat, n: nat) { Ratio(q, k as real, n as real) }

  ghost predicate IsLongestCommon<T(!new)>(c: seq<T>, a: seq<T>, b: seq<T>) {
    && IsSubsequence(c, a) && IsSubsequence(c, b)
    && forall d :: IsSubsequence(d, a) && IsSubsequence(d, b) ==> |d| <= |c|
  }

  /** The score is the length of any longest common subsequence over the length of the longer sequence, and 0 exactly
      when the two have no element in common. */
  lemma ScoreIsLongest<T(!new)>(a: seq<T>, b: seq<T>, c: seq<T>)
    requires IsLongestCommon(c, a, b)
    ensures |a| >= |b| > 0 ==> IsShare(Score(a, b), |c|, |a|)
    ensures |b| >= |a| > 0 ==> IsShare(Score(a, b), |c|, |b|)
    ensures Score(a, b) == 0.0 <==> forall i, j | 0 <= i < |a| && 0 <= j < |b| :: a[i] != b[j]
  {
    LongestIsLcs(a, b, c);
    ScoreOfLength(a, b);
    CommonIffPositive(a, b, c);
  }

  lemma LongestIsLcs<T(!new)>(a: seq<T>, b: seq<T>, c: seq<T>)
    requires IsLongestCommon(c, a, b)
    ensures |c| == Lcs(a, b)
  {
    LcsIsOptimal(a, b);
  }

  lemma ScoreOfLength<T>(a: seq<T>, b: seq<T>)
    ensures |a| >= |b| > 0 ==> IsShare(Score(a, b), Lcs(a, b), |a|)
    ensures |b| >= |a| > 0 ==> IsShare(Score(a, b), Lcs(a, b), |b|)
    ensures Score(a, b) == 0.0 <==> Lcs(a, b) == 0
  {
    if a != [] && b != [] { QuotientIsShare(Lcs(a, b), Max(|a|, |b|), Score(a, b)); }
  }

  lemma QuotientIsShare(k: nat, n: nat, q: real)
    requires n > 0 && q == k as real / n as real
    ensures IsShare(q, k, n) && (q == 0.0 <==> k == 0)
  {
    QuotientBack(k as real, n as real);
  }

  lemma CommonIffPositive<T(!new)>(a: seq<T>, b: seq<T>, c: seq<T>)
    requires IsLongestCommon(c, a, b) && |c| == Lcs(a, b)
    ensures |c| == 0 <==> forall i, j | 0 <= i < |a| && 0 <= j < |b| :: a[i] != b[j]
  {
    forall i, j | 0 <= i < |a| && 0 <= j < |b| && a[i] == b[j] ensures |c| > 0 { CommonElement(a, b, i, j); }
    if |c| > 0 {
      var f :| Embeds(c, a, f);
      var g :| Embeds(c, b, g);
      assert a[f[0]] == c[0] == b[g[0]];
    }
  }

  lemma CommonElement<T>(a: seq<T>, b: seq<T>, i: nat, j: nat)
    requires i < |a| && j < |b| && a[i] == b[j]
    ensures Lcs(a, b) > 0
  {
    NoCommonIsLonger(a, b, [a[i]], [i], [j]);
  }

  // ---- aegis/trace.py: rolling row ----

  /** The inner loop: the row of one more element of `left` from the row before it. */
  method NextRow<T(==)>(left: seq<T>, right: seq<T>, i: nat, previous: seq<nat>) returns (current: seq<nat>)
    requires i < |left| && |previous| == |right| + 1
    requires forall j | 0 <= j <= |right| :: previous[j] == Lcs(left[..i], right[..j])
    ensures |current| == |right| + 1
    ensures forall j | 0 <= j <= |right| :: current[j] == Lcs(left[..i + 1], right[..j])
  {
    current := [0];
    for index := 1 to |right| + 1
      invariant |current| == index
      invariant forall j | 0 <= j < index :: current[j] == Lcs(left[..i + 1], right[..j])
    {
      LcsUnfold(left, right, i + 1, index);
      current := current + [
        if left[i] == right[index - 1] then previous[index - 1] + 1
        else Max(previous[index], current[|current| - 1])];
    }
  }

  method RollingRowSimilarity<T(==)>(left: seq<T>, right: seq<T>) returns (r: real)
    ensures r == Score(left, right)
  {
    if left == [] || right == [] {
      return 0.0;
    }
    var previous: seq<nat> := seq(|right| + 1, i => 0);
    for i := 0 to |left|
      invariant |previous| == |right| + 1
      invariant forall j | 0 <= j <= |right| :: previous[j] == Lcs(left[..i], right[..j])
    {
      previous := NextRow(left, right, i, previous);
    }
    assert left[..|left|] == left && right[..|right|] == right;
    r := previous[|previous| - 1] as real / Max(|left|, |right|) as real;
  }

  lemma LcsUnfold<T>(a: seq<T>, b: seq<T>, i: nat, j: nat)
    requires 0 < i <= |a| && 0 < j <= |b|
    ensures Lcs(a[..i], b[..j]) ==
      if a[i - 1] == b[j - 1] then Lcs(a[..i - 1], b[..j - 1]) + 1
      else Max(Lcs(a[..i - 1], b[..j]), Lcs(a[..i], b[..j - 1]))
  {
    assert a[..i][..i - 1] == a[..i - 1] && b[..j][..j - 1] == b[..j - 1];
  }

  // ---- aegis/investigation.py: full matrix, filled in place ----

  method MatrixSimilarity<T(==)>(left: seq<T>, right: seq<T>) returns (r: real)
    ensures r == Score(left, right)
  {
    if left == [] || right == [] {
      return 0.0;
    }
    var rows, cols := |left| + 1, |right| + 1;
    var matrix := new nat[rows, cols]((x, y) => 0);
    for i := 1 to rows
      invariant forall x, y | 0 <= x < i && 0 <= y < cols :: matrix[x, y] == Lcs(left[..x], right[..y])
      invariant forall x | i <= x < rows :: matrix[x, 0] == 0
    {
      for j := 1 to cols
        invariant forall x, y | 0 <= x < i && 0 <= y < cols :: matrix[x, y] == Lcs(left[..x], right[..y])
        invariant forall y | 0 <= y < j :: matrix[i, y] == Lcs(left[..i], right[..y])
        invariant forall x | i <= x < rows :: matrix[x, 0] == 0
      {
        LcsUnfold(left, right, i, j);
        if left[i - 1] == right[j - 1] {
          matrix[i, j] := matrix[i - 1, j - 1] + 1;
        } else {
          matrix[i, j] := Max(matrix[i - 1, j], matrix[i, j - 1]);
        }
      }
    }
    assert left[..rows - 1] == left && right[..cols - 1] == right;
    r := matrix[rows - 1, cols - 1] as real / Max(|left|, |right|) as real;
  }
}
