/** Hash-linked append-only sequences in general: verification, commitment of the head to the whole
    history, and concurrent appenders. The three ledgers of the system are instances. */
module Chain {
  import opened Numbers

  type Digest = string

  /** 64 zeros. */
  const GENESIS: Digest := seq(64, i => '0')

  /** How a ledger reads its rows: the stored link, the stored hash, and the row's own checks. */
  datatype Spec<!R> = Spec(prev: R -> Digest, hash: R -> Digest, ok: R -> bool)

  function Head<R>(spec: Spec<R>, rows: seq<R>): Digest {
    if rows == [] then GENESIS else spec.hash(rows[|rows| - 1])
  }

  /** Row `k` passes its own checks and links to its predecessor. */
  predicate RowValid<R>(spec: Spec<R>, rows: seq<R>, k: nat)
    requires k < |rows|
  {
    spec.ok(rows[k]) && spec.prev(rows[k]) == Head(spec, rows[..k])
  }

  ghost predicate ChainValid<R>(spec: Spec<R>, rows: seq<R>) {
    forall k | 0 <= k < |rows| :: RowValid(spec, rows, k)
  }

  lemma PrefixValid<R>(spec: Spec<R>, rows: seq<R>, n: nat)
    requires n <= |rows| && ChainValid(spec, rows)
    ensures ChainValid(spec, rows[..n])
  {
    forall k | 0 <= k < n ensures RowValid(spec, rows[..n], k) {
      assert rows[..n][..k] == rows[..k] && RowValid(spec, rows, k);
    }
  }

  /** Appending keeps a chain valid exactly when the new row is sound and carries the current head. */
  lemma AppendExact<R>(spec: Spec<R>, rows: seq<R>, r: R)
    requires ChainValid(spec, rows)
    ensures ChainValid(spec, rows + [r]) <==> spec.ok(r) && spec.prev(r) == Head(spec, rows)
  {
    var next := rows + [r];
    assert next[..|rows|] == rows;
    forall k | 0 <= k < |rows| ensures RowValid(spec, next, k) {
      assert next[..k] == rows[..k] && RowValid(spec, rows, k);
    }
    if ChainValid(spec, next) { assert RowValid(spec, next, |rows|); }
    if spec.ok(r) && spec.prev(r) == Head(spec, rows) { assert RowValid(spec, next, |rows|); }
  }

  // ---- verification ----

  /** Stops at the first bad row. */
  method VerifyEarly<R>(spec: Spec<R>, rows: seq<R>) returns (bad: Option<nat>, head: Digest)
    ensures bad.None? <==> ChainValid(spec, rows)
    ensures bad.Some? ==> bad.value < |rows| && !RowValid(spec, rows, bad.value)
    ensures bad.Some? ==> forall k | 0 <= k < bad.value :: RowValid(spec, rows, k)
    ensures bad.None? ==> head == Head(spec, rows)
  {
    head := GENESIS;
    for k := 0 to |rows|
      invariant head == Head(spec, rows[..k])
      invariant forall j | 0 <= j < k :: RowValid(spec, rows, j)
    {
      if spec.prev(rows[k]) != head || !spec.ok(rows[k]) {
        assert !RowValid(spec, rows, k);
        return Some(k), head;
      }
      head := spec.hash(rows[k]);
    }
    assert rows[..|rows|] == rows;
    bad := None;
  }

  /** Judges every row, also behind a bad one. */
  method VerifyAll<R>(spec: Spec<R>, rows: seq<R>) returns (verdicts: seq<bool>, valid: bool, head: Digest)
    ensures |verdicts| == |rows| && forall k | 0 <= k < |rows| :: verdicts[k] == RowValid(spec, rows, k)
    ensures valid <==> ChainValid(spec, rows)
    ensures head == Head(spec, rows)
  {
    head, verdicts, valid := GENESIS, [], true;
    for k := 0 to |rows|
      invariant head == Head(spec, rows[..k])
      invariant |verdicts| == k && forall j | 0 <= j < k :: verdicts[j] == RowValid(spec, rows, j)
      invariant valid <==> forall j | 0 <= j < k :: RowValid(spec, rows, j)
    {
      var good := spec.ok(rows[k]) && spec.prev(rows[k]) == head;
      assert good == RowValid(spec, rows, k);
      verdicts := verdicts + [good];
      valid := valid && good;
      head := spec.hash(rows[k]);
    }
    assert rows[..|rows|] == rows;
  }

  // ---- the head commits to the history ----

  /** No two different sound rows among `a` and `b` share a hash, and no hash is the genesis value. */
  ghost predicate CollisionFree<R>(spec: Spec<R>, a: seq<R>, b: seq<R>) {
    && (forall i, j | 0 <= i < |a| && 0 <= j < |b| && spec.ok(a[i]) && spec.ok(b[j])
          && spec.hash(a[i]) == spec.hash(b[j]) :: a[i] == b[j])
    && (forall i | 0 <= i < |a| && spec.ok(a[i]) :: spec.hash(a[i]) != GENESIS)
    && (forall j | 0 <= j < |b| && spec.ok(b[j]) :: spec.hash(b[j]) != GENESIS)
  }

  /** Two verified ledgers with the same head are the same ledger, row by row and in length. */
  lemma {:induction false} HeadCommits<R>(spec: Spec<R>, a: seq<R>, b: seq<R>)
    requires ChainValid(spec, a) && ChainValid(spec, b) && CollisionFree(spec, a, b)
    requires Head(spec, a) == Head(spec, b)
    ensures a == b
  {
    var n, m := |a| - 1, |b| - 1;
    if a != [] { assert RowValid(spec, a, n); }
    if b != [] { assert RowValid(spec, b, m); }
    if a != [] && b != [] {
      assert a[n] == b[m];
      PrefixValid(spec, a, n);
      PrefixValid(spec, b, m);
      HeadCommits(spec, a[..n], b[..m]);
      assert a == a[..n] + [a[n]] && b == b[..m] + [b[m]];
    }
  }

  /** All hashes of a verified ledger differ. */
  lemma {:induction false} HashesDistinct<R>(spec: Spec<R>, a: seq<R>, i: nat, j: nat)
    requires ChainValid(spec, a) && CollisionFree(spec, a, a) && i < j < |a|
    ensures spec.hash(a[i]) != spec.hash(a[j])
  {
    assert RowValid(spec, a, i) && RowValid(spec, a, j) && RowValid(spec, a, j - 1);
    assert a[..j][j - 1] == a[j - 1];
    if i > 0 {
      assert a[..i][i - 1] == a[i - 1];
      HashesDistinct(spec, a, i - 1, j - 1);
    }
  }

  /** An honest append never meets its own hash in the table. */
  lemma AppendIsUnique<R>(spec: Spec<R>, rows: seq<R>, r: R)
    requires ChainValid(spec, rows) && spec.ok(r) && spec.prev(r) == Head(spec, rows)
    requires CollisionFree(spec, rows + [r], rows + [r])
    ensures forall k | 0 <= k < |rows| :: spec.hash(rows[k]) != spec.hash(r)
  {
    AppendExact(spec, rows, r);
    var next := rows + [r];
    forall k | 0 <= k < |rows| ensures spec.hash(rows[k]) != spec.hash(r) {
      HashesDistinct(spec, next, k, |rows|);
    }
  }

  // ---- concurrent appenders ----

  /** Where one appender stands. */
  datatype Pc<R> = Idle | Locked | Begun | HasHead(prev: Digest) | Inserted(row: R)

  /** The committed rows, the holder of the in-process lock, the holder of the database write lock taken by
      BEGIN IMMEDIATE, and the appenders. */
  datatype State<R> = State(rows: seq<R>, lock: Option<nat>, writer: Option<nat>, pcs: map<nat, Pc<R>>)

  ghost predicate Only<R>(s: State<R>, n: State<R>, t: nat, pc: Pc<R>) {
    t in s.pcs && n.pcs == s.pcs[t := pc]
  }

  /** Everything an appender holds is released. */
  ghost predicate Released<R>(s: State<R>, n: State<R>, t: nat) {
    && n.lock == (if s.lock == Some(t) then None else s.lock)
    && n.writer == (if s.writer == Some(t) then None else s.writer)
  }

  datatype Action = Acquire | Begin | Read | Insert | Commit | Rollback | Elsewhere

  /** One atomic step of appender `t`; `locking` says whether the ledger takes the in-process lock first. `Insert`
      meets the UNIQUE constraint; `Elsewhere` is any operation on other tables, `reset` included. */
  ghost predicate Step<R(!new)>(spec: Spec<R>, locking: bool, s: State<R>, n: State<R>, t: nat, action: Action) {
    t in s.pcs &&
    match action
    case Acquire =>
      locking && s.pcs[t].Idle? && s.lock.None? && Only(s, n, t, Locked) && n == s.(lock := Some(t), pcs := n.pcs)
    case Begin =>
      (if locking then s.pcs[t].Locked? else s.pcs[t].Idle?) && s.writer.None? && Only(s, n, t, Begun)
      && n == s.(writer := Some(t), pcs := n.pcs)
    case Read =>
      s.pcs[t].Begun? && Only(s, n, t, HasHead(Head(spec, s.rows))) && n == s.(pcs := n.pcs)
    case Insert =>
      s.pcs[t].HasHead? && n.pcs.Keys == s.pcs.Keys && n.pcs[t].Inserted?
      && Only(s, n, t, n.pcs[t]) && n == s.(pcs := n.pcs)
      && var r := n.pcs[t].row;
      spec.ok(r) && spec.prev(r) == s.pcs[t].prev && !Stored(spec, s.rows, r)
    case Commit =>
      s.pcs[t].Inserted? && Only(s, n, t, Idle) && n.rows == s.rows + [s.pcs[t].row] && Released(s, n, t)
    case Rollback =>
      !s.pcs[t].Idle? && Only(s, n, t, Idle) && n.rows == s.rows && Released(s, n, t)
    case Elsewhere => n == s
  }

  ghost predicate Next<R(!new)>(spec: Spec<R>, locking: bool, s: State<R>, n: State<R>) {
    exists t, action :: Step(spec, locking, s, n, t, action)
  }

  ghost predicate InTransaction<R>(pc: Pc<R>) { pc.Begun? || pc.HasHead? || pc.Inserted? }

  ghost predicate PcOk<R>(spec: Spec<R>, locking: bool, s: State<R>, t: nat)
    requires t in s.pcs
  {
    && (InTransaction(s.pcs[t]) <==> s.writer == Some(t))
    && (locking ==> (!s.pcs[t].Idle? <==> s.lock == Some(t)))
    && (s.pcs[t].HasHead? ==> s.pcs[t].prev == Head(spec, s.rows))
    && (s.pcs[t].Inserted? ==> spec.ok(s.pcs[t].row) && spec.prev(s.pcs[t].row) == Head(spec, s.rows))
  }

  ghost predicate StateOk<R>(spec: Spec<R>, locking: bool, s: State<R>) {
    ChainValid(spec, s.rows) && forall t | t in s.pcs :: PcOk(spec, locking, s, t)
  }

  /** Nobody holds a lock and no appender has begun. */
  ghost predicate AllIdle<R>(s: State<R>) {
    s.lock.None? && s.writer.None? && forall t | t in s.pcs :: s.pcs[t].Idle?
  }

  /** Idle appenders may start on any ledger that verifies, the empty one included. */
  lemma IdleIsOk<R>(spec: Spec<R>, locking: bool, s: State<R>)
    requires AllIdle(s)
    ensures StateOk(spec, locking, s) <==> ChainValid(spec, s.rows)
    ensures s.rows == [] ==> StateOk(spec, locking, s)
  {
  }

  /** At most one appender is inside a transaction, and with the in-process lock at most one is past it. */
  lemma MutualExclusion<R>(spec: Spec<R>, locking: bool, s: State<R>, t: nat, u: nat)
    requires StateOk(spec, locking, s) && t in s.pcs && u in s.pcs
    ensures InTransaction(s.pcs[t]) && InTransaction(s.pcs[u]) ==> t == u
    ensures locking && !s.pcs[t].Idle? && !s.pcs[u].Idle? ==> t == u
  {
    assert PcOk(spec, locking, s, t) && PcOk(spec, locking, s, u);
  }

  lemma StepKeepsOk<R(!new)>(spec: Spec<R>, locking: bool, s: State<R>, n: State<R>, t: nat, action: Action)
    requires StateOk(spec, locking, s) && Step(spec, locking, s, n, t, action)
    ensures StateOk(spec, locking, n) && s.rows <= n.rows
  {
    assert PcOk(spec, locking, s, t);
    if action == Commit { AppendExact(spec, s.rows, s.pcs[t].row); }
    forall u | u in n.pcs ensures PcOk(spec, locking, n, u) {
      assert PcOk(spec, locking, s, u);
      MutualExclusion(spec, locking, s, t, u);
    }
  }

  ghost predicate IsRun<R(!new)>(spec: Spec<R>, locking: bool, run: seq<State<R>>) {
    run != [] && forall i | 0 < i < |run| :: Next(spec, locking, run[i - 1], run[i])
  }

  /** Every state of every interleaving of any number of appenders has a verified committed ledger, and
      committed rows are never altered or removed. */
  lemma {:induction false} EveryRunVerifies<R(!new)>(spec: Spec<R>, locking: bool, run: seq<State<R>>)
    requires IsRun(spec, locking, run) && StateOk(spec, locking, run[0])
    ensures StateOk(spec, locking, run[|run| - 1]) && run[0].rows <= run[|run| - 1].rows
  {
    if |run| > 1 {
      var init := run[..|run| - 1];
      forall i | 0 < i < |init| ensures Next(spec, locking, init[i - 1], init[i]) {
        assert Next(spec, locking, run[i - 1], run[i]);
      }
      EveryRunVerifies(spec, locking, init);
      var s, n := run[|run| - 2], run[|run| - 1];
      assert Next(spec, locking, s, n);
      var t, action :| Step(spec, locking, s, n, t, action);
      StepKeepsOk(spec, locking, s, n, t, action);
    }
  }

  /** An appender that runs alone gets its row in: on an idle ledger a sound row that carries the head and whose hash
      is new is committed by some run, which ends idle again. */
  lemma AloneAppends<R(!new)>(spec: Spec<R>, locking: bool, s: State<R>, t: nat, row: R) returns (run: seq<State<R>>)
    requires AllIdle(s) && t in s.pcs
    requires spec.ok(row) && spec.prev(row) == Head(spec, s.rows) && !Stored(spec, s.rows, row)
    ensures IsRun(spec, locking, run) && run[0] == s
    ensures run[|run| - 1].rows == s.rows + [row] && AllIdle(run[|run| - 1])
  {
    var taken := if locking then s.(lock := Some(t), pcs := s.pcs[t := Locked]) else s;
    var begun := taken.(writer := Some(t), pcs := taken.pcs[t := Begun]);
    var read := begun.(pcs := begun.pcs[t := HasHead(Head(spec, s.rows))]);
    var inserted := read.(pcs := read.pcs[t := Inserted(row)]);
    var done := inserted.(lock := None, writer := None, rows := s.rows + [row], pcs := inserted.pcs[t := Idle]);
    assert Step(spec, locking, s, taken, t, if locking then Acquire else Elsewhere);
    assert Step(spec, locking, taken, begun, t, Begin);
    assert Step(spec, locking, begun, read, t, Read);
    assert Step(spec, locking, read, inserted, t, Insert);
    assert Step(spec, locking, inserted, done, t, Commit);
    run := [s, taken, begun, read, inserted, done];
  }

  /** A step adds at most one row, and only one that its appender has inserted. */
  lemma StepAddsOne<R(!new)>(spec: Spec<R>, locking: bool, s: State<R>, n: State<R>)
    requires StateOk(spec, locking, s) && Next(spec, locking, s, n)
    ensures n.rows == s.rows || exists t ::
      t in s.pcs && s.pcs[t].Inserted? && n.rows == s.rows + [s.pcs[t].row] && spec.ok(s.pcs[t].row)
      && spec.prev(s.pcs[t].row) == Head(spec, s.rows)
  {
    var t, action :| Step(spec, locking, s, n, t, action);
    assert PcOk(spec, locking, s, t);
  }

  // ---- appending without a lock ----

  /** INSERT under UNIQUE(hash): a row whose hash is already stored is refused. */
  function Offer<R>(spec: Spec<R>, rows: seq<R>, r: R): seq<R> {
    if Stored(spec, rows, r) then rows else rows + [r]
  }

  predicate Stored<R>(spec: Spec<R>, rows: seq<R>, r: R) {
    exists k | 0 <= k < |rows| :: spec.hash(rows[k]) == spec.hash(r)
  }

  /** A sound row built on the head that its appender read when the table had `seen` rows. */
  datatype Attempt<R> = Attempt(seen: nat, row: R)

  /** What a run of unlocked appends, in the order of their inserts, leaves in the table. */
  function Unlocked<R>(spec: Spec<R>, attempts: seq<Attempt<R>>): seq<R> {
    if attempts == [] then []
    else Offer(spec, Unlocked(spec, attempts[..|attempts| - 1]), attempts[|attempts| - 1].row)
  }

  ghost predicate HonestAt<R>(spec: Spec<R>, rows: seq<R>, a: Attempt<R>) {
    a.seen <= |rows| && spec.ok(a.row) && spec.prev(a.row) == Head(spec, rows[..a.seen])
  }

  ghost predicate Honest<R>(spec: Spec<R>, attempts: seq<Attempt<R>>) {
    forall i | 0 <= i < |attempts| :: HonestAt(spec, Unlocked(spec, attempts[..i]), attempts[i])
  }

  /** The insert goes in although another one went in since the head was read. */
  predicate Stale<R>(spec: Spec<R>, rows: seq<R>, a: Attempt<R>) { !Stored(spec, rows, a.row) && a.seen < |rows| }

  ghost predicate NoneStale<R>(spec: Spec<R>, attempts: seq<Attempt<R>>) {
    forall i | 0 <= i < |attempts| :: !Stale(spec, Unlocked(spec, attempts[..i]), attempts[i])
  }

  /** In a verified chain every prefix has a head of its own. */
  lemma HeadTellsLength<R>(spec: Spec<R>, rows: seq<R>, n: nat)
    requires ChainValid(spec, rows) && CollisionFree(spec, rows, rows) && n <= |rows|
    ensures Head(spec, rows[..n]) == Head(spec, rows) <==> n == |rows|
  {
    if n == |rows| {
      assert rows[..n] == rows;
    } else {
      assert RowValid(spec, rows, |rows| - 1);
      if n > 0 { HashesDistinct(spec, rows, n - 1, |rows| - 1); }
    }
  }

  lemma AttemptStep<R>(spec: Spec<R>, rows: seq<R>, a: Attempt<R>)
    requires HonestAt(spec, rows, a) && CollisionFree(spec, rows, rows)
    ensures ChainValid(spec, Offer(spec, rows, a.row)) <==> ChainValid(spec, rows) && !Stale(spec, rows, a)
  {
    if ChainValid(spec, rows + [a.row]) { InitValid(spec, rows, a.row); }
    if ChainValid(spec, rows) {
      AppendExact(spec, rows, a.row);
      HeadTellsLength(spec, rows, a.seen);
    }
  }

  lemma InitValid<R>(spec: Spec<R>, rows: seq<R>, r: R)
    requires ChainValid(spec, rows + [r])
    ensures ChainValid(spec, rows)
  {
    PrefixValid(spec, rows + [r], |rows|);
    assert (rows + [r])[..|rows|] == rows;
  }

  /** A run of unlocked appends leaves a ledger that verifies if and only if none of them was stale: each insert that
      went in saw the head left by the insert before it. */
  lemma {:induction false} UnlockedRunVerifiesExactly<R>(spec: Spec<R>, attempts: seq<Attempt<R>>)
    requires Honest(spec, attempts)
    requires CollisionFree(spec, Unlocked(spec, attempts), Unlocked(spec, attempts))
    ensures ChainValid(spec, Unlocked(spec, attempts)) <==> NoneStale(spec, attempts)
  {
    if attempts != [] {
      var init, a := attempts[..|attempts| - 1], attempts[|attempts| - 1];
      assert attempts == init + [a];
      HonestSnoc(spec, init, a);
      StaleSnoc(spec, init, a);
      var rows := Unlocked(spec, init);
      SubsequenceCollisionFree(spec, rows, Offer(spec, rows, a.row));
      UnlockedRunVerifiesExactly(spec, init);
      AttemptStep(spec, rows, a);
    }
  }

  lemma SubsequenceCollisionFree<R>(spec: Spec<R>, rows: seq<R>, all: seq<R>)
    requires rows <= all && CollisionFree(spec, all, all)
    ensures CollisionFree(spec, rows, rows)
  {
    assert forall i | 0 <= i < |rows| :: rows[i] == all[i];
  }

  lemma HonestSnoc<R>(spec: Spec<R>, init: seq<Attempt<R>>, a: Attempt<R>)
    requires Honest(spec, init + [a])
    ensures Honest(spec, init) && HonestAt(spec, Unlocked(spec, init), a)
  {
    var all := init + [a];
    assert all[..|init|] == init && HonestAt(spec, Unlocked(spec, all[..|init|]), all[|init|]);
    forall i | 0 <= i < |init| ensures HonestAt(spec, Unlocked(spec, init[..i]), init[i]) {
      assert all[..i] == init[..i] && HonestAt(spec, Unlocked(spec, all[..i]), all[i]);
    }
  }

  lemma StaleSnoc<R>(spec: Spec<R>, init: seq<Attempt<R>>, a: Attempt<R>)
    ensures NoneStale(spec, init + [a]) <==> NoneStale(spec, init) && !Stale(spec, Unlocked(spec, init), a)
  {
    var all := init + [a];
    assert all[..|init|] == init;
    forall i | 0 <= i < |init|
      ensures Stale(spec, Unlocked(spec, all[..i]), all[i]) == Stale(spec, Unlocked(spec, init[..i]), init[i])
    {
      assert all[..i] == init[..i];
    }
    if NoneStale(spec, all) { assert !Stale(spec, Unlocked(spec, all[..|init|]), all[|init|]); }
  }

  /** Two appenders that both read the head before either inserts. The same row twice is refused the second time and
      the ledger still verifies; a different second row is accepted and the ledger no longer verifies. */
  lemma UnlockedAppendersFork<R>(spec: Spec<R>, rows: seq<R>, first: R, second: R)
    requires ChainValid(spec, rows)
    requires spec.ok(first) && spec.prev(first) == Head(spec, rows)
    requires spec.ok(second) && spec.prev(second) == Head(spec, rows)
    requires CollisionFree(spec, rows + [first] + [second], rows + [first] + [second])
    ensures Offer(spec, rows, first) == rows + [first] && ChainValid(spec, rows + [first])
    ensures second == first ==> Offer(spec, rows + [first], second) == rows + [first]
    ensures second != first ==> Offer(spec, rows + [first], second) == rows + [first] + [second]
    ensures second != first ==> !ChainValid(spec, rows + [first] + [second])
  {
    var all := rows + [first] + [second];
    assert all[|rows|] == first && all[|rows| + 1] == second;
    Fresh(spec, rows, first, all);
    Fresh(spec, rows, second, all);
    AppendExact(spec, rows, first);
    AppendExact(spec, rows + [first], second);
    assert (rows + [first])[..|rows|] == rows;
    HeadTellsLength(spec, rows + [first], |rows|);
    StoredAfter(spec, rows, first, second);
    assert second != first ==> spec.hash(first) != spec.hash(second);
  }

  lemma StoredAfter<R>(spec: Spec<R>, rows: seq<R>, first: R, second: R)
    ensures Stored(spec, rows + [first], second) <==>
      Stored(spec, rows, second) || spec.hash(first) == spec.hash(second)
  {
    var all := rows + [first];
    assert all[|rows|] == first && forall k | 0 <= k < |rows| :: all[k] == rows[k];
  }

  /** A sound row on the current head is not stored yet. */
  lemma Fresh<R>(spec: Spec<R>, rows: seq<R>, r: R, all: seq<R>)
    requires ChainValid(spec, rows) && spec.ok(r) && spec.prev(r) == Head(spec, rows)
    requires rows <= all && r in all && CollisionFree(spec, all, all)
    ensures CollisionFree(spec, rows + [r], rows + [r]) && !Stored(spec, rows, r)
  {
    assert forall i | 0 <= i < |rows + [r]| :: (rows + [r])[i] in all;
    AppendIsUnique(spec, rows, r);
  }
}
