/** What an import stores and reports, record by record. */
module GatewayLaws {
  import opened Numbers
  import opened Gateway

  ghost predicate Rising(at: seq<nat>) { forall i, j | 0 <= i < j < |at| :: at[i] < at[j] }

  // ---- normalisation ----

  /** `at` lists the records that normalise, and `os` holds what they normalise to. */
  ghost predicate NormalForms(env: Env, connector: string, records: seq<string>, at: seq<nat>, os: seq<Observation>) {
    && Rising(at) && |at| == |os|
    && (forall k: nat :: k in at <==> HasForm(env, connector, records, k))
    && forall i | 0 <= i < |at| :: FormOf(env, connector, records, at[i], os[i])
  }

  ghost predicate HasForm(env: Env, connector: string, records: seq<string>, k: nat) {
    k < |records| && env.normalize(connector, records[k]).Some?
  }

  ghost predicate FormOf(env: Env, connector: string, records: seq<string>, k: nat, o: Observation) {
    k < |records| && env.normalize(connector, records[k]) == Some(o)
  }

  ghost predicate AcceptedAs(env: Env, connector: string, records: seq<string>, os: seq<Observation>) {
    exists at :: NormalForms(env, connector, records, at, os)
  }

  /** The accepted observations are the normal forms of the records that have one, in order. */
  lemma {:induction false} AcceptedAreNormalForms(env: Env, connector: string, records: seq<string>)
    ensures AcceptedAs(env, connector, records, Accepted(env, connector, records))
  {
    if records == [] {
      assert NormalForms(env, connector, records, [], []);
    } else {
      var init := records[..|records| - 1];
      AcceptedAreNormalForms(env, connector, init);
      OneRecordMore(env, connector, records, Accepted(env, connector, init), Accepted(env, connector, records));
    }
  }

  lemma OneRecordMore(
    env: Env, connector: string, records: seq<string>, before: seq<Observation>, after: seq<Observation>)
    requires records != [] && AcceptedAs(env, connector, records[..|records| - 1], before)
    requires var o := env.normalize(connector, records[|records| - 1]);
      after == before + if o.Some? then [o.value] else []
    ensures AcceptedAs(env, connector, records, after)
  {
    var n: nat := |records| - 1;
    var at: seq<nat> :| NormalForms(env, connector, records[..n], at, before);
    forall i | 0 <= i < |at| ensures FormOf(env, connector, records, at[i], before[i]) {
      assert FormOf(env, connector, records[..n], at[i], before[i]);
    }
    forall k: nat | k != n
      ensures HasForm(env, connector, records, k) == HasForm(env, connector, records[..n], k)
    {
    }
    if env.normalize(connector, records[n]).Some? {
      forall k: nat ensures k in at + [n] <==> HasForm(env, connector, records, k) {
        assert k in at + [n] <==> k in at || k == n;
      }
      assert FormOf(env, connector, records, n, after[|at|]);
      assert NormalForms(env, connector, records, at + [n], after);
    } else {
      assert NormalForms(env, connector, records, at, after);
    }
  }

  // ---- insertion ----

  ghost predicate Held(env: Env, rows: seq<Observation>, digest: string) {
    exists i :: 0 <= i < |rows| && env.sha(rows[i]) == digest
  }

  ghost predicate IdHeld(env: Env, rows: seq<Observation>, id: string) {
    exists i :: 0 <= i < |rows| && env.rowId(env.sha(rows[i])) == id
  }

  /** The digest of observation `k` is new to the rows and to the batch before it. */
  ghost predicate Fresh(env: Env, rows: seq<Observation>, os: seq<Observation>, k: nat)
    requires k < |os|
  {
    !Held(env, rows + os[..k], env.sha(os[k]))
  }

  /** Its digest is new, but its shortened row id is not. */
  ghost predicate Blocked(env: Env, rows: seq<Observation>, os: seq<Observation>, k: nat)
    requires k < |os|
  {
    Fresh(env, rows, os, k) && IdHeld(env, rows + os[..k], env.rowId(env.sha(os[k])))
  }

  /** `at` lists the fresh observations among the first `stop`. */
  ghost predicate FreshOnes(env: Env, rows: seq<Observation>, os: seq<Observation>, stop: nat, at: seq<nat>)
    requires stop <= |os|
  {
    Rising(at) && forall k: nat :: k in at <==> FreshBelow(env, rows, os, stop, k)
  }

  ghost predicate FreshBelow(env: Env, rows: seq<Observation>, os: seq<Observation>, stop: nat, k: nat)
    requires stop <= |os|
  {
    k < stop && Fresh(env, rows, os, k)
  }

  ghost predicate StoredAt(os: seq<Observation>, at: seq<nat>, added: seq<Observation>) {
    |added| == |at| && forall i | 0 <= i < |at| :: at[i] < |os| && added[i] == os[at[i]]
  }

  /** The first `stop` observations went into the rows: the fresh ones, in order. */
  ghost predicate Inserted(
    env: Env, rows: seq<Observation>, os: seq<Observation>, stop: nat, added: seq<Observation>)
    requires stop <= |os|
  {
    exists at :: FreshOnes(env, rows, os, stop, at) && StoredAt(os, at, added)
  }

  /** Insertion stops at the first blocked observation, if there is one. */
  ghost predicate StopsAt(env: Env, rows: seq<Observation>, os: seq<Observation>, stop: nat) {
    stop <= |os| && (forall k | 0 <= k < stop :: !Blocked(env, rows, os, k))
    && (stop < |os| ==> Blocked(env, rows, os, stop))
  }

  lemma HeldIsDigest(env: Env, rows: seq<Observation>, o: Observation)
    ensures Held(env, rows, env.sha(o)) <==> env.sha(o) in Digests(env, rows)
    ensures IdHeld(env, rows, env.rowId(env.sha(o))) <==> env.rowId(env.sha(o)) in RowIds(env, rows)
  {
    if env.sha(o) in Digests(env, rows) {
      var r :| r in rows && env.sha(r) == env.sha(o);
      var i :| 0 <= i < |rows| && rows[i] == r;
    }
    if env.rowId(env.sha(o)) in RowIds(env, rows) {
      var r :| r in rows && env.rowId(env.sha(r)) == env.rowId(env.sha(o));
      var i :| 0 <= i < |rows| && rows[i] == r;
    }
  }

  lemma FirstClashStops(env: Env, rows: seq<Observation>, os: seq<Observation>)
    ensures StopsAt(env, rows, os, FirstClash(env, rows, os))
  {
    FirstClashIsFirst(env, rows, os);
    forall k | 0 <= k < |os| ensures Blocked(env, rows, os, k) <==> ClashAt(env, rows, os, k) {
      HeldIsDigest(env, rows + os[..k], os[k]);
    }
  }

  /** While nothing is blocked, the fresh observations are appended one by one. */
  lemma {:induction false} FreshAreInserted(env: Env, rows: seq<Observation>, os: seq<Observation>)
    returns (added: seq<Observation>)
    requires InsertAll(env, rows, os).1.Some?
    ensures Inserted(env, rows, os, |os|, added)
    ensures InsertAll(env, rows, os) == (rows + added, Some(|added|))
  {
    if os == [] {
      added := [];
      assert FreshOnes(env, rows, os, 0, []) && StoredAt(os, [], added);
      assert rows + added == rows;
    } else {
      var n := |os| - 1;
      var before := FreshAreInserted(env, rows, os[..n]);
      FreshOrHeld(env, rows, os);
      added := before + if Fresh(env, rows, os, n) then [os[n]] else [];
      InsertedPrefix(env, rows, os, n, before);
      OneObservationMore(env, rows, os, before, added);
      assert rows + added == (rows + before) + if Fresh(env, rows, os, n) then [os[n]] else [];
    }
  }

  lemma FreshOrHeld(env: Env, rows: seq<Observation>, os: seq<Observation>)
    requires os != [] && InsertAll(env, rows, os[..|os| - 1]).1.Some?
    ensures var n := |os| - 1;
      var mid := InsertAll(env, rows, os[..n]).0;
      var (after, r) := Insert(env, mid, os[n]);
      && (r.Some? ==> r.value == Fresh(env, rows, os, n))
      && (r.Some? ==> after == mid + if Fresh(env, rows, os, n) then [os[n]] else [])
  {
    var n := |os| - 1;
    var mid := InsertAll(env, rows, os[..n]).0;
    InsertsUpToClash(env, rows, os[..n]);
    assert os[..n][..n] == os[..n];
    InsertExact(env, mid, os[n]);
    HeldIsDigest(env, rows + os[..n], os[n]);
  }

  lemma FreshBefore(env: Env, rows: seq<Observation>, os: seq<Observation>, n: nat)
    requires n <= |os|
    ensures forall k | 0 <= k < n :: Fresh(env, rows, os[..n], k) == Fresh(env, rows, os, k)
  {
    forall k | 0 <= k < n ensures Fresh(env, rows, os[..n], k) == Fresh(env, rows, os, k) {
      assert os[..n][..k] == os[..k];
    }
  }

  lemma InsertedPrefix(
    env: Env, rows: seq<Observation>, os: seq<Observation>, stop: nat, added: seq<Observation>)
    requires stop <= |os| && Inserted(env, rows, os[..stop], stop, added)
    ensures Inserted(env, rows, os, stop, added)
  {
    var at: seq<nat> :| FreshOnes(env, rows, os[..stop], stop, at) && StoredAt(os[..stop], at, added);
    FreshBefore(env, rows, os, stop);
    forall k: nat ensures FreshBelow(env, rows, os, stop, k) == FreshBelow(env, rows, os[..stop], stop, k) { }
    assert FreshOnes(env, rows, os, stop, at) && StoredAt(os, at, added);
  }

  lemma OneObservationMore(
    env: Env, rows: seq<Observation>, os: seq<Observation>, before: seq<Observation>, after: seq<Observation>)
    requires os != [] && Inserted(env, rows, os, |os| - 1, before)
    requires after == before + if Fresh(env, rows, os, |os| - 1) then [os[|os| - 1]] else []
    ensures Inserted(env, rows, os, |os|, after)
  {
    var n: nat := |os| - 1;
    var at: seq<nat> :| FreshOnes(env, rows, os, n, at) && StoredAt(os, at, before);
    if Fresh(env, rows, os, n) {
      FreshGrows(env, rows, os, n, at);
      assert StoredAt(os, at + [n], after);
    } else {
      assert after == before;
      assert FreshOnes(env, rows, os, n + 1, at);
    }
  }

  lemma FreshGrows(env: Env, rows: seq<Observation>, os: seq<Observation>, n: nat, at: seq<nat>)
    requires n < |os| && FreshOnes(env, rows, os, n, at) && Fresh(env, rows, os, n)
    ensures FreshOnes(env, rows, os, n + 1, at + [n])
  {
    forall k: nat ensures k in at + [n] <==> FreshBelow(env, rows, os, n + 1, k) {
      assert k in at + [n] <==> k in at || k == n;
    }
    forall i | 0 <= i < |at| ensures at[i] < n { assert at[i] in at; }
  }

  // ---- the whole commit ----

  ghost predicate Filed(imports: seq<ImportRow>, id: string, manifest: string) {
    exists row :: row in imports && (row.importId == id || row.manifest == manifest)
  }

  /** A commit of `records`: the fresh ones among its normal forms are appended up to the first blocked one; if none is
      blocked and neither key of the report is taken, the report is appended with the number of rows that went in. */
  ghost predicate CommittedAs(env: Env, t: Tables, connector: string, records: seq<string>, after: Tables) {
    exists os: seq<Observation>, stop: nat, added: seq<Observation> ::
      && AcceptedAs(env, connector, records, os)
      && StopsAt(env, t.telemetry, os, stop) && Inserted(env, t.telemetry, os, stop, added)
      && after.telemetry == t.telemetry + added
      && after.imports == t.imports + FiledAs(env, t, connector, records, stop == |os|, |added|)
  }

  ghost function FiledAs(
    env: Env, t: Tables, connector: string, records: seq<string>, whole: bool, inserted: nat): seq<ImportRow>
  {
    var id, manifest := env.importId(connector, records), env.manifest(connector, records);
    if whole && !Filed(t.imports, id, manifest) then [ImportRow(id, manifest, connector, records, inserted)] else []
  }

  lemma FiledIsReported(imports: seq<ImportRow>, id: string, manifest: string)
    ensures Filed(imports, id, manifest) <==> Reported(imports, id, manifest)
  {
    if Filed(imports, id, manifest) {
      var row :| row in imports && (row.importId == id || row.manifest == manifest);
      var i :| 0 <= i < |imports| && imports[i] == row;
    }
  }

  lemma CommitIsLawful(env: Env, t: Tables, connector: string, records: seq<string>)
    ensures CommittedAs(env, t, connector, records, Apply(env, t, Import(connector, records)))
  {
    var os := Accepted(env, connector, records);
    var stop := FirstClash(env, t.telemetry, os);
    AcceptedAreNormalForms(env, connector, records);
    FirstClashStops(env, t.telemetry, os);
    InsertsUpToClash(env, t.telemetry, os);
    var added := FreshAreInserted(env, t.telemetry, os[..stop]);
    InsertedPrefix(env, t.telemetry, os, stop, added);
    if stop == |os| { assert os[..stop] == os; }
    CommitFiles(env, t, connector, records, stop == |os|, |added|);
  }

  lemma CommitFiles(env: Env, t: Tables, connector: string, records: seq<string>, whole: bool, inserted: nat)
    requires var n := InsertAll(env, t.telemetry, Accepted(env, connector, records)).1;
      if whole then n == Some(inserted) else n.None?
    ensures Apply(env, t, Import(connector, records)).imports ==
      t.imports + FiledAs(env, t, connector, records, whole, inserted)
  {
    FiledIsReported(t.imports, env.importId(connector, records), env.manifest(connector, records));
  }
}
