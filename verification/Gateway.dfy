/** Offline sensor import: normalise, deduplicate by digest, and account for every insertion in an import ledger. */
module Gateway {
  import opened Numbers

  datatype Observation = Observation(
    nodeId: string, source: string, category: string, eventType: string, severity: string, payload: string,
    timestamp: string)

  /** The fixed functions of one installation: SHA-256 of an observation, the row id cut from a digest, the
      normaliser (None rejects the record), and the two identifiers of a committed import. */
  datatype Env = Env(
    sha: Observation -> string, rowId: string -> string, normalize: (string, string) -> Option<Observation>,
    importId: (string, seq<string>) -> string, manifest: (string, seq<string>) -> string)

  const CONNECTORS: set<string> := {"suricata-eve-json", "zeek-conn-json"}
  const MAX_RECORDS: nat := 256
  const GATEWAY_SOURCES: set<string> := {"suricata-eve-gateway", "zeek-conn-gateway"}

  predicate FromGateway(o: Observation) { o.source in GATEWAY_SOURCES }

  datatype ImportRow = ImportRow(
    importId: string, manifest: string, connector: string, records: seq<string>, inserted: nat)

  datatype Tables = Tables(telemetry: seq<Observation>, imports: seq<ImportRow>)

  function Digests(env: Env, os: seq<Observation>): set<string> { set o | o in os :: env.sha(o) }

  function RowIds(env: Env, os: seq<Observation>): set<string> { set o | o in os :: env.rowId(env.sha(o)) }

  predicate IsNew(env: Env, rows: seq<Observation>, o: Observation) {
    env.sha(o) !in Digests(env, rows) && env.rowId(env.sha(o)) !in RowIds(env, rows)
  }

  /** A different observation already owns the shortened row id. */
  predicate Clash(env: Env, rows: seq<Observation>, o: Observation) {
    env.sha(o) !in Digests(env, rows) && env.rowId(env.sha(o)) in RowIds(env, rows)
  }

  /** `append_telemetry`: INSERT OR IGNORE under UNIQUE(observation_id) and UNIQUE(digest), then a read by digest;
      None when that read finds nothing. */
  function Insert(env: Env, rows: seq<Observation>, o: Observation): (seq<Observation>, Option<bool>) {
    var after := if IsNew(env, rows, o) then rows + [o] else rows;
    (after, if env.sha(o) in Digests(env, after) then Some(IsNew(env, rows, o)) else None)
  }

  /** The insert fails exactly on a clash, and inserts exactly what is new. */
  lemma InsertExact(env: Env, rows: seq<Observation>, o: Observation)
    ensures var (after, r) := Insert(env, rows, o);
      && (r.None? <==> Clash(env, rows, o))
      && (r == Some(true) <==> env.sha(o) !in Digests(env, rows) && after == rows + [o])
      && (r != Some(true) ==> after == rows)
      && (r.Some? ==> Digests(env, after) == Digests(env, rows) + {env.sha(o)})
      && (r.Some? ==> RowIds(env, after) == RowIds(env, rows) + {env.rowId(env.sha(o))})
  {
    var (after, r) := Insert(env, rows, o);
    assert forall x :: x in rows + [o] <==> x in rows || x == o;
    if r == Some(false) {
      assert Digests(env, rows) == Digests(env, rows) + {env.sha(o)};
      assert RowIds(env, rows) == RowIds(env, rows) + {env.rowId(env.sha(o))};
    }
  }

  function InsertAll(env: Env, rows: seq<Observation>, os: seq<Observation>): (seq<Observation>, Option<nat>) {
    if os == [] then (rows, Some(0))
    else
      var (mid, n) := InsertAll(env, rows, os[..|os| - 1]);
      if n.None? then (mid, None)
      else
        var (after, r) := Insert(env, mid, os[|os| - 1]);
        (after, if r.None? then None else Some(n.value + if r.value then 1 else 0))
  }

  function Accepted(env: Env, connector: string, records: seq<string>): (os: seq<Observation>)
    ensures |os| <= |records|
  {
    if records == [] then []
    else
      var o := env.normalize(connector, records[|records| - 1]);
      Accepted(env, connector, records[..|records| - 1]) + (if o.Some? then [o.value] else [])
  }

  /** `save_gateway_import`: INSERT OR IGNORE under UNIQUE(import_id) and UNIQUE(manifest_sha256). */
  function SaveImport(imports: seq<ImportRow>, row: ImportRow): seq<ImportRow> {
    if Reported(imports, row.importId, row.manifest) then imports else imports + [row]
  }

  predicate Reported(imports: seq<ImportRow>, importId: string, manifest: string) {
    exists i | 0 <= i < |imports| :: imports[i].importId == importId || imports[i].manifest == manifest
  }

  function ImportOf(env: Env, connector: string, records: seq<string>, inserted: nat): ImportRow {
    ImportRow(env.importId(connector, records), env.manifest(connector, records), connector, records, inserted)
  }

  // ---- the program ----

  datatype Mode = Preview | Commit

  datatype Counts = Counts(received: nat, accepted: nat, rejected: nat, inserted: nat, deduplicated: nat)

  datatype Outcome = Invalid | TelemetryFailure | Report(counts: Counts)

  predicate ValidBatch(connector: string, records: Option<seq<string>>) {
    connector in CONNECTORS && records.Some? && 1 <= |records.value| <= MAX_RECORDS
  }

  class GatewayStore {
    var telemetry: seq<Observation>
    var imports: seq<ImportRow>

    ghost function View(): Tables
      reads this
    {
      Tables(telemetry, imports)
    }

    constructor ()
      ensures View() == Tables([], [])
    {
      telemetry, imports := [], [];
    }

    /** None is the RuntimeError of a row that could not be read back. The table gains the observation exactly when
        both its digest and its shortened row id are new, and the caller learns whether it did. */
    method AppendTelemetry(env: Env, o: Observation) returns (inserted: Option<bool>)
      modifies this`telemetry
      ensures inserted == Some(true) <==> IsNew(env, old(telemetry), o)
      ensures inserted.None? <==> Clash(env, old(telemetry), o)
      ensures telemetry == if inserted == Some(true) then old(telemetry) + [o] else old(telemetry)
      ensures inserted.Some? ==> env.sha(o) in Digests(env, telemetry)
    {
      if env.sha(o) !in Digests(env, telemetry) && env.rowId(env.sha(o)) !in RowIds(env, telemetry) {
        telemetry := telemetry + [o];
        inserted := Some(true);
      } else {
        inserted := if env.sha(o) in Digests(env, telemetry) then Some(false) else None;
      }
    }

    /** INSERT OR IGNORE: a report whose import id or manifest is already there is dropped without notice. */
    method SaveGatewayImport(row: ImportRow)
      modifies this`imports
      ensures Reported(old(imports), row.importId, row.manifest) ==> imports == old(imports)
      ensures !Reported(old(imports), row.importId, row.manifest) ==> imports == old(imports) + [row]
      ensures Reported(imports, row.importId, row.manifest)
    {
      var found := false;
      for i := 0 to |imports|
        invariant found <==> Reported(imports[..i], row.importId, row.manifest)
      {
        found := found || imports[i].importId == row.importId || imports[i].manifest == row.manifest;
      }
      assert imports[..|imports|] == imports;
      if !found {
        imports := imports + [row];
        assert imports[|imports| - 1] == row;
      }
    }

    /** `reset` deletes cases, events and certificates; these two tables stay. */
    method Reset()
      ensures View() == old(View())
    {
    }
  }

  method Process(env: Env, store: GatewayStore, connector: string, records: Option<seq<string>>, mode: Mode)
    returns (r: Outcome)
    modifies store
    ensures r != Invalid <==>
      connector in {"suricata-eve-json", "zeek-conn-json"} && records.Some? && 1 <= |records.value| <= 256
    ensures r == Invalid || mode == Preview ==> store.View() == old(store.View())
    ensures ValidBatch(connector, records) && mode == Commit ==>
      store.View() == Apply(env, old(store.View()), Import(connector, records.value))
    ensures ValidBatch(connector, records) && mode == Commit ==>
      (var os := Accepted(env, connector, records.value);
       var n := InsertAll(env, old(store.telemetry), os).1;
       && (n.None? <==> r == TelemetryFailure)
       && (n.Some? ==> r.Report? && r.counts.inserted == n.value && r.counts.deduplicated == |os| - n.value))
    ensures r.Report? ==>
      (var os := Accepted(env, connector, records.value);
       && r.counts.received == |records.value| && r.counts.accepted == |os|
       && r.counts.rejected == |records.value| - |os|
       && (mode == Preview ==> r.counts.inserted == 0 && r.counts.deduplicated == 0))
  {
    if !ValidBatch(connector, records) {
      return Invalid;
    }
    var accepted := Normalized(env, connector, records.value);
    if mode == Preview {
      return Report(Counts(|records.value|, |accepted|, |records.value| - |accepted|, 0, 0));
    }
    var n := CommitAll(env, store, accepted);
    if n.None? {
      return TelemetryFailure;
    }
    store.SaveGatewayImport(ImportOf(env, connector, records.value, n.value));
    r := Report(Counts(|records.value|, |accepted|, |records.value| - |accepted|, n.value, |accepted| - n.value));
  }

  method Normalized(env: Env, connector: string, records: seq<string>) returns (accepted: seq<Observation>)
    ensures accepted == Accepted(env, connector, records)
  {
    accepted := [];
    for i := 0 to |records|
      invariant accepted == Accepted(env, connector, records[..i])
    {
      assert records[..i + 1][..i] == records[..i];
      var o := env.normalize(connector, records[i]);
      if o.Some? {
        accepted := accepted + [o.value];
      }
    }
    assert records[..|records|] == records;
  }

  /** The insertion loop; a failing insert leaves what was inserted before it. */
  method CommitAll(env: Env, store: GatewayStore, os: seq<Observation>) returns (n: Option<nat>)
    modifies store`telemetry
    ensures (store.telemetry, n) == InsertAll(env, old(store.telemetry), os)
    ensures n.Some? ==> n.value <= |os|
  {
    ghost var start := store.telemetry;
    var inserted: nat := 0;
    for i := 0 to |os|
      invariant (store.telemetry, Some(inserted)) == InsertAll(env, start, os[..i])
      invariant inserted <= i
    {
      assert os[..i + 1][..i] == os[..i];
      InsertExact(env, store.telemetry, os[i]);
      var r := store.AppendTelemetry(env, os[i]);
      if r.None? {
        InsertAllStops(env, start, os, i + 1);
        return None;
      }
      inserted := inserted + (if r.value then 1 else 0);
    }
    assert os[..|os|] == os;
    n := Some(inserted);
  }

  lemma {:induction false} InsertAllStops(env: Env, rows: seq<Observation>, os: seq<Observation>, k: nat)
    requires k <= |os| && InsertAll(env, rows, os[..k]).1.None?
    ensures InsertAll(env, rows, os) == InsertAll(env, rows, os[..k])
    decreases |os|
  {
    if k == |os| {
      assert os[..k] == os;
    } else {
      assert os[..|os| - 1][..k] == os[..k];
      InsertAllStops(env, rows, os[..|os| - 1], k);
    }
  }

  // ---- when a batch completes ----

  /** The insert of `os[j]` clashes, given that everything before it went in. */
  predicate ClashAt(env: Env, rows: seq<Observation>, os: seq<Observation>, j: nat)
    requires j < |os|
  {
    Clash(env, rows + os[..j], os[j])
  }

  /** The first clashing position, or the length of the batch. It is determined by the stored rows and the batch. */
  function FirstClash(env: Env, rows: seq<Observation>, os: seq<Observation>): (k: nat)
    ensures k <= |os|
  {
    if os == [] then 0
    else
      var n := |os| - 1;
      var k := FirstClash(env, rows, os[..n]);
      if k < n || ClashAt(env, rows, os, n) then k else n + 1
  }

  lemma {:induction false} FirstClashIsFirst(env: Env, rows: seq<Observation>, os: seq<Observation>)
    ensures forall j | 0 <= j < FirstClash(env, rows, os) :: !ClashAt(env, rows, os, j)
    ensures FirstClash(env, rows, os) < |os| ==> ClashAt(env, rows, os, FirstClash(env, rows, os))
  {
    if os != [] {
      var n := |os| - 1;
      FirstClashIsFirst(env, rows, os[..n]);
      forall j | 0 <= j < n ensures ClashAt(env, rows, os, j) == ClashAt(env, rows, os[..n], j) {
        assert os[..n][..j] == os[..j];
      }
    }
  }

  /** What a table and the part of a batch that went in hold together. */
  ghost predicate HoldsBoth(env: Env, rows: seq<Observation>, os: seq<Observation>, after: seq<Observation>) {
    Digests(env, after) == Digests(env, rows + os) && RowIds(env, after) == RowIds(env, rows + os)
  }

  lemma HoldsOneMore(env: Env, rows: seq<Observation>, init: seq<Observation>, o: Observation, mid: seq<Observation>)
    requires HoldsBoth(env, rows, init, mid)
    ensures Clash(env, mid, o) <==> Clash(env, rows + init, o)
    ensures !Clash(env, mid, o) ==> HoldsBoth(env, rows, init + [o], Insert(env, mid, o).0)
  {
    InsertExact(env, mid, o);
    assert rows + (init + [o]) == (rows + init) + [o];
    DigestsSnoc(env, rows + init, o);
  }

  lemma DigestsSnoc(env: Env, rows: seq<Observation>, o: Observation)
    ensures Digests(env, rows + [o]) == Digests(env, rows) + {env.sha(o)}
    ensures RowIds(env, rows + [o]) == RowIds(env, rows) + {env.rowId(env.sha(o))}
  {
    assert forall x :: x in rows + [o] <==> x in rows || x == o;
  }

  /** Until the first clash everything goes in; at the clash the loop stops with exactly that. */
  lemma {:induction false} InsertsUpToClash(env: Env, rows: seq<Observation>, os: seq<Observation>)
    ensures var (after, n) := InsertAll(env, rows, os);
      var k := FirstClash(env, rows, os);
      && (n.Some? <==> k == |os|)
      && HoldsBoth(env, rows, os[..k], after)
      && InsertAll(env, rows, os[..k]).0 == after && InsertAll(env, rows, os[..k]).1.Some?
  {
    if os == [] {
      assert rows + [] == rows;
    } else {
      var m := |os| - 1;
      var k := FirstClash(env, rows, os[..m]);
      InsertsUpToClash(env, rows, os[..m]);
      if k < m {
        assert os[..m][..k] == os[..k];
      } else {
        var (mid, n) := InsertAll(env, rows, os[..m]);
        assert os[..m][..m] == os[..m] && os == os[..m] + [os[m]] && os[..|os|] == os;
        HoldsOneMore(env, rows, os[..m], os[m], mid);
        InsertExact(env, mid, os[m]);
      }
    }
  }

  /** A batch completes if and only if each of its digests is stored by then or comes with an unused row id. */
  lemma CompletesExactly(env: Env, rows: seq<Observation>, os: seq<Observation>)
    ensures InsertAll(env, rows, os).1.Some? <==>
      (forall j | 0 <= j < |os| ::
        env.sha(os[j]) in Digests(env, rows + os[..j]) || env.rowId(env.sha(os[j])) !in RowIds(env, rows + os[..j]))
  {
    InsertsUpToClash(env, rows, os);
    FirstClashIsFirst(env, rows, os);
    assert forall j | 0 <= j < |os| :: !ClashAt(env, rows, os, j) <==>
      env.sha(os[j]) in Digests(env, rows + os[..j]) || env.rowId(env.sha(os[j])) !in RowIds(env, rows + os[..j]);
  }

  // ---- deduplication ----

  ghost predicate DistinctDigests(env: Env, rows: seq<Observation>) {
    forall i, j | 0 <= i < j < |rows| :: env.sha(rows[i]) != env.sha(rows[j])
  }

  function CountGateway(rows: seq<Observation>): nat {
    if rows == [] then 0 else CountGateway(rows[..|rows| - 1]) + if FromGateway(rows[|rows| - 1]) then 1 else 0
  }

  lemma CountGatewaySnoc(rows: seq<Observation>, o: Observation)
    ensures CountGateway(rows + [o]) == CountGateway(rows) + if FromGateway(o) then 1 else 0
  {
    assert (rows + [o])[..|rows|] == rows;
  }

  ghost predicate AllFromGateway(os: seq<Observation>) { forall i | 0 <= i < |os| :: FromGateway(os[i]) }

  /** What a batch does to the table: it only grows, by gateway rows of new digests; a completed batch inserts
      exactly its distinct digests that were not stored yet, and afterwards all of them are stored. */
  ghost predicate Effect(
    env: Env, rows: seq<Observation>, os: seq<Observation>, after: seq<Observation>, n: Option<nat>)
  {
    && rows <= after && DistinctDigests(env, after)
    && CountGateway(after) == CountGateway(rows) + |after| - |rows|
    && (n.Some? ==> n.value == |Digests(env, os) - Digests(env, rows)| == |after| - |rows|)
    && (n.Some? ==> Digests(env, after) == Digests(env, rows) + Digests(env, os))
  }

  lemma {:induction false} InsertAllExact(env: Env, rows: seq<Observation>, os: seq<Observation>)
    requires DistinctDigests(env, rows) && AllFromGateway(os)
    ensures Effect(env, rows, os, InsertAll(env, rows, os).0, InsertAll(env, rows, os).1)
  {
    if os == [] {
      assert Digests(env, os) - Digests(env, rows) == {};
    } else {
      var init, o := os[..|os| - 1], os[|os| - 1];
      assert os == init + [o] && FromGateway(o);
      InsertAllExact(env, rows, init);
      var (mid, n) := InsertAll(env, rows, init);
      if n.Some? { OneMore(env, rows, init, o, mid, n.value); }
    }
  }

  lemma OneMore(env: Env, rows: seq<Observation>, init: seq<Observation>, o: Observation, mid: seq<Observation>, n: nat)
    requires Effect(env, rows, init, mid, Some(n)) && FromGateway(o)
    ensures var (after, r) := Insert(env, mid, o);
      Effect(env, rows, init + [o], after, if r.None? then None else Some(n + if r.value then 1 else 0))
  {
    var (after, r) := Insert(env, mid, o);
    InsertKeeps(env, mid, o);
    assert rows <= after;
    if r.Some? {
      InsertDigests(env, mid, o);
      DigestSplit(env, init, o, Digests(env, rows));
    }
  }

  lemma InsertDigests(env: Env, rows: seq<Observation>, o: Observation)
    ensures var (after, r) := Insert(env, rows, o);
      && (r.Some? ==> r.value == (env.sha(o) !in Digests(env, rows)))
      && (r.Some? ==> Digests(env, after) == Digests(env, rows) + {env.sha(o)})
  {
    InsertExact(env, rows, o);
  }

  /** One insert: the table only grows, by the row it reports, and stays duplicate-free. */
  lemma InsertKeeps(env: Env, rows: seq<Observation>, o: Observation)
    requires DistinctDigests(env, rows)
    ensures var (after, r) := Insert(env, rows, o);
      && rows <= after && DistinctDigests(env, after)
      && |after| == |rows| + (if r == Some(true) then 1 else 0)
      && CountGateway(after) == CountGateway(rows) + (if FromGateway(o) then |after| - |rows| else 0)
  {
    var (after, r) := Insert(env, rows, o);
    InsertExact(env, rows, o);
    if r == Some(true) {
      CountGatewaySnoc(rows, o);
      forall i, j | 0 <= i < j < |after| ensures env.sha(after[i]) != env.sha(after[j]) {
        if j == |rows| { assert rows[i] in rows; }
      }
    }
  }

  lemma DigestSplit(env: Env, init: seq<Observation>, o: Observation, stored: set<string>)
    ensures Digests(env, init + [o]) == Digests(env, init) + {env.sha(o)}
    ensures stored + Digests(env, init + [o]) == stored + Digests(env, init) + {env.sha(o)}
    ensures |Digests(env, init + [o]) - stored| == |Digests(env, init) - stored| +
      if env.sha(o) in stored + Digests(env, init) then 0 else 1
  {
    assert forall x :: x in init + [o] <==> x in init || x == o;
    var a, b := Digests(env, init) - stored, Digests(env, init + [o]) - stored;
    if env.sha(o) in stored + Digests(env, init) { assert b == a; } else { assert b == a + {env.sha(o)}; }
  }

  // ---- conservation over runs ----

  function SumInserted(imports: seq<ImportRow>): nat {
    if imports == [] then 0 else SumInserted(imports[..|imports| - 1]) + imports[|imports| - 1].inserted
  }

  /** Normalisers produce gateway-sourced observations. */
  ghost predicate GatewaySourced(env: Env) { forall c, r :: Normalizes(env, c, r) }

  ghost predicate Normalizes(env: Env, c: string, r: string) {
    env.normalize(c, r).Some? ==> FromGateway(env.normalize(c, r).value)
  }

  ghost predicate ImportOk(env: Env, t: Tables, i: nat)
    requires i < |t.imports|
  {
    var row := t.imports[i];
    && row.importId == env.importId(row.connector, row.records)
    && row.manifest == env.manifest(row.connector, row.records)
    && Digests(env, Accepted(env, row.connector, row.records)) <= Digests(env, t.telemetry)
  }

  /** No digest is stored twice, and every reported batch is fully stored. */
  ghost predicate TablesOk(env: Env, t: Tables) {
    DistinctDigests(env, t.telemetry) && forall i | 0 <= i < |t.imports| :: ImportOk(env, t, i)
  }

  /** Gateway rows that no report accounts for. */
  function Gap(t: Tables): int { CountGateway(t.telemetry) - SumInserted(t.imports) }

  datatype Operation =
    | Import(connector: string, records: seq<string>)
    | Collect(observation: Observation)  // a local collector's observation
    | Other                              // previews, refused batches, `reset` and everything else

  /** What an operation leaves in the two tables, also when a telemetry insert raised in it. */
  function Apply(env: Env, t: Tables, op: Operation): Tables {
    match op
    case Import(c, rs) =>
      var (after, n) := InsertAll(env, t.telemetry, Accepted(env, c, rs));
      Tables(after, if n.None? then t.imports else SaveImport(t.imports, ImportOf(env, c, rs, n.value)))
    case Collect(o) => t.(telemetry := Insert(env, t.telemetry, o).0)
    case Other => t
  }

  /** The observations of a commit that go in before its first clash. */
  function GoingIn(env: Env, t: Tables, c: string, rs: seq<string>): seq<Observation> {
    var os := Accepted(env, c, rs);
    os[..FirstClash(env, t.telemetry, os)]
  }

  /** The report of a commit is not saved: it raises, or its id or manifest is already taken. */
  predicate Unreported(env: Env, t: Tables, c: string, rs: seq<string>) {
    || FirstClash(env, t.telemetry, Accepted(env, c, rs)) < |Accepted(env, c, rs)|
    || Reported(t.imports, env.importId(c, rs), env.manifest(c, rs))
  }

  /** A commit that stores something new without a report. Decided by the tables and the batch before the call. */
  predicate Lossy(env: Env, t: Tables, c: string, rs: seq<string>) {
    Unreported(env, t, c, rs) && !(Digests(env, GoingIn(env, t, c, rs)) <= Digests(env, t.telemetry))
  }

  function Lost(env: Env, t: Tables, c: string, rs: seq<string>): (n: nat)
    ensures n > 0 <==> Lossy(env, t, c, rs)
  {
    NothingNewIff(env, t.telemetry, GoingIn(env, t, c, rs));
    if Lossy(env, t, c, rs) then |Digests(env, GoingIn(env, t, c, rs)) - Digests(env, t.telemetry)| else 0
  }

  lemma {:induction false} AcceptedFromGateway(env: Env, c: string, rs: seq<string>)
    requires GatewaySourced(env)
    ensures AllFromGateway(Accepted(env, c, rs))
  {
    if rs != [] {
      AcceptedFromGateway(env, c, rs[..|rs| - 1]);
      assert Normalizes(env, c, rs[|rs| - 1]);
    }
  }

  lemma ImportsSurvive(env: Env, t: Tables, after: seq<Observation>)
    requires t.telemetry <= after && forall i | 0 <= i < |t.imports| :: ImportOk(env, t, i)
    ensures forall i | 0 <= i < |t.imports| :: ImportOk(env, t.(telemetry := after), i)
  {
    forall i | 0 <= i < |t.imports| ensures ImportOk(env, t.(telemetry := after), i) {
      assert ImportOk(env, t, i);
      assert forall o | o in t.telemetry :: o in after;
    }
  }

  lemma RowAdded(env: Env, t: Tables, row: ImportRow)
    requires forall i | 0 <= i < |t.imports| :: ImportOk(env, t, i)
    requires ImportOk(env, t.(imports := [row]), 0)
    ensures var imports := t.imports + [row];
      && SumInserted(imports) == SumInserted(t.imports) + row.inserted
      && forall i | 0 <= i < |imports| :: ImportOk(env, t.(imports := imports), i)
  {
    var imports := t.imports + [row];
    assert imports[..|t.imports|] == t.imports;
    forall i | 0 <= i < |imports| ensures ImportOk(env, t.(imports := imports), i) {
      if i < |t.imports| { assert ImportOk(env, t, i); } else { assert ImportOk(env, t.(imports := [row]), 0); }
    }
  }

  /** One commit, completed or not: the gap grows by exactly the rows it stored without a report. */
  lemma ImportStep(env: Env, t: Tables, c: string, rs: seq<string>)
    requires GatewaySourced(env) && TablesOk(env, t)
    ensures var n := Apply(env, t, Import(c, rs));
      && TablesOk(env, n) && t.telemetry <= n.telemetry && t.imports <= n.imports
      && Gap(n) == Gap(t) + Lost(env, t, c, rs)
  {
    var os, going := Accepted(env, c, rs), GoingIn(env, t, c, rs);
    var (after, n) := InsertAll(env, t.telemetry, os);
    GoingEffect(env, t, c, rs);
    if !Unreported(env, t, c, rs) {
      assert going == os;
      ReportedStep(env, t, c, rs, after, n.value);
    } else {
      assert Apply(env, t, Import(c, rs)) == t.(telemetry := after);
      ImportsSurvive(env, t, after);
      NothingNewIff(env, t.telemetry, going);
    }
  }

  /** Whatever stops it, a commit does to the telemetry what its insertions before the clash do. */
  lemma GoingEffect(env: Env, t: Tables, c: string, rs: seq<string>)
    requires GatewaySourced(env) && TablesOk(env, t)
    ensures var os, going := Accepted(env, c, rs), GoingIn(env, t, c, rs);
      var after := InsertAll(env, t.telemetry, os).0;
      && InsertAll(env, t.telemetry, going).0 == after && InsertAll(env, t.telemetry, going).1.Some?
      && (going == os || InsertAll(env, t.telemetry, os).1.None?)
      && Effect(env, t.telemetry, going, after, InsertAll(env, t.telemetry, going).1)
  {
    var os, going := Accepted(env, c, rs), GoingIn(env, t, c, rs);
    AcceptedFromGateway(env, c, rs);
    InsertsUpToClash(env, t.telemetry, os);
    forall i | 0 <= i < |going| ensures FromGateway(going[i]) { assert FromGateway(os[i]); }
    InsertAllExact(env, t.telemetry, going);
  }

  lemma ReportedStep(env: Env, t: Tables, c: string, rs: seq<string>, after: seq<Observation>, n: nat)
    requires TablesOk(env, t) && Effect(env, t.telemetry, Accepted(env, c, rs), after, Some(n))
    ensures var row := ImportOf(env, c, rs, n);
      && TablesOk(env, Tables(after, t.imports + [row])) && Gap(Tables(after, t.imports + [row])) == Gap(t)
  {
    var row := ImportOf(env, c, rs, n);
    ImportsSurvive(env, t, after);
    assert ImportOk(env, Tables(after, [row]), 0);
    RowAdded(env, t.(telemetry := after), row);
  }

  lemma NothingNewIff(env: Env, rows: seq<Observation>, os: seq<Observation>)
    ensures |Digests(env, os) - Digests(env, rows)| == 0 <==> Digests(env, os) <= Digests(env, rows)
  {
    var d := Digests(env, os) - Digests(env, rows);
    if |d| == 0 {
      assert d == {};
      forall x | x in Digests(env, os) ensures x in Digests(env, rows) { assert x !in d; }
    } else {
      assert d != {};
    }
  }

  /** A commit on balanced tables keeps them balanced if and only if it is not lossy: it saves its report, or
      everything that goes in before a clash was stored already. */
  lemma ImportConservesExactly(env: Env, t: Tables, c: string, rs: seq<string>)
    requires GatewaySourced(env) && TablesOk(env, t) && Gap(t) == 0
    ensures Gap(Apply(env, t, Import(c, rs))) == 0 <==>
      !Unreported(env, t, c, rs) || Digests(env, GoingIn(env, t, c, rs)) <= Digests(env, t.telemetry)
  {
    ImportStep(env, t, c, rs);
  }

  /** A commit that raises leaves the ledger short by exactly the new digests before its first clash. */
  lemma FailedCallLosesAccounting(env: Env, t: Tables, c: string, rs: seq<string>)
    requires GatewaySourced(env) && TablesOk(env, t) && Gap(t) == 0
    requires FirstClash(env, t.telemetry, Accepted(env, c, rs)) < |Accepted(env, c, rs)|
    ensures var after := Apply(env, t, Import(c, rs));
      var stored := Digests(env, GoingIn(env, t, c, rs));
      && after.imports == t.imports
      && Gap(after) == |stored - Digests(env, t.telemetry)|
      && (Gap(after) == 0 <==> stored <= Digests(env, t.telemetry))
  {
    ImportStep(env, t, c, rs);
    InsertsUpToClash(env, t.telemetry, Accepted(env, c, rs));
    NothingNewIff(env, t.telemetry, GoingIn(env, t, c, rs));
  }

  lemma CollectStep(env: Env, t: Tables, o: Observation)
    requires TablesOk(env, t) && !FromGateway(o)
    ensures var n := Apply(env, t, Collect(o));
      TablesOk(env, n) && t.telemetry <= n.telemetry && Gap(n) == Gap(t)
  {
    InsertKeeps(env, t.telemetry, o);
    ImportsSurvive(env, t, Insert(env, t.telemetry, o).0);
  }

  // ---- runs ----

  const EMPTY: Tables := Tables([], [])

  function ApplyAll(env: Env, ops: seq<Operation>): Tables {
    if ops == [] then EMPTY else Apply(env, ApplyAll(env, ops[..|ops| - 1]), ops[|ops| - 1])
  }

  ghost predicate LocalCollectors(ops: seq<Operation>) {
    forall i | 0 <= i < |ops| && ops[i].Collect? :: !FromGateway(ops[i].observation)
  }

  /** Operation `k` of a run is a lossy commit, at the tables it meets. */
  predicate LossyAt(env: Env, ops: seq<Operation>, k: nat)
    requires k < |ops|
  {
    ops[k].Import? && Lossy(env, ApplyAll(env, ops[..k]), ops[k].connector, ops[k].records)
  }

  ghost predicate NoneLossy(env: Env, ops: seq<Operation>) { forall k | 0 <= k < |ops| :: !LossyAt(env, ops, k) }

  lemma NoneLossySnoc(env: Env, ops: seq<Operation>, op: Operation)
    ensures NoneLossy(env, ops + [op]) <==>
      NoneLossy(env, ops) && !(op.Import? && Lossy(env, ApplyAll(env, ops), op.connector, op.records))
  {
    var all := ops + [op];
    assert all[..|ops|] == ops;
    forall k | 0 <= k < |ops| ensures LossyAt(env, all, k) == LossyAt(env, ops, k) {
      assert all[..k] == ops[..k];
    }
    if NoneLossy(env, all) { assert !LossyAt(env, all, |ops|); }
  }

  function LostBy(env: Env, t: Tables, op: Operation): nat {
    if op.Import? then Lost(env, t, op.connector, op.records) else 0
  }

  lemma OperationStep(env: Env, t: Tables, op: Operation)
    requires GatewaySourced(env) && TablesOk(env, t) && (op.Collect? ==> !FromGateway(op.observation))
    ensures TablesOk(env, Apply(env, t, op)) && Gap(Apply(env, t, op)) == Gap(t) + LostBy(env, t, op)
  {
    match op
    case Import(c, rs) => ImportStep(env, t, c, rs);
    case Collect(o) => CollectStep(env, t, o);
    case Other =>
  }

  /** Over every run, with calls that raise and identifiers that clash: the inserted counts of the import ledger
      total the gateway-sourced rows if and only if no commit of the run was lossy; otherwise they fall short. */
  lemma {:induction false} EveryRunConservesExactly(env: Env, ops: seq<Operation>)
    requires GatewaySourced(env) && LocalCollectors(ops)
    ensures TablesOk(env, ApplyAll(env, ops)) && Gap(ApplyAll(env, ops)) >= 0
    ensures Gap(ApplyAll(env, ops)) == 0 <==> NoneLossy(env, ops)
  {
    if ops != [] {
      var init, op := ops[..|ops| - 1], ops[|ops| - 1];
      EveryRunConservesExactly(env, init);
      OperationStep(env, ApplyAll(env, init), op);
      NoneLossySnoc(env, init, op);
      assert ops == init + [op];
    }
  }

  /** Two commits share an identifier. */
  predicate SameImport(env: Env, a: Operation, b: Operation)
    requires a.Import? && b.Import?
  {
    || env.importId(a.connector, a.records) == env.importId(b.connector, b.records)
    || env.manifest(a.connector, a.records) == env.manifest(b.connector, b.records)
  }

  /** Every report stored by a run is of one of its commits. */
  lemma {:induction false} ReportsComeFromRun(env: Env, ops: seq<Operation>)
    ensures forall row | row in ApplyAll(env, ops).imports ::
      Import(row.connector, row.records) in ops
  {
    if ops != [] {
      ReportsComeFromRun(env, ops[..|ops| - 1]);
      assert ops == ops[..|ops| - 1] + [ops[|ops| - 1]];
    }
  }

  /** If every commit of a run completes and no two different batches of the run share an identifier, the ledger
      accounts for exactly the gateway rows, repeated batches included. */
  lemma EveryRunConserves(env: Env, ops: seq<Operation>)
    requires GatewaySourced(env) && LocalCollectors(ops)
    requires forall i, j | 0 <= i < |ops| && 0 <= j < |ops| && ops[i].Import? && ops[j].Import?
      && SameImport(env, ops[i], ops[j]) :: ops[i] == ops[j]
    requires forall k | 0 <= k < |ops| && ops[k].Import? :: CommitCompletes(env, ApplyAll(env, ops[..k]), ops[k])
    ensures Gap(ApplyAll(env, ops)) == 0
  {
    EveryRunConservesExactly(env, ops);
    forall k | 0 <= k < |ops| ensures !LossyAt(env, ops, k) {
      if ops[k].Import? {
        EveryRunConservesExactly(env, ops[..k]);
        ReportsComeFromRun(env, ops[..k]);
        assert CommitCompletes(env, ApplyAll(env, ops[..k]), ops[k]);
        forall row | row in ApplyAll(env, ops[..k]).imports && SharesKey(env, row, ops[k])
          ensures ops[k] == Import(row.connector, row.records)
        {
          var j :| 0 <= j < k && ops[..k][j] == Import(row.connector, row.records);
          assert ImportRowOk(env, ApplyAll(env, ops[..k]), row);
          assert SameImport(env, ops[j], ops[k]);
        }
        OwnReportIsNotLossy(env, ApplyAll(env, ops[..k]), ops[k]);
      }
    }
  }

  ghost predicate ImportRowOk(env: Env, t: Tables, row: ImportRow) {
    && TablesOk(env, t) && row in t.imports
    && exists i | 0 <= i < |t.imports| :: t.imports[i] == row && ImportOk(env, t, i)
  }

  /** A completing commit whose identifiers are taken by reports of its own batch at most is not lossy. */
  lemma OwnReportIsNotLossy(env: Env, t: Tables, op: Operation)
    requires TablesOk(env, t) && op.Import? && CommitCompletes(env, t, op)
    requires forall row | row in t.imports && SharesKey(env, row, op) :: op == Import(row.connector, row.records)
    ensures !Lossy(env, t, op.connector, op.records)
  {
    var os := Accepted(env, op.connector, op.records);
    assert os[..|os|] == os;
    if i :| 0 <= i < |t.imports| && SharesKey(env, t.imports[i], op) {
      assert t.imports[i] in t.imports && ImportOk(env, t, i);
    } else {
      assert forall i | 0 <= i < |t.imports| :: !SharesKey(env, t.imports[i], op);
    }
  }

  predicate SharesKey(env: Env, row: ImportRow, op: Operation)
    requires op.Import?
  {
    row.importId == env.importId(op.connector, op.records) || row.manifest == env.manifest(op.connector, op.records)
  }

  predicate CommitCompletes(env: Env, t: Tables, op: Operation)
    requires op.Import?
  {
    var os := Accepted(env, op.connector, op.records);
    FirstClash(env, t.telemetry, os) == |os|
  }

  /** Committing a reported batch again completes, inserts nothing and changes nothing, whatever ran in between. */
  lemma RecommitInsertsNothing(env: Env, t: Tables, c: string, rs: seq<string>)
    requires TablesOk(env, t)
    requires exists i | 0 <= i < |t.imports| :: t.imports[i].connector == c && t.imports[i].records == rs
    ensures Apply(env, t, Import(c, rs)) == t
    ensures InsertAll(env, t.telemetry, Accepted(env, c, rs)) == (t.telemetry, Some(0))
  {
    var i :| 0 <= i < |t.imports| && t.imports[i].connector == c && t.imports[i].records == rs;
    assert ImportOk(env, t, i);
    StoredInsertsNothing(env, t.telemetry, Accepted(env, c, rs));
  }

  lemma {:induction false} StoredInsertsNothing(env: Env, rows: seq<Observation>, os: seq<Observation>)
    requires Digests(env, os) <= Digests(env, rows)
    ensures InsertAll(env, rows, os) == (rows, Some(0))
  {
    if os != [] {
      var init, o := os[..|os| - 1], os[|os| - 1];
      assert o in os && env.sha(o) in Digests(env, os);
      assert Digests(env, init) <= Digests(env, os);
      StoredInsertsNothing(env, rows, init);
    }
  }

  // ---- witnesses of lossy commits ----

  function Plain(node: string): Observation {
    Observation(node, "zeek-conn-gateway", "network", "connection", "low", "{}", "2025-01-01T00:00:00Z")
  }

  function Constantly(d: string): string { "OBS-0" }

  /** An installation whose digests differ by record while the identifiers `rowId` and `importId` are as given. */
  function Colliding(rowId: string -> string, importId: (string, seq<string>) -> string): Env {
    Env((o: Observation) => o.nodeId, rowId, (c: string, r: string) => Some(Plain(r)), importId,
      (c: string, rs: seq<string>) => if rs == [] then c else c + "/" + rs[0])
  }

  lemma CollidingAccepts(env: Env, c: string, a: string, b: string)
    requires forall r :: env.normalize(c, r) == Some(Plain(r))
    ensures Accepted(env, c, [a]) == [Plain(a)] && Accepted(env, c, [a, b]) == [Plain(a), Plain(b)]
  {
    assert [a][..0] == [] && [a, b][..1] == [a];
  }

  lemma OneRow(env: Env, o: Observation)
    ensures Digests(env, [o]) == {env.sha(o)} && RowIds(env, [o]) == {env.rowId(env.sha(o))}
    ensures Insert(env, [], o) == ([o], Some(true))
  {
    DigestsSnoc(env, [], o);
    assert [] + [o] == [o];
    assert Digests(env, []) == {} && RowIds(env, []) == {};
  }

  lemma OneInsert(env: Env, rows: seq<Observation>, o: Observation)
    ensures InsertAll(env, rows, [o]).0 == Insert(env, rows, o).0
    ensures InsertAll(env, rows, [o]).1 ==
      (if Insert(env, rows, o).1.None? then None else Some(if Insert(env, rows, o).1.value then 1 else 0))
    ensures FirstClash(env, rows, [o]) == if Clash(env, rows, o) then 0 else 1
  {
    assert [o][..0] == [] && rows + [] == rows;
  }

  /** Two records with different digests and one shortened row id, on empty tables: the commit raises at the second
      and leaves the first uncounted. */
  lemma RowIdClashWitness(importId: (string, seq<string>) -> string, c: string)
    ensures var env := Colliding(Constantly, importId);
      && FirstClash(env, [], Accepted(env, c, ["a", "b"])) == 1 < |Accepted(env, c, ["a", "b"])|
      && Apply(env, EMPTY, Import(c, ["a", "b"])) == Tables([Plain("a")], [])
      && Gap(Apply(env, EMPTY, Import(c, ["a", "b"]))) == 1
  {
    var env := Colliding(Constantly, importId);
    var a, b := Plain("a"), Plain("b");
    CollidingAccepts(env, c, "a", "b");
    OneRow(env, a);
    OneInsert(env, [], a);
    assert [a, b][..1] == [a] && [] + [a] == [a];
    assert env.sha(b) == "b" && env.sha(a) == "a";
    CountGatewaySnoc([], a);
  }

  /** Two batches with one shortened import id: the second commit completes, but its report is dropped and its row
      stays uncounted. */
  lemma ImportIdClashWitness(rowId: string -> string, importId: (string, seq<string>) -> string, c: string)
    requires rowId("a") != rowId("b") && importId(c, ["a"]) == importId(c, ["b"])
    ensures var env := Colliding(rowId, importId);
      var t := Apply(env, Apply(env, EMPTY, Import(c, ["a"])), Import(c, ["b"]));
      && t == Tables([Plain("a"), Plain("b")], [ImportOf(env, c, ["a"], 1)]) && Gap(t) == 1
  {
    var env := Colliding(rowId, importId);
    FirstCommit(env, c, "a");
    DroppedCommit(env, c, "a", "b");
    TwoRowsOneReport(Plain("a"), Plain("b"), ImportOf(env, c, ["a"], 1));
  }

  /** A second commit whose import id is that of the first. */
  lemma DroppedCommit(env: Env, c: string, a: string, b: string)
    requires env.normalize(c, b) == Some(Plain(b)) && env.importId(c, [a]) == env.importId(c, [b])
    requires env.sha(Plain(a)) != env.sha(Plain(b)) && env.rowId(env.sha(Plain(a))) != env.rowId(env.sha(Plain(b)))
    ensures var first := Tables([Plain(a)], [ImportOf(env, c, [a], 1)]);
      Apply(env, first, Import(c, [b])) == first.(telemetry := [Plain(a), Plain(b)])
  {
    var row := ImportOf(env, c, [a], 1);
    assert [b][..0] == [] && Accepted(env, c, [b]) == [Plain(b)];
    OneRow(env, Plain(a));
    OneInsert(env, [Plain(a)], Plain(b));
    assert [Plain(a)] + [Plain(b)] == [Plain(a), Plain(b)];
    assert Reported([row], env.importId(c, [b]), env.manifest(c, [b])) by { assert [row][0] == row; }
  }

  lemma TwoRowsOneReport(a: Observation, b: Observation, row: ImportRow)
    requires FromGateway(a) && FromGateway(b) && row.inserted == 1
    ensures Gap(Tables([a, b], [row])) == 1
  {
    CountGatewaySnoc([], a);
    CountGatewaySnoc([a], b);
    assert [] + [a] == [a] && [a] + [b] == [a, b];
    assert SumInserted([row]) == SumInserted([row][..0]) + row.inserted;
  }

  lemma FirstCommit(env: Env, c: string, r: string)
    requires env.normalize(c, r) == Some(Plain(r))
    ensures Apply(env, EMPTY, Import(c, [r])) == Tables([Plain(r)], [ImportOf(env, c, [r], 1)])
  {
    assert [r][..0] == [] && Accepted(env, c, [r]) == [Plain(r)];
    OneRow(env, Plain(r));
    OneInsert(env, [], Plain(r));
  }
}
