/** The three ledgers: the keyed operator audit journal, the per-case evidence chain and the promotion ledger. */
module Ledgers {
  import opened Numbers
  import opened Chain

  function Cut(s: string, n: nat): (r: string)
    ensures |r| <= n
  {
    if |s| <= n then s else s[..n]
  }

  // ---- aegis/audit.py ----

  datatype AuditRecord = AuditRecord(
    commandId: string, createdAt: string, sessionRef: string, operatorRole: string, verb: string, path: string,
    permission: string, entitlement: Option<string>, decision: string, statusCode: int, requestSha256: string,
    previousHash: Digest, keyId: string)

  /** The columns, the record hash, and the parsed `record_json` (None when it does not parse). */
  datatype AuditRow = AuditRow(record: AuditRecord, recordHash: Digest, stored: Option<AuditRecord>)

  /** What `verify` checks of one row besides its link. `mac` is HMAC-SHA256 under the installation key over the
      canonical encoding. */
  function AuditSpec(mac: AuditRecord -> Digest, keyId: string): Spec<AuditRow> {
    Spec(
      (r: AuditRow) => r.record.previousHash,
      (r: AuditRow) => r.recordHash,
      (r: AuditRow) => mac(r.record) == r.recordHash && r.stored == Some(r.record) && r.record.keyId == keyId)
  }

  function LowerChar(c: char): char { if 'A' <= c <= 'Z' then (c as int + 32) as char else c }
  function UpperChar(c: char): char { if 'a' <= c <= 'z' then (c as int - 32) as char else c }

  function Lower(s: string): (r: string)
    ensures |r| == |s| && forall i | 0 <= i < |s| :: r[i] == LowerChar(s[i])
  {
    seq(|s|, i requires 0 <= i < |s| => LowerChar(s[i]))
  }

  function Upper(s: string): (r: string)
    ensures |r| == |s| && forall i | 0 <= i < |s| :: r[i] == UpperChar(s[i])
  {
    seq(|s|, i requires 0 <= i < |s| => UpperChar(s[i]))
  }

  /** 64 hexadecimal digits in either case. */
  predicate IsHexDigest(s: string) {
    |s| == 64 && forall i | 0 <= i < 64 :: '0' <= LowerChar(s[i]) <= '9' || 'a' <= LowerChar(s[i]) <= 'f'
  }

  /** No two records in the journals have the same keyed hash, and none hashes to the genesis value. */
  ghost predicate MacCollisionFree(mac: AuditRecord -> Digest, a: seq<AuditRow>, b: seq<AuditRow>) {
    && (forall i, j | 0 <= i < |a| && 0 <= j < |b| && mac(a[i].record) == mac(b[j].record) ::
          a[i].record == b[j].record)
    && (forall i | 0 <= i < |a| :: mac(a[i].record) != GENESIS)
    && (forall j | 0 <= j < |b| :: mac(b[j].record) != GENESIS)
  }

  lemma AuditCollisionFree(mac: AuditRecord -> Digest, keyId: string, a: seq<AuditRow>, b: seq<AuditRow>)
    requires MacCollisionFree(mac, a, b)
    ensures CollisionFree(AuditSpec(mac, keyId), a, b)
  {
  }

  /** Two audit journals that verify under one key and show the same chain head hold the same records. */
  lemma AuditHeadCommits(mac: AuditRecord -> Digest, keyId: string, a: seq<AuditRow>, b: seq<AuditRow>)
    requires ChainValid(AuditSpec(mac, keyId), a) && ChainValid(AuditSpec(mac, keyId), b)
    requires Head(AuditSpec(mac, keyId), a) == Head(AuditSpec(mac, keyId), b) && MacCollisionFree(mac, a, b)
    ensures a == b
  {
    AuditCollisionFree(mac, keyId, a, b);
    HeadCommits(AuditSpec(mac, keyId), a, b);
  }

  datatype AuditError = AuditUnavailable | InvalidDigest | IntegrityError

  datatype AppendOutcome = Appended(row: AuditRow) | Failed(error: AuditError)

  datatype AuditEntry = AuditEntry(
    commandId: string, sessionRef: string, operatorRole: string, verb: string, path: string, permission: string,
    entitlement: string, decision: string, statusCode: int, requestSha256: string)

  datatype AuditVerification = AuditVerification(
    valid: bool, records: nat, chainHead: Digest, failurePosition: Option<nat>, error: bool)

  class AuditJournal {
    const mac: AuditRecord -> Digest
    const keyId: string
    const operational: bool
    var rows: seq<AuditRow>

    constructor (mac: AuditRecord -> Digest, keyId: string, operational: bool, rows: seq<AuditRow>)
      ensures this.mac == mac && this.keyId == keyId && this.operational == operational && this.rows == rows
    {
      this.mac, this.keyId, this.operational, this.rows := mac, keyId, operational, rows;
    }

    function TheSpec(): Spec<AuditRow> {
      AuditSpec(mac, keyId)
    }

    /** The record an entry becomes: bounded fields, an empty entitlement dropped, linked to the given head. */
    function RecordOf(e: AuditEntry, now: string, head: Digest): AuditRecord {
      AuditRecord(
        Cut(e.commandId, 96), now, Cut(e.sessionRef, 96), Cut(Upper(e.operatorRole), 32), Cut(Upper(e.verb), 16),
        Cut(e.path, 512), Cut(e.permission, 64), if e.entitlement != "" then Some(Cut(e.entitlement, 96)) else None,
        Cut(Upper(e.decision), 64), e.statusCode, Lower(e.requestSha256), head, keyId)
    }

    function RowOf(e: AuditEntry, now: string, rows: seq<AuditRow>): AuditRow {
      var record := RecordOf(e, now, Head(TheSpec(), rows));
      AuditRow(record, mac(record), Some(record))
    }

    /** The journal verifies, and the keyed hash does not collide on it and the next row. */
    ghost predicate NextIsCollisionFree(e: AuditEntry, now: string, rows: seq<AuditRow>) {
      ChainValid(TheSpec(), rows) && var next := rows + [RowOf(e, now, rows)]; MacCollisionFree(mac, next, next)
    }

    /** `commits` is whether the database accepts the transaction. A refused append changes nothing. */
    method Append(e: AuditEntry, now: string, commits: bool) returns (r: AppendOutcome)
      modifies this
      ensures r.Failed? ==> rows == old(rows)
      ensures r.Failed? && r.error == AuditUnavailable <==> !operational
      ensures r.Failed? && r.error == InvalidDigest <==> operational && !IsHexDigest(e.requestSha256)
      ensures r.Appended? ==> commits && rows == old(rows) + [r.row] && r.row == RowOf(e, now, old(rows))
      ensures ChainValid(TheSpec(), old(rows)) ==> ChainValid(TheSpec(), rows)
      ensures operational && IsHexDigest(e.requestSha256) && commits && NextIsCollisionFree(e, now, old(rows)) ==>
        r.Appended?
    {
      if !operational {
        return Failed(AuditUnavailable);
      }
      if !IsHexDigest(e.requestSha256) {
        return Failed(InvalidDigest);
      }
      var row := RowOf(e, now, rows);
      AppendFacts(rows, row);
      var duplicate := exists k | 0 <= k < |rows| :: rows[k].recordHash == row.recordHash;
      if duplicate || !commits {
        return Failed(IntegrityError);
      }
      rows := rows + [row];
      r := Appended(row);
    }

    lemma AppendFacts(rows: seq<AuditRow>, row: AuditRow)
      requires TheSpec().ok(row) && row.record.previousHash == Head(TheSpec(), rows)
      ensures ChainValid(TheSpec(), rows) ==> ChainValid(TheSpec(), rows + [row])
      ensures ChainValid(TheSpec(), rows) && MacCollisionFree(mac, rows + [row], rows + [row]) ==>
        forall k | 0 <= k < |rows| :: rows[k].recordHash != row.recordHash
    {
      if ChainValid(TheSpec(), rows) {
        AppendExact(TheSpec(), rows, row);
        if MacCollisionFree(mac, rows + [row], rows + [row]) {
          AuditCollisionFree(mac, keyId, rows + [row], rows + [row]);
          AppendIsUnique(TheSpec(), rows, row);
        }
      }
    }

    /** Without a key nothing verifies; otherwise the first bad row is reported. */
    method Verify() returns (v: AuditVerification)
      ensures v.records == |rows|
      ensures v.valid <==> operational && ChainValid(TheSpec(), rows)
      ensures v.chainHead == Head(TheSpec(), rows)
      ensures v.error <==> !operational
      ensures v.failurePosition.Some? <==> operational && !v.valid
      ensures v.failurePosition.Some? ==>
        v.failurePosition.value < |rows| && !RowValid(TheSpec(), rows, v.failurePosition.value)
      ensures v.failurePosition.Some? ==> forall k | 0 <= k < v.failurePosition.value :: RowValid(TheSpec(), rows, k)
    {
      var lastHash := Head(TheSpec(), rows);
      if !operational {
        return AuditVerification(false, |rows|, lastHash, None, true);
      }
      var bad, head := VerifyEarly(TheSpec(), rows);
      if bad.Some? {
        return AuditVerification(false, |rows|, lastHash, bad, false);
      }
      v := AuditVerification(true, |rows|, head, None, false);
    }
  }

  // ---- aegis/evidence.py and the events table of aegis/store.py ----

  datatype SecurityEvent = SecurityEvent(
    caseId: string, eventType: string, actor: string, target: string, payload: string, timestamp: string)

  datatype EvidenceRow = EvidenceRow(event: SecurityEvent, previousHash: Digest, eventHash: Digest)

  /** `sha` is SHA-256 over the canonical encoding of an event and the previous hash. */
  function EvidenceSpec(sha: (SecurityEvent, Digest) -> Digest): Spec<EvidenceRow> {
    Spec(
      (r: EvidenceRow) => r.previousHash,
      (r: EvidenceRow) => r.eventHash,
      (r: EvidenceRow) => sha(r.event, r.previousHash) == r.eventHash)
  }

  ghost predicate ShaCollisionFree(sha: (SecurityEvent, Digest) -> Digest, a: seq<EvidenceRow>, b: seq<EvidenceRow>) {
    && (forall i, j | 0 <= i < |a| && 0 <= j < |b|
          && sha(a[i].event, a[i].previousHash) == sha(b[j].event, b[j].previousHash) ::
          a[i].event == b[j].event && a[i].previousHash == b[j].previousHash)
    && (forall i | 0 <= i < |a| :: sha(a[i].event, a[i].previousHash) != GENESIS)
    && (forall j | 0 <= j < |b| :: sha(b[j].event, b[j].previousHash) != GENESIS)
  }

  /** Two evidence chains that verify and end in the same hash record the same events in the same order. */
  lemma EvidenceHeadCommits(sha: (SecurityEvent, Digest) -> Digest, a: seq<EvidenceRow>, b: seq<EvidenceRow>)
    requires ChainValid(EvidenceSpec(sha), a) && ChainValid(EvidenceSpec(sha), b)
    requires Head(EvidenceSpec(sha), a) == Head(EvidenceSpec(sha), b) && ShaCollisionFree(sha, a, b)
    ensures a == b
  {
    HeadCommits(EvidenceSpec(sha), a, b);
  }

  datatype EvidenceVerification = EvidenceVerification(
    valid: bool, verifiedEvents: nat, failurePosition: Option<nat>, headHash: Digest)

  /** The verified rows are all those before the first bad one, the head is theirs, and the failing position, which
      counts from 1, is that of the bad one. */
  ghost predicate IsVerdict(spec: Spec<EvidenceRow>, records: seq<EvidenceRow>, v: EvidenceVerification) {
    && v.verifiedEvents <= |records| && v.headHash == Head(spec, records[..v.verifiedEvents])
    && (forall k | 0 <= k < v.verifiedEvents :: RowValid(spec, records, k))
    && (v.valid <==> v.verifiedEvents == |records|)
    && (!v.valid ==> !RowValid(spec, records, v.verifiedEvents))
    && v.failurePosition == if v.valid then None else Some(v.verifiedEvents + 1)
  }

  /** `verify_records`. */
  method VerifyRecords(sha: (SecurityEvent, Digest) -> Digest, records: seq<EvidenceRow>)
    returns (v: EvidenceVerification)
    ensures IsVerdict(EvidenceSpec(sha), records, v)
    ensures v.valid <==> ChainValid(EvidenceSpec(sha), records)
  {
    var spec := EvidenceSpec(sha);
    var previous := GENESIS;
    for k := 0 to |records|
      invariant previous == Head(spec, records[..k])
      invariant forall j | 0 <= j < k :: RowValid(spec, records, j)
    {
      var record := records[k];
      var calculated := sha(record.event, previous);
      if record.previousHash != previous || record.eventHash != calculated {
        assert !RowValid(spec, records, k);
        return EvidenceVerification(false, k, Some(k + 1), previous);
      }
      previous := record.eventHash;
    }
    assert records[..|records|] == records;
    v := EvidenceVerification(true, |records|, None, previous);
  }

  /** The rows of one case, oldest first. */
  function CaseRows(table: seq<EvidenceRow>, caseId: string): (r: seq<EvidenceRow>)
    ensures |r| <= |table|
  {
    if table == [] then []
    else
      var last := table[|table| - 1];
      CaseRows(table[..|table| - 1], caseId) + (if last.event.caseId == caseId then [last] else [])
  }

  lemma CaseRowsSnoc(table: seq<EvidenceRow>, r: EvidenceRow, caseId: string)
    ensures CaseRows(table + [r], caseId) == CaseRows(table, caseId) + if r.event.caseId == caseId then [r] else []
  {
    assert (table + [r])[..|table|] == table;
  }

  lemma {:induction false} CaseRowsMember(table: seq<EvidenceRow>, caseId: string, k: nat)
    requires k < |table| && table[k].event.caseId == caseId
    ensures table[k] in CaseRows(table, caseId)
  {
    if k < |table| - 1 { CaseRowsMember(table[..|table| - 1], caseId, k); }
  }

  lemma {:induction false} CaseRowsSubset(table: seq<EvidenceRow>, caseId: string)
    ensures forall r | r in CaseRows(table, caseId) :: r in table && r.event.caseId == caseId
  {
    if table != [] { CaseRowsSubset(table[..|table| - 1], caseId); }
  }

  /** The row an event becomes on a chain. */
  function Linked(sha: (SecurityEvent, Digest) -> Digest, chain: seq<EvidenceRow>, event: SecurityEvent): EvidenceRow {
    var previous := Head(EvidenceSpec(sha), chain);
    EvidenceRow(event, previous, sha(event, previous))
  }

  ghost predicate CasesValid(sha: (SecurityEvent, Digest) -> Digest, events: seq<EvidenceRow>) {
    forall c :: CaseValid(sha, events, c)
  }

  ghost predicate CaseValid(sha: (SecurityEvent, Digest) -> Digest, events: seq<EvidenceRow>, c: string) {
    ChainValid(EvidenceSpec(sha), CaseRows(events, c))
  }

  /** In a table whose cases all verify, the hash of the next event of any case is not stored yet. */
  lemma NextHashIsNew(sha: (SecurityEvent, Digest) -> Digest, events: seq<EvidenceRow>, event: SecurityEvent)
    requires CasesValid(sha, events) && NextCollisionFree(sha, events, event)
    ensures !Stored(EvidenceSpec(sha), events, Linked(sha, CaseRows(events, event.caseId), event))
  {
    var c, spec := event.caseId, EvidenceSpec(sha);
    var chain := CaseRows(events, c);
    var row := Linked(sha, chain, event);
    var all := events + [row];
    assert CaseValid(sha, events, c);
    CaseRowsSubset(events, c);
    assert forall i | 0 <= i < |chain + [row]| :: (chain + [row])[i] in all;
    AppendIsUnique(spec, chain, row);
    forall k | 0 <= k < |events| ensures events[k].eventHash != row.eventHash {
      StoredRowIsSound(sha, events, k);
      assert all[k] == events[k] && all[|events|] == row;
      if events[k].event == event {
        CaseRowsMember(events, c, k);
        assert exists i | 0 <= i < |chain| :: chain[i] == events[k];
      }
    }
  }

  lemma StoredRowIsSound(sha: (SecurityEvent, Digest) -> Digest, events: seq<EvidenceRow>, k: nat)
    requires CasesValid(sha, events) && k < |events|
    ensures sha(events[k].event, events[k].previousHash) == events[k].eventHash
  {
    var chain := CaseRows(events, events[k].event.caseId);
    CaseRowsMember(events, events[k].event.caseId, k);
    assert CaseValid(sha, events, events[k].event.caseId);
    var i :| 0 <= i < |chain| && chain[i] == events[k];
    assert RowValid(EvidenceSpec(sha), chain, i);
  }

  ghost predicate SameCase(before: seq<EvidenceRow>, after: seq<EvidenceRow>, c: string) {
    CaseRows(after, c) == CaseRows(before, c)
  }

  /** One row more: its own case grows by it, and no other case changes. */
  ghost predicate ExtendsOneCase(before: seq<EvidenceRow>, after: seq<EvidenceRow>, row: EvidenceRow) {
    && after == before + [row]
    && CaseRows(after, row.event.caseId) == CaseRows(before, row.event.caseId) + [row]
    && forall c | c != row.event.caseId :: SameCase(before, after, c)
  }

  lemma AppendedExtends(events: seq<EvidenceRow>, row: EvidenceRow)
    ensures ExtendsOneCase(events, events + [row], row)
  {
    CaseRowsSnoc(events, row, row.event.caseId);
    forall c | c != row.event.caseId ensures SameCase(events, events + [row], c) { CaseRowsSnoc(events, row, c); }
  }

  lemma CasesAfter(sha: (SecurityEvent, Digest) -> Digest, events: seq<EvidenceRow>, event: SecurityEvent)
    requires CasesValid(sha, events)
    ensures CasesValid(sha, events + [Linked(sha, CaseRows(events, event.caseId), event)])
  {
    var row := Linked(sha, CaseRows(events, event.caseId), event);
    forall c ensures CaseValid(sha, events + [row], c) {
      assert CaseValid(sha, events, c);
      CaseRowsSnoc(events, row, c);
      assert CaseRows(events, c) + [] == CaseRows(events, c);
      AppendExact(EvidenceSpec(sha), CaseRows(events, c), row);
    }
  }

  /** The hash does not collide on the table and the next row of the event. */
  ghost predicate NextCollisionFree(
    sha: (SecurityEvent, Digest) -> Digest, events: seq<EvidenceRow>, event: SecurityEvent)
  {
    var next := events + [Linked(sha, CaseRows(events, event.caseId), event)];
    ShaCollisionFree(sha, next, next)
  }

  /** Everything the insertion of the next event of a case does to the table. */
  lemma AppendEffect(sha: (SecurityEvent, Digest) -> Digest, events: seq<EvidenceRow>, event: SecurityEvent)
    ensures var r := Linked(sha, CaseRows(events, event.caseId), event);
      && ExtendsOneCase(events, events + [r], r)
      && (CasesValid(sha, events) ==> CasesValid(sha, events + [r]))
      && (CasesValid(sha, events) && NextCollisionFree(sha, events, event) ==> !Stored(EvidenceSpec(sha), events, r))
  {
    AppendedExtends(events, Linked(sha, CaseRows(events, event.caseId), event));
    if CasesValid(sha, events) {
      CasesAfter(sha, events, event);
      if NextCollisionFree(sha, events, event) {
        NextHashIsNew(sha, events, event);
      }
    }
  }

  /** Two appenders of one case that read the same head: different events are both accepted and the case no longer
      verifies; the same event twice is refused the second time. */
  lemma RacingEventsFork(
    sha: (SecurityEvent, Digest) -> Digest, chain: seq<EvidenceRow>, e: SecurityEvent, f: SecurityEvent)
    requires ChainValid(EvidenceSpec(sha), chain)
    requires var all := chain + [Linked(sha, chain, e)] + [Linked(sha, chain, f)]; ShaCollisionFree(sha, all, all)
    ensures var first, second := Linked(sha, chain, e), Linked(sha, chain, f);
      var after := Offer(EvidenceSpec(sha), Offer(EvidenceSpec(sha), chain, first), second);
      && (e == f ==> after == chain + [first])
      && (e != f ==> after == chain + [first] + [second])
      && (ChainValid(EvidenceSpec(sha), after) <==> e == f)
  {
    UnlockedAppendersFork(EvidenceSpec(sha), chain, Linked(sha, chain, e), Linked(sha, chain, f));
  }

  // ---- unlocked appends to many cases ----

  /** Its appender built the row on the head of the row's own case, read when that case had `a.seen` rows. */
  ghost predicate HonestInCase(
    sha: (SecurityEvent, Digest) -> Digest, table: seq<EvidenceRow>, a: Attempt<EvidenceRow>)
  {
    HonestAt(EvidenceSpec(sha), CaseRows(table, a.row.event.caseId), a)
  }

  /** The insert goes in, for no case holds its hash, although another one went into the same case since. */
  ghost predicate StaleInCase(
    sha: (SecurityEvent, Digest) -> Digest, table: seq<EvidenceRow>, a: Attempt<EvidenceRow>)
  {
    !Stored(EvidenceSpec(sha), table, a.row) && a.seen < |CaseRows(table, a.row.event.caseId)|
  }

  ghost predicate HonestInCases(sha: (SecurityEvent, Digest) -> Digest, attempts: seq<Attempt<EvidenceRow>>) {
    forall i | 0 <= i < |attempts| :: HonestInCase(sha, Unlocked(EvidenceSpec(sha), attempts[..i]), attempts[i])
  }

  ghost predicate NoneStaleInCases(sha: (SecurityEvent, Digest) -> Digest, attempts: seq<Attempt<EvidenceRow>>) {
    forall i | 0 <= i < |attempts| :: !StaleInCase(sha, Unlocked(EvidenceSpec(sha), attempts[..i]), attempts[i])
  }

  /** All cases verify if and only if no accepted append was stale. */
  ghost predicate VerifiesExactly(sha: (SecurityEvent, Digest) -> Digest, attempts: seq<Attempt<EvidenceRow>>) {
    CasesValid(sha, Unlocked(EvidenceSpec(sha), attempts)) <==> NoneStaleInCases(sha, attempts)
  }

  /** Any number of unlocked appends to any cases, interleaved in any way, into one table in which hashes are UNIQUE:
      all cases verify if and only if no accepted append was stale in its own case. */
  lemma {:induction false} EvidenceRunVerifiesExactly(
    sha: (SecurityEvent, Digest) -> Digest, attempts: seq<Attempt<EvidenceRow>>)
    requires HonestInCases(sha, attempts)
    requires var table := Unlocked(EvidenceSpec(sha), attempts); ShaCollisionFree(sha, table, table)
    ensures VerifiesExactly(sha, attempts)
  {
    if attempts == [] {
      EmptyRunVerifies(sha);
    } else {
      var init, a := attempts[..|attempts| - 1], attempts[|attempts| - 1];
      SplitLast(attempts);
      OneMoreAttempt(sha, init, a, attempts);
      EvidenceRunVerifiesExactly(sha, init);
    }
  }

  lemma SplitLast<T>(s: seq<T>)
    requires s != []
    ensures s == s[..|s| - 1] + [s[|s| - 1]]
  {
  }

  lemma OneMoreAttempt(sha: (SecurityEvent, Digest) -> Digest, init: seq<Attempt<EvidenceRow>>,
    a: Attempt<EvidenceRow>, all: seq<Attempt<EvidenceRow>>)
    requires all == init + [a] && HonestInCases(sha, all)
    requires var table := Unlocked(EvidenceSpec(sha), all); ShaCollisionFree(sha, table, table)
    ensures HonestInCases(sha, init)
    ensures var table := Unlocked(EvidenceSpec(sha), init); ShaCollisionFree(sha, table, table)
    ensures VerifiesExactly(sha, init) ==> VerifiesExactly(sha, all)
  {
    HonestInit(sha, init, a);
    NoneStaleInit(sha, init, a);
    RunStep(sha, init, a);
  }

  lemma EmptyRunVerifies(sha: (SecurityEvent, Digest) -> Digest)
    ensures VerifiesExactly(sha, [])
  {
    forall c ensures CaseValid(sha, [], c) { }
  }

  lemma RunStep(sha: (SecurityEvent, Digest) -> Digest, init: seq<Attempt<EvidenceRow>>, a: Attempt<EvidenceRow>)
    requires HonestInCase(sha, Unlocked(EvidenceSpec(sha), init), a)
    requires var after := Unlocked(EvidenceSpec(sha), init + [a]); ShaCollisionFree(sha, after, after)
    ensures var table := Unlocked(EvidenceSpec(sha), init);
      && ShaCollisionFree(sha, table, table)
      && (CasesValid(sha, Unlocked(EvidenceSpec(sha), init + [a])) <==>
            CasesValid(sha, table) && !StaleInCase(sha, table, a))
  {
    var table := Unlocked(EvidenceSpec(sha), init);
    assert (init + [a])[..|init|] == init;
    PrefixCollisionFree(sha, table, Offer(EvidenceSpec(sha), table, a.row));
    TableAttemptStep(sha, table, a);
  }

  lemma PrefixCollisionFree(sha: (SecurityEvent, Digest) -> Digest, table: seq<EvidenceRow>, all: seq<EvidenceRow>)
    requires table <= all && ShaCollisionFree(sha, all, all)
    ensures ShaCollisionFree(sha, table, table)
  {
    assert forall i | 0 <= i < |table| :: table[i] == all[i];
  }

  lemma HonestInit(
    sha: (SecurityEvent, Digest) -> Digest, init: seq<Attempt<EvidenceRow>>, a: Attempt<EvidenceRow>)
    requires HonestInCases(sha, init + [a])
    ensures HonestInCases(sha, init) && HonestInCase(sha, Unlocked(EvidenceSpec(sha), init), a)
  {
    var all, spec := init + [a], EvidenceSpec(sha);
    assert all[..|init|] == init && HonestInCase(sha, Unlocked(spec, all[..|init|]), all[|init|]);
    forall i | 0 <= i < |init| ensures HonestInCase(sha, Unlocked(spec, init[..i]), init[i]) {
      HonestBefore(sha, init, a, i);
    }
  }

  lemma HonestBefore(
    sha: (SecurityEvent, Digest) -> Digest, init: seq<Attempt<EvidenceRow>>, a: Attempt<EvidenceRow>, i: nat)
    requires HonestInCases(sha, init + [a]) && i < |init|
    ensures HonestInCase(sha, Unlocked(EvidenceSpec(sha), init[..i]), init[i])
  {
    var all := init + [a];
    assert all[..i] == init[..i] && HonestInCase(sha, Unlocked(EvidenceSpec(sha), all[..i]), all[i]);
  }

  lemma NoneStaleInit(
    sha: (SecurityEvent, Digest) -> Digest, init: seq<Attempt<EvidenceRow>>, a: Attempt<EvidenceRow>)
    ensures NoneStaleInCases(sha, init + [a]) <==>
      NoneStaleInCases(sha, init) && !StaleInCase(sha, Unlocked(EvidenceSpec(sha), init), a)
  {
    var all, spec := init + [a], EvidenceSpec(sha);
    assert all[..|init|] == init;
    forall i | 0 <= i < |init|
      ensures StaleInCase(sha, Unlocked(spec, all[..i]), all[i]) == StaleInCase(sha, Unlocked(spec, init[..i]), init[i])
    {
      assert all[..i] == init[..i];
    }
    if NoneStaleInCases(sha, all) { assert !StaleInCase(sha, Unlocked(spec, all[..|init|]), all[|init|]); }
  }

  /** One more unlocked append: all cases verify afterwards exactly if they did and it was not stale. */
  lemma TableAttemptStep(sha: (SecurityEvent, Digest) -> Digest, table: seq<EvidenceRow>, a: Attempt<EvidenceRow>)
    requires HonestInCase(sha, table, a) && ShaCollisionFree(sha, table, table)
    ensures CasesValid(sha, Offer(EvidenceSpec(sha), table, a.row)) <==>
      CasesValid(sha, table) && !StaleInCase(sha, table, a)
  {
    if !Stored(EvidenceSpec(sha), table, a.row) {
      var after, own := table + [a.row], a.row.event.caseId;
      AppendedExtends(table, a.row);
      OwnCaseStep(sha, table, a);
      if CasesValid(sha, after) {
        forall c ensures CaseValid(sha, table, c) { OtherCaseStep(sha, table, after, a.row, c); }
      }
      if CasesValid(sha, table) && CaseValid(sha, after, own) {
        forall c ensures CaseValid(sha, after, c) { OtherCaseStep(sha, table, after, a.row, c); }
      }
    }
  }

  lemma OtherCaseStep(sha: (SecurityEvent, Digest) -> Digest, table: seq<EvidenceRow>, after: seq<EvidenceRow>,
    row: EvidenceRow, c: string)
    requires ExtendsOneCase(table, after, row)
    ensures c != row.event.caseId ==> (CaseValid(sha, after, c) <==> CaseValid(sha, table, c))
  {
    if c != row.event.caseId { assert SameCase(table, after, c); }
  }

  /** In its own case the accepted append is one step of the run of that case. */
  lemma OwnCaseStep(sha: (SecurityEvent, Digest) -> Digest, table: seq<EvidenceRow>, a: Attempt<EvidenceRow>)
    requires HonestInCase(sha, table, a) && ShaCollisionFree(sha, table, table)
    requires !Stored(EvidenceSpec(sha), table, a.row)
    ensures CaseValid(sha, table + [a.row], a.row.event.caseId) <==>
      CaseValid(sha, table, a.row.event.caseId) && !StaleInCase(sha, table, a)
  {
    var c, spec := a.row.event.caseId, EvidenceSpec(sha);
    var rows := CaseRows(table, c);
    CaseRowsSubset(table, c);
    CaseCollisionFree(sha, table, rows);
    NotStoredInCase(sha, table, rows, a.row);
    AttemptStep(spec, rows, a);
    CaseRowsSnoc(table, a.row, c);
  }

  lemma CaseCollisionFree(sha: (SecurityEvent, Digest) -> Digest, table: seq<EvidenceRow>, rows: seq<EvidenceRow>)
    requires ShaCollisionFree(sha, table, table) && forall r | r in rows :: r in table
    ensures CollisionFree(EvidenceSpec(sha), rows, rows)
  {
    assert forall i | 0 <= i < |rows| :: rows[i] in table;
  }

  lemma NotStoredInCase(sha: (SecurityEvent, Digest) -> Digest, table: seq<EvidenceRow>, rows: seq<EvidenceRow>,
    row: EvidenceRow)
    requires !Stored(EvidenceSpec(sha), table, row) && forall r | r in rows :: r in table
    ensures !Stored(EvidenceSpec(sha), rows, row)
  {
    assert forall i | 0 <= i < |rows| :: rows[i] in table;
  }

  const VERIFY_LIMIT: nat := 10_000

  function Shown(rows: seq<EvidenceRow>): seq<EvidenceRow> {
    if |rows| <= VERIFY_LIMIT then rows else rows[..VERIFY_LIMIT]
  }

  class EvidenceStore {
    const sha: (SecurityEvent, Digest) -> Digest
    var cases: map<string, string>  // the `updated_at` column by case id
    var events: seq<EvidenceRow>
    var certificates: seq<string>

    constructor (sha: (SecurityEvent, Digest) -> Digest)
      ensures this.sha == sha && cases == map[] && events == [] && certificates == []
    {
      this.sha, cases, events, certificates := sha, map[], [], [];
    }

    /** The events of known cases only, and every case verifies. */
    ghost predicate Valid()
      reads this
    {
      CasesValid(sha, events) && forall k | 0 <= k < |events| :: events[k].event.caseId in cases
    }

    /** INSERT OR IGNORE. */
    method CreateCase(caseId: string, now: string)
      modifies this`cases
      ensures cases == if caseId in old(cases) then old(cases) else old(cases)[caseId := now]
    {
      if caseId !in cases {
        cases := cases[caseId := now];
      }
    }

    method SaveCertificate(certificate: string)
      modifies this`certificates
      ensures certificates == old(certificates) + [certificate]
    {
      certificates := certificates + [certificate];
    }

    /** Appends to the chain of the event's own case; the other cases are untouched. None is the IntegrityError of an
        unknown case (foreign key) or a stored hash (UNIQUE), and changes nothing. Nothing else may write to the case
        between reading its head and inserting. */
    method AppendEvent(event: SecurityEvent) returns (row: Option<EvidenceRow>)
      modifies this`events, this`cases
      ensures var r := Linked(sha, old(CaseRows(events, event.caseId)), event);
        row == if event.caseId in old(cases) && !Stored(EvidenceSpec(sha), old(events), r) then Some(r) else None
      ensures row.None? ==> events == old(events) && cases == old(cases)
      ensures row.Some? ==> ExtendsOneCase(old(events), events, row.value)
      ensures row.Some? ==> cases == old(cases)[event.caseId := event.timestamp]
      ensures old(Valid()) ==> Valid()
      ensures old(Valid() && NextCollisionFree(sha, events, event)) && event.caseId in old(cases) ==> row.Some?
    {
      var r := Linked(sha, CaseRows(events, event.caseId), event);
      AppendEffect(sha, events, event);
      if event.caseId !in cases || Stored(EvidenceSpec(sha), events, r) {
        return None;
      }
      events := events + [r];
      cases := cases[event.caseId := event.timestamp];
      row := Some(r);
    }

    /** `reset` empties the three tables. */
    method Reset()
      modifies this
      ensures cases == map[] && events == [] && certificates == [] && Valid()
    {
      cases, events, certificates := map[], [], [];
    }

    /** Only the first 10000 events of a case are examined. */
    method VerifyCase(caseId: string) returns (v: EvidenceVerification)
      ensures IsVerdict(EvidenceSpec(sha), Shown(CaseRows(events, caseId)), v)
      ensures v.valid <==> ChainValid(EvidenceSpec(sha), Shown(CaseRows(events, caseId)))
      ensures ChainValid(EvidenceSpec(sha), CaseRows(events, caseId)) ==> v.valid
    {
      var rows := CaseRows(events, caseId);
      v := VerifyRecords(sha, Shown(rows));
      if |rows| > VERIFY_LIMIT && ChainValid(EvidenceSpec(sha), rows) {
        PrefixValid(EvidenceSpec(sha), rows, VERIFY_LIMIT);
      }
    }
  }

  // ---- the promotion ledger of aegis/registry.py ----

  datatype Payload = Payload(
    decisionId: string, createdAt: string, candidate: string, champion: Option<string>, decision: string,
    checks: string, evidence: string, previousHash: Digest)

  /** The columns, and the parsed `record_json` (None when it lacks a required key). */
  datatype PromotionRow = PromotionRow(
    decisionId: string, createdAt: string, candidate: string, champion: Option<string>, decision: string,
    previousHash: Digest, recordHash: Digest, keyId: string, attestation: Digest, record: Option<Payload>)

  predicate ColumnsAgree(r: PromotionRow, p: Payload) {
    && r.decisionId == p.decisionId && r.createdAt == p.createdAt && r.candidate == p.candidate
    && r.champion == p.champion && r.decision == p.decision && r.previousHash == p.previousHash
  }

  /** `sha` hashes a payload, `attest` is the keyed hash of a record hash. */
  function PromotionSpec(sha: Payload -> Digest, attest: Digest -> Digest, keyId: string): Spec<PromotionRow> {
    Spec(
      (r: PromotionRow) => if r.record.Some? then r.record.value.previousHash else r.previousHash,
      (r: PromotionRow) => r.recordHash,
      (r: PromotionRow) => r.record.Some? && sha(r.record.value) == r.recordHash && ColumnsAgree(r, r.record.value)
        && r.keyId == keyId && r.attestation == attest(sha(r.record.value)))
  }

  ghost predicate PayloadCollisionFree(sha: Payload -> Digest, a: seq<PromotionRow>, b: seq<PromotionRow>) {
    && (forall i, j | 0 <= i < |a| && 0 <= j < |b| && a[i].record.Some? && b[j].record.Some?
          && sha(a[i].record.value) == sha(b[j].record.value) :: a[i].record == b[j].record)
    && (forall i | 0 <= i < |a| && a[i].record.Some? :: sha(a[i].record.value) != GENESIS)
    && (forall j | 0 <= j < |b| && b[j].record.Some? :: sha(b[j].record.value) != GENESIS)
  }

  lemma PromotionCollisionFree(sha: Payload -> Digest, attest: Digest -> Digest, keyId: string,
    a: seq<PromotionRow>, b: seq<PromotionRow>)
    requires PayloadCollisionFree(sha, a, b)
    ensures CollisionFree(PromotionSpec(sha, attest, keyId), a, b)
  {
  }

  /** Two promotion ledgers that verify and share a head agree in every column of every row. */
  lemma PromotionHeadCommits(sha: Payload -> Digest, attest: Digest -> Digest, keyId: string,
    a: seq<PromotionRow>, b: seq<PromotionRow>)
    requires ChainValid(PromotionSpec(sha, attest, keyId), a) && ChainValid(PromotionSpec(sha, attest, keyId), b)
    requires Head(PromotionSpec(sha, attest, keyId), a) == Head(PromotionSpec(sha, attest, keyId), b)
    requires PayloadCollisionFree(sha, a, b)
    ensures a == b
  {
    PromotionCollisionFree(sha, attest, keyId, a, b);
    HeadCommits(PromotionSpec(sha, attest, keyId), a, b);
  }

  /** The full-scan verifier of the promotion ledger and an early-exit reading of the same rows agree: the scan is
      valid exactly when no first bad row is found, and its first negative verdict is at that row. */
  method CrossCheck(sha: Payload -> Digest, attest: Digest -> Digest, keyId: string, rows: seq<PromotionRow>)
    returns (bad: Option<nat>, verdicts: seq<bool>, valid: bool, head: Digest)
    ensures |verdicts| == |rows| && head == Head(PromotionSpec(sha, attest, keyId), rows)
    ensures valid <==> ChainValid(PromotionSpec(sha, attest, keyId), rows)
    ensures valid <==> bad.None?
    ensures bad.Some? ==> bad.value < |rows| && !verdicts[bad.value] && forall k | 0 <= k < bad.value :: verdicts[k]
  {
    var spec := PromotionSpec(sha, attest, keyId);
    var early;
    bad, early := VerifyEarly(spec, rows);
    verdicts, valid, head := VerifyAll(spec, rows);
  }

  // ---- any number of concurrent appenders ----

  /** In every interleaving of audit appenders (in-process lock, then BEGIN IMMEDIATE) every committed state of the
      journal verifies and extends the earlier ones. */
  lemma AuditRunsVerify(mac: AuditRecord -> Digest, keyId: string, run: seq<State<AuditRow>>, i: nat, j: nat)
    requires IsRun(AuditSpec(mac, keyId), true, run) && StateOk(AuditSpec(mac, keyId), true, run[0])
    requires i <= j < |run|
    ensures ChainValid(AuditSpec(mac, keyId), run[j].rows) && run[i].rows <= run[j].rows
  {
    EveryPrefixVerifies(AuditSpec(mac, keyId), true, run, i, j);
  }

  /** The promotion ledger takes BEGIN IMMEDIATE only; that alone suffices. */
  lemma PromotionRunsVerify(sha: Payload -> Digest, attest: Digest -> Digest, keyId: string,
    run: seq<State<PromotionRow>>, i: nat, j: nat)
    requires IsRun(PromotionSpec(sha, attest, keyId), false, run)
    requires StateOk(PromotionSpec(sha, attest, keyId), false, run[0])
    requires i <= j < |run|
    ensures ChainValid(PromotionSpec(sha, attest, keyId), run[j].rows) && run[i].rows <= run[j].rows
  {
    EveryPrefixVerifies(PromotionSpec(sha, attest, keyId), false, run, i, j);
  }

  lemma EveryPrefixVerifies<R(!new)>(spec: Spec<R>, locking: bool, run: seq<State<R>>, i: nat, j: nat)
    requires IsRun(spec, locking, run) && StateOk(spec, locking, run[0]) && i <= j < |run|
    ensures ChainValid(spec, run[j].rows) && run[i].rows <= run[j].rows
  {
    var head, tail := run[..i + 1], run[i..j + 1];
    forall k | 0 < k < |head| ensures Next(spec, locking, head[k - 1], head[k]) {
      assert Next(spec, locking, run[k - 1], run[k]);
    }
    forall k | 0 < k < |tail| ensures Next(spec, locking, tail[k - 1], tail[k]) {
      assert Next(spec, locking, run[i + k - 1], run[i + k]);
    }
    EveryRunVerifies(spec, locking, head);
    EveryRunVerifies(spec, locking, tail);
  }
}
