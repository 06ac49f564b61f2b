/** What the three ledgers check and store, link by link and field by field. */
module LedgerLaws {
  import opened Chain
  import opened Ledgers

  // ---- links ----

  /** The link of row `k`: 64 zeros for the first row, else the hash that its predecessor stores. */
  predicate LinksTo(link: Digest, hashes: seq<Digest>, k: nat)
    requires k < |hashes|
  {
    if k == 0 then |link| == 64 && forall i | 0 <= i < 64 :: link[i] == '0' else link == hashes[k - 1]
  }

  lemma LinkIsHead<R>(spec: Spec<R>, rows: seq<R>, hashes: seq<Digest>, k: nat)
    requires |hashes| == |rows| && (forall i | 0 <= i < |rows| :: hashes[i] == spec.hash(rows[i])) && k < |rows|
    ensures LinksTo(spec.prev(rows[k]), hashes, k) <==> spec.prev(rows[k]) == Head(spec, rows[..k])
  {
    if k > 0 {
      assert rows[..k][k - 1] == rows[k - 1];
    } else {
      assert LinksTo(spec.prev(rows[0]), hashes, 0) ==> spec.prev(rows[0]) == GENESIS;
    }
  }

  // ---- the audit journal ----

  function RecordHashes(rows: seq<AuditRow>): (h: seq<Digest>)
    ensures |h| == |rows| && forall i | 0 <= i < |rows| :: h[i] == rows[i].recordHash
  {
    seq(|rows|, i requires 0 <= i < |rows| => rows[i].recordHash)
  }

  /** The row stores the hash of its columns, its text says what its columns say, it names the installed key, and it
      links to its predecessor. */
  predicate AuditRowSound(mac: AuditRecord -> Digest, keyId: string, rows: seq<AuditRow>, k: nat)
    requires k < |rows|
  {
    && rows[k].recordHash == mac(rows[k].record) && rows[k].stored.Some? && rows[k].stored.value == rows[k].record
    && rows[k].record.keyId == keyId && LinksTo(rows[k].record.previousHash, RecordHashes(rows), k)
  }

  lemma AuditVerdictsAreLawful(mac: AuditRecord -> Digest, keyId: string, rows: seq<AuditRow>)
    ensures forall k | 0 <= k < |rows| ::
      RowValid(AuditSpec(mac, keyId), rows, k) <==> AuditRowSound(mac, keyId, rows, k)
  {
    forall k | 0 <= k < |rows|
      ensures RowValid(AuditSpec(mac, keyId), rows, k) <==> AuditRowSound(mac, keyId, rows, k)
    {
      LinkIsHead(AuditSpec(mac, keyId), rows, RecordHashes(rows), k);
    }
  }

  /** The first `n` characters of a text. */
  predicate Shortened(r: string, s: string, n: nat) {
    r <= s && |r| == if |s| < n then |s| else n
  }

  /** The first `n` characters of a text, small letters as capitals. */
  predicate Capitals(r: string, s: string, n: nat) {
    && |r| == (if |s| < n then |s| else n)
    && forall i | 0 <= i < |r| :: if 'a' <= s[i] <= 'z' then r[i] as int == s[i] as int - 32 else r[i] == s[i]
  }

  predicate SmallLetters(r: string, s: string) {
    && |r| == |s|
    && forall i | 0 <= i < |r| :: if 'A' <= s[i] <= 'Z' then r[i] as int == s[i] as int + 32 else r[i] == s[i]
  }

  predicate RecordsEntry(e: AuditEntry, now: string, keyId: string, r: AuditRecord) {
    && Shortened(r.commandId, e.commandId, 96) && r.createdAt == now && Shortened(r.sessionRef, e.sessionRef, 96)
    && Capitals(r.operatorRole, e.operatorRole, 32) && Capitals(r.verb, e.verb, 16) && Shortened(r.path, e.path, 512)
    && Shortened(r.permission, e.permission, 64) && (r.entitlement.None? <==> e.entitlement == "")
    && (r.entitlement.Some? ==> Shortened(r.entitlement.value, e.entitlement, 96))
    && Capitals(r.decision, e.decision, 64) && r.statusCode == e.statusCode
    && SmallLetters(r.requestSha256, e.requestSha256) && r.keyId == keyId
  }

  /** What an append stores: the bounded fields of the entry, and a sound row at the end of the journal. */
  lemma AppendIsLawful(j: AuditJournal, e: AuditEntry, now: string, rows: seq<AuditRow>)
    ensures var row := j.RowOf(e, now, rows);
      RecordsEntry(e, now, j.keyId, row.record) && AuditRowSound(j.mac, j.keyId, rows + [row], |rows|)
  {
    var row := j.RowOf(e, now, rows);
    AuditVerdictsAreLawful(j.mac, j.keyId, rows + [row]);
    assert (rows + [row])[..|rows|] == rows;
    assert RowValid(AuditSpec(j.mac, j.keyId), rows + [row], |rows|);
  }

  /** A digest is 64 digits of the hexadecimal alphabet. */
  lemma DigestsAreHexadecimal(s: string)
    ensures IsHexDigest(s) <==> |s| == 64 && forall i | 0 <= i < |s| :: Hexadecimal(s[i])
  {
  }

  predicate Hexadecimal(c: char) { '0' <= c <= '9' || 'a' <= c <= 'f' || 'A' <= c <= 'F' }

  // ---- the evidence chains ----

  function EventHashes(rows: seq<EvidenceRow>): (h: seq<Digest>)
    ensures |h| == |rows| && forall i | 0 <= i < |rows| :: h[i] == rows[i].eventHash
  {
    seq(|rows|, i requires 0 <= i < |rows| => rows[i].eventHash)
  }

  predicate EventSound(sha: (SecurityEvent, Digest) -> Digest, rows: seq<EvidenceRow>, k: nat)
    requires k < |rows|
  {
    && LinksTo(rows[k].previousHash, EventHashes(rows), k)
    && rows[k].eventHash == sha(rows[k].event, rows[k].previousHash)
  }

  lemma EvidenceVerdictsAreLawful(sha: (SecurityEvent, Digest) -> Digest, rows: seq<EvidenceRow>)
    ensures forall k | 0 <= k < |rows| :: RowValid(EvidenceSpec(sha), rows, k) <==> EventSound(sha, rows, k)
  {
    forall k | 0 <= k < |rows| ensures RowValid(EvidenceSpec(sha), rows, k) <==> EventSound(sha, rows, k) {
      LinkIsHead(EvidenceSpec(sha), rows, EventHashes(rows), k);
    }
  }

  /** The row an event becomes carries the event and is sound at the end of its chain. */
  lemma LinkedIsLawful(sha: (SecurityEvent, Digest) -> Digest, chain: seq<EvidenceRow>, event: SecurityEvent)
    ensures var row := Linked(sha, chain, event);
      row.event == event && EventSound(sha, chain + [row], |chain|)
  {
    var row := Linked(sha, chain, event);
    EvidenceVerdictsAreLawful(sha, chain + [row]);
    assert (chain + [row])[..|chain|] == chain;
    assert RowValid(EvidenceSpec(sha), chain + [row], |chain|);
  }

  /** `at` lists the positions of the case in the table, in order. */
  ghost predicate Places(table: seq<EvidenceRow>, caseId: string, at: seq<nat>, rows: seq<EvidenceRow>) {
    && |at| == |rows| && (forall i, j | 0 <= i < j < |at| :: at[i] < at[j])
    && (forall i | 0 <= i < |at| :: at[i] < |table| && rows[i] == table[at[i]])
    && forall k: nat :: k in at <==> OfCase(table, caseId, k)
  }

  predicate OfCase(table: seq<EvidenceRow>, caseId: string, k: nat) {
    k < |table| && table[k].event.caseId == caseId
  }

  ghost predicate ItsRows(table: seq<EvidenceRow>, caseId: string, rows: seq<EvidenceRow>) {
    exists at :: Places(table, caseId, at, rows)
  }

  /** The rows of a case are the rows with its id, each once and in table order. */
  lemma {:induction false} CaseRowsAreItsRows(table: seq<EvidenceRow>, caseId: string)
    ensures ItsRows(table, caseId, CaseRows(table, caseId))
  {
    if table == [] {
      assert Places(table, caseId, [], []);
    } else {
      CaseRowsAreItsRows(table[..|table| - 1], caseId);
      RowsGrow(table, caseId, CaseRows(table[..|table| - 1], caseId), CaseRows(table, caseId));
    }
  }

  lemma RowsGrow(table: seq<EvidenceRow>, caseId: string, before: seq<EvidenceRow>, after: seq<EvidenceRow>)
    requires table != [] && ItsRows(table[..|table| - 1], caseId, before)
    requires var last := table[|table| - 1]; after == before + if last.event.caseId == caseId then [last] else []
    ensures ItsRows(table, caseId, after)
  {
    var n: nat := |table| - 1;
    var at: seq<nat> :| Places(table[..n], caseId, at, before);
    forall k: nat | k != n ensures OfCase(table[..n], caseId, k) == OfCase(table, caseId, k) { }
    if OfCase(table, caseId, n) {
      forall k: nat ensures k in at + [n] <==> OfCase(table, caseId, k) {
        assert k in at + [n] <==> k in at || k == n;
      }
      assert Places(table, caseId, at + [n], after);
    } else {
      assert Places(table, caseId, at, after);
    }
  }

  /** A verification covers the first ten thousand rows. */
  lemma ShownIsPrefix(rows: seq<EvidenceRow>)
    ensures Shown(rows) == rows[..if |rows| < 10_000 then |rows| else 10_000]
  {
  }

  // ---- the promotion ledger ----

  function LedgerHashes(rows: seq<PromotionRow>): (h: seq<Digest>)
    ensures |h| == |rows| && forall i | 0 <= i < |rows| :: h[i] == rows[i].recordHash
  {
    seq(|rows|, i requires 0 <= i < |rows| => rows[i].recordHash)
  }

  /** The text parses and says what the columns say, the stored hash is its hash, the attestation is that of the hash
      under the installed key, and it links to its predecessor. */
  predicate PromotionSound(
    sha: Payload -> Digest, attest: Digest -> Digest, keyId: string, rows: seq<PromotionRow>, k: nat)
    requires k < |rows|
  {
    var r := rows[k];
    && r.record.Some?
    && r.record.value.(checks := "", evidence := "") ==
         Payload(r.decisionId, r.createdAt, r.candidate, r.champion, r.decision, "", "", r.previousHash)
    && r.recordHash == sha(r.record.value) && r.attestation == attest(r.recordHash) && r.keyId == keyId
    && LinksTo(r.previousHash, LedgerHashes(rows), k)
  }

  lemma PromotionVerdictsAreLawful(
    sha: Payload -> Digest, attest: Digest -> Digest, keyId: string, rows: seq<PromotionRow>)
    ensures forall k | 0 <= k < |rows| ::
      RowValid(PromotionSpec(sha, attest, keyId), rows, k) <==> PromotionSound(sha, attest, keyId, rows, k)
  {
    forall k | 0 <= k < |rows|
      ensures RowValid(PromotionSpec(sha, attest, keyId), rows, k) <==> PromotionSound(sha, attest, keyId, rows, k)
    {
      LinkIsHead(PromotionSpec(sha, attest, keyId), rows, LedgerHashes(rows), k);
    }
  }
}
