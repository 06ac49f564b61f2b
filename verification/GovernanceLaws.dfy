/** What the promotion decisions and the bootstrap come to, in terms of the stored rows and the requests. */
module GovernanceLaws {
  import opened Numbers
  import opened Registry
  import opened Governance
  import C = Chain
  import L = Ledgers
  import LedgerLaws
  import R = RegistrationLaws

  // ---- the decision ----

  ghost predicate FlaggedTrue(d: Descriptor, key: string) { key in d && d[key].Flag? && d[key].b }

  /** The conversion to an integer succeeds; a field that is absent counts as -1. */
  ghost predicate Convertible(env: Env, d: Descriptor, key: string) {
    key in d ==> match d[key]
      case Null => false
      case Nested(_, _) => false
      case Text(s) => env.parseInt(s).Some?
      case _ => true
  }

  /** The field is there and converts to 0. */
  ghost predicate Zero(env: Env, d: Descriptor, key: string) {
    key in d && match d[key]
      case Flag(b) => !b
      case Whole(n) => n == 0
      case Fraction(x) => -1.0 < x < 1.0
      case Text(s) => env.parseInt(s) == Some(0)
      case _ => false
  }

  lemma CountIsConversion(env: Env, d: Descriptor, key: string)
    ensures CountOf(env, d, key).Some? <==> Convertible(env, d, key)
    ensures CountOf(env, d, key) == Some(0) <==> Zero(env, d, key)
  {
  }

  ghost predicate Named(table: Table, id: Option<string>) {
    id.Some? && id.value != "" && R.Holds(table, id.value)
  }

  ghost predicate Fit(env: Env, a: Artifact) {
    && a.artifactType == "model" && |a.lineage| > 0
    && FlaggedTrue(a.descriptor, "grouped_validation") && FlaggedTrue(a.descriptor, "quality_gate_passed")
    && Zero(env, a.descriptor, "safety_violations") && Zero(env, a.descriptor, "external_targets")
  }

  ghost predicate Signed(table: Table, release: Release) {
    release.enterprise && release.shadow >= 10000 && release.signoff && Named(table, release.rollback)
  }

  lemma OneRowPerId(env: Env, table: Table, a: Artifact)
    requires RegistryOk(env, table) && a in table
    ensures Find(table, a.id) == Some(a)
  {
    var i: nat :| i < |table| && table[i] == a;
    var found := Find(table, a.id).value;
    var j: nat :| j < |table| && table[j] == found;
    UniquePosition(env, table, i, j);
  }

  /** There is a verdict unless the champion is unknown or a count does not convert. */
  lemma VerdictExists(env: Env, table: Table, a: Artifact, champion: Option<string>, release: Release)
    requires RegistryOk(env, table) && a in table
    ensures Judge(env, table, a.id, champion, release).Ok? <==>
      && (champion.None? || champion.value == "" || R.Holds(table, champion.value))
      && Convertible(env, a.descriptor, "safety_violations") && Convertible(env, a.descriptor, "external_targets")
  {
    OneRowPerId(env, table, a);
    if champion.Some? { R.FindHolds(table, champion.value); }
    CountIsConversion(env, a.descriptor, "safety_violations");
    CountIsConversion(env, a.descriptor, "external_targets");
  }

  ghost predicate VerdictOn(env: Env, table: Table, a: Artifact, release: Release, v: Verdict) {
    && v.decision == (
         if !Fit(env, a) then "REJECT_CANDIDATE"
         else if Signed(table, release) then "ELIGIBLE_FOR_SIGNED_RELEASE"
         else "HOLD_SHADOW")
    && ChecksRead(env, table, a, release, v.checks)
  }

  /** The verdict on a stored candidate, with the eleven checks behind it. */
  lemma DecisionIsLawful(env: Env, table: Table, a: Artifact, champion: Option<string>, release: Release)
    requires RegistryOk(env, table) && a in table && Judge(env, table, a.id, champion, release).Ok?
    ensures VerdictOn(env, table, a, release, Judge(env, table, a.id, champion, release).value)
  {
    OneRowPerId(env, table, a);
    FitIsQualified(env, a);
    SignedIsReady(table, release);
    DecisionExact(env, table, a.id, champion, release);
    ChecksAreRead(env, table, a, champion, release);
  }

  lemma FitIsQualified(env: Env, a: Artifact)
    ensures Fit(env, a) <==> Qualified(env, a)
  {
    CountIsConversion(env, a.descriptor, "safety_violations");
    CountIsConversion(env, a.descriptor, "external_targets");
  }

  lemma SignedIsReady(table: Table, release: Release)
    ensures Signed(table, release) <==> Ready(table, release)
  {
    if release.rollback.Some? { R.FindHolds(table, release.rollback.value); }
  }

  lemma ChecksAreRead(env: Env, table: Table, a: Artifact, champion: Option<string>, release: Release)
    requires RegistryOk(env, table) && a in table && Judge(env, table, a.id, champion, release).Ok?
    ensures ChecksRead(env, table, a, release, Judge(env, table, a.id, champion, release).value.checks)
  {
    OneRowPerId(env, table, a);
    FoundVerifies(env, table, a.id);
    ParentsVerify(env, table, a);
    var d := a.descriptor;
    var violations, targets := CountOf(env, d, "safety_violations").value, CountOf(env, d, "external_targets").value;
    QualityRead(env, table, a, violations, targets);
    ReleaseRead(table, release);
    var quality, ready := QualityChecks(env, table, a, violations, targets), ReleaseChecks(table, release);
    assert Judge(env, table, a.id, champion, release).value.checks == quality + ready;
    assert (quality + ready)[..7] == quality && (quality + ready)[7..] == ready;
  }

  lemma QualityRead(env: Env, table: Table, a: Artifact, violations: int, targets: int)
    requires Verified(env, a) && AllVerified(env, table, a.lineage)
    requires CountOf(env, a.descriptor, "safety_violations") == Some(violations)
    requires CountOf(env, a.descriptor, "external_targets") == Some(targets)
    ensures QualityFound(env, a, QualityChecks(env, table, a, violations, targets))
  {
    CountIsConversion(env, a.descriptor, "safety_violations");
    CountIsConversion(env, a.descriptor, "external_targets");
  }

  lemma ReleaseRead(table: Table, release: Release)
    ensures ReleaseFound(table, release, ReleaseChecks(table, release))
  {
    if release.rollback.Some? { R.FindHolds(table, release.rollback.value); }
  }

  /** The eleven checks by position: their names and what each found. */
  ghost predicate ChecksRead(env: Env, table: Table, a: Artifact, release: Release, checks: seq<Check>) {
    |checks| == 11 && QualityFound(env, a, checks[..7]) && ReleaseFound(table, release, checks[7..])
  }

  ghost predicate QualityFound(env: Env, a: Artifact, checks: seq<Check>) {
    && |checks| == 7
    && checks[0] == Check("model_artifact", a.artifactType == "model")
    && checks[1] == Check("artifact_attestation", true)
    && checks[2] == Check("lineage_verified", |a.lineage| > 0)
    && checks[3] == Check("grouped_validation", FlaggedTrue(a.descriptor, "grouped_validation"))
    && checks[4] == Check("quality_gate", FlaggedTrue(a.descriptor, "quality_gate_passed"))
    && checks[5] == Check("safety_regression", Zero(env, a.descriptor, "safety_violations"))
    && checks[6] == Check("external_targets", Zero(env, a.descriptor, "external_targets"))
  }

  ghost predicate ReleaseFound(table: Table, release: Release, checks: seq<Check>) {
    && |checks| == 4
    && checks[0] == Check("enterprise_validation", release.enterprise)
    && checks[1] == Check("shadow_volume", release.shadow >= 10000)
    && checks[2] == Check("human_release_signoff", release.signoff)
    && checks[3] == Check("rollback_artifact", Named(table, release.rollback))
  }

  // ---- the row of a decision ----

  /** The row is sound at the end of the ledger and records the decision. */
  ghost predicate RowOfDecision(env: Env, seal: Seal, ledger: Ledger, candidate: string, champion: Option<string>,
    decision: string, checks: string, evidence: string, ticket: Ticket, row: L.PromotionRow)
  {
    && LedgerLaws.PromotionSound(seal.sha, seal.attest, env.keyId, ledger + [row], |ledger|)
    && row.record == Some(L.Payload(
         ticket.id, ticket.now, candidate, champion, decision, checks, evidence, row.previousHash))
  }

  ghost predicate KnownDecision(d: string) {
    d in {"HOLD_SHADOW", "REJECT_CANDIDATE", "ELIGIBLE_FOR_SIGNED_RELEASE", "ROLLBACK_REQUIRED"}
  }

  ghost predicate Taken(ledger: Ledger, row: L.PromotionRow) {
    exists kept :: kept in ledger && (kept.decisionId == row.decisionId || kept.recordHash == row.recordHash)
  }

  /** One append: refused with the reason of the first failing condition, or one sound row more. */
  ghost predicate AppendedAs(env: Env, seal: Seal, table: Table, ledger: Ledger, candidate: string,
    champion: Option<string>, decision: string, checks: string, evidence: string, ticket: Ticket,
    after: Ledger, r: Result<L.PromotionRow>)
  {
    var d := env.upper(env.strip(decision));
    if !R.Clean(env, decision, 48) then after == ledger && r == Err(BadText)
    else if !KnownDecision(d) then after == ledger && r == Err(UnsupportedDecision)
    else if !R.Holds(table, candidate) then after == ledger && r == Err(CandidateMissing)
    else exists row: L.PromotionRow ::
      && RowOfDecision(env, seal, ledger, candidate, champion, d, checks, evidence, ticket, row)
      && if Taken(ledger, row) then after == ledger && r == Err(Conflict) else after == ledger + [row] && r == Ok(row)
  }

  lemma AppendIsLawful(env: Env, seal: Seal, table: Table, ledger: Ledger, candidate: string,
    champion: Option<string>, decision: string, checks: string, evidence: string, ticket: Ticket)
    ensures var (after, r) := Append(env, seal, table, ledger, candidate, champion, decision, checks, evidence, ticket);
      AppendedAs(env, seal, table, ledger, candidate, champion, decision, checks, evidence, ticket, after, r)
  {
    R.CleanIsBounded(env, decision, 48);
    R.FindHolds(table, candidate);
    var d := env.upper(env.strip(decision));
    var row := Entry(env, seal, ledger, candidate, champion, d, checks, evidence, ticket);
    EntryIsSound(env, seal, ledger, candidate, champion, d, checks, evidence, ticket);
    TakenClashes(ledger, row);
  }

  lemma EntryIsSound(env: Env, seal: Seal, ledger: Ledger, candidate: string, champion: Option<string>,
    decision: string, checks: string, evidence: string, ticket: Ticket)
    ensures RowOfDecision(env, seal, ledger, candidate, champion, decision, checks, evidence, ticket,
      Entry(env, seal, ledger, candidate, champion, decision, checks, evidence, ticket))
  {
    var row := Entry(env, seal, ledger, candidate, champion, decision, checks, evidence, ticket);
    LedgerLaws.PromotionVerdictsAreLawful(seal.sha, seal.attest, env.keyId, ledger + [row]);
    assert (ledger + [row])[..|ledger|] == ledger;
    assert C.RowValid(Spec(env, seal), ledger + [row], |ledger|);
  }

  lemma TakenClashes(ledger: Ledger, row: L.PromotionRow)
    ensures Clashes(ledger, row) <==> Taken(ledger, row)
  {
    if Taken(ledger, row) {
      var kept :| kept in ledger && (kept.decisionId == row.decisionId || kept.recordHash == row.recordHash);
      var i: nat :| i < |ledger| && ledger[i] == kept;
    }
  }

  // ---- the bootstrap ----

  /** What the bootstrap registers in its slot `k`, with the ids of the earlier slots as parents. */
  ghost predicate SlotAsks(k: nat, c: Content, ids: seq<string>, req: Request) {
    && req.name == c.name && req.version == c.version && req.descriptor == Some(c.descriptor) && |ids| == 10
    && match k
       case 0 => req.artifactType == "dataset" && req.lineage == [] && req.status == "RESEARCH"
       case 1 => req.artifactType == "model" && req.lineage == [ids[0]] && req.status == "CHAMPION"
       case 2 => req.artifactType == "model" && req.lineage == [ids[0]] && req.status == "SHADOW"
       case 3 => req.artifactType == "dataset" && req.lineage == [] && req.status == "RESEARCH"
       case 4 => req.artifactType == "model" && req.lineage == [ids[3]] && req.status == "SHADOW"
       case 5 => req.artifactType == "dataset" && req.lineage == [] && req.status == "RESEARCH"
       case 6 => req.artifactType == "model" && req.lineage == [ids[5], ids[3]] && req.status == "SHADOW"
       case 7 => req.artifactType == "policy" && req.lineage == [] && req.status == "RESEARCH"
       case 8 => req.artifactType == "dataset" && req.lineage == [] && req.status == "RESEARCH"
       case 9 => req.artifactType == "model" && req.lineage == [ids[8], ids[7]] && req.status == "SHADOW"
       case _ => false
  }

  /** Slot `k` was registered between `before` and `after`, under the `k`-th id. */
  ghost predicate SlotDone(env: Env, before: Table, after: Table, k: nat, c: Content, ids: seq<string>)
    requires |ids| == 10 && k < 10
  {
    exists req: Request, a: Artifact ::
      SlotAsks(k, c, ids, req) && R.RegisteredAs(env, before, before, after, req, c.now, Ok(a)) && a.id == ids[k]
  }

  lemma SlotRequestAsks(k: nat, c: Content, ids: seq<string>)
    requires k < 10 == |ids|
    ensures SlotAsks(k, c, ids, SlotRequest(k, c, ids[..k]))
  {
    var lineage := SlotRequest(k, c, ids[..k]).lineage;
    assert |lineage| == |SLOTS[k].parents| && forall i | 0 <= i < |lineage| :: lineage[i] == ids[SLOTS[k].parents[i]];
  }

  /** All ten slots were done, one after the other, between the first and the last table. */
  ghost predicate SlotsDone(env: Env, tables: seq<Table>, contents: seq<Content>, ids: seq<string>) {
    && |contents| == |ids| == 10 && |tables| == 11
    && forall i | 0 <= i < 10 :: SlotDone(env, tables[i], tables[i + 1], i, contents[i], ids)
  }

  /** The table after each number of slots. */
  function TablesOf(env: Env, table: Table, contents: seq<Content>): (tables: seq<Table>)
    requires |contents| == |SLOTS|
    ensures |tables| == 11 && forall i | 0 <= i < 11 :: tables[i] == RegisterSlots(env, table, contents, i).0
  {
    seq(11, i requires 0 <= i < 11 => RegisterSlots(env, table, contents, i).0)
  }

  lemma {:induction false} IdsSoFar(
    env: Env, table: Table, contents: seq<Content>, ids: seq<string>, j: nat, k: nat)
    requires j <= k <= |contents| == |SLOTS| == |ids|
    requires RegisterSlots(env, table, contents, k).1 == Ok(ids[..k])
    ensures RegisterSlots(env, table, contents, j).1 == Ok(ids[..j])
    decreases k - j
  {
    if j < k {
      IdsSoFar(env, table, contents, ids, j + 1, k);
      IdBefore(env, table, contents, ids, j);
    }
  }

  lemma SlotsAreLawful(env: Env, table: Table, contents: seq<Content>, ids: seq<string>)
    requires RegistryOk(env, table) && |contents| == |SLOTS| == |ids|
    requires RegisterSlots(env, table, contents, 10).1 == Ok(ids[..10])
    ensures SlotsDone(env, TablesOf(env, table, contents), contents, ids)
  {
    var tables := TablesOf(env, table, contents);
    forall i | 0 <= i < 10 ensures SlotDone(env, tables[i], tables[i + 1], i, contents[i], ids) {
      IdsSoFar(env, table, contents, ids, i + 1, 10);
      OneSlotBefore(env, table, contents, ids, i);
    }
  }

  lemma OneSlotBefore(env: Env, table: Table, contents: seq<Content>, ids: seq<string>, k: nat)
    requires RegistryOk(env, table) && k < |contents| == |SLOTS| == |ids|
    requires RegisterSlots(env, table, contents, k + 1).1 == Ok(ids[..k + 1])
    ensures RegisterSlots(env, table, contents, k).1 == Ok(ids[..k])
    ensures SlotDone(env, RegisterSlots(env, table, contents, k).0, RegisterSlots(env, table, contents, k + 1).0, k,
      contents[k], ids)
  {
    SlotsKeep(env, table, contents, k);
    IdBefore(env, table, contents, ids, k);
    NextSlotDone(env, RegisterSlots(env, table, contents, k).0, contents[k], ids, k);
  }

  lemma IdBefore(env: Env, table: Table, contents: seq<Content>, ids: seq<string>, k: nat)
    requires k < |contents| == |SLOTS| == |ids|
    requires RegisterSlots(env, table, contents, k + 1).1 == Ok(ids[..k + 1])
    ensures RegisterSlots(env, table, contents, k).1 == Ok(ids[..k])
    ensures var mid := RegisterSlots(env, table, contents, k).0;
      var (after, r) := Register(env, mid, mid, SlotRequest(k, contents[k], ids[..k]), contents[k].now);
      r.Ok? && r.value.id == ids[k] && after == RegisterSlots(env, table, contents, k + 1).0
  {
    SlotsStep(env, table, contents, k);
    var (mid, before) := RegisterSlots(env, table, contents, k);
    var r := Register(env, mid, mid, SlotRequest(k, contents[k], before.value), contents[k].now).1;
    SamePrefix(before.value, r.value.id, ids, k);
  }

  lemma SamePrefix(before: seq<string>, x: string, ids: seq<string>, k: nat)
    requires k < |ids| && before + [x] == ids[..k + 1]
    ensures before == ids[..k] && x == ids[k]
  {
    assert before == (before + [x])[..k] && x == (before + [x])[k];
  }

  lemma NextSlotDone(env: Env, mid: Table, c: Content, ids: seq<string>, k: nat)
    requires RegistryOk(env, mid) && k < 10 == |ids|
    requires var r := Register(env, mid, mid, SlotRequest(k, c, ids[..k]), c.now).1; r.Ok? && r.value.id == ids[k]
    ensures SlotDone(env, mid, Register(env, mid, mid, SlotRequest(k, c, ids[..k]), c.now).0, k, c, ids)
  {
    SlotRequestAsks(k, c, ids);
    R.RegistrationIsLawful(env, mid, mid, SlotRequest(k, c, ids[..k]), c.now);
  }

  /** A bootstrap that succeeds without cached identities registers the ten artifacts in order, finds the candidate in
      the third slot and the champion in the second, and makes the first decision about those two if there is none. */
  lemma BootstrapIsLawful(env: Env, seal: Seal, s: Store, contents: seq<Content>, ticket: Ticket)
    requires RegistryOk(env, s.artifacts) && s.identities.None? && |contents| == |SLOTS|
    requires Ensure(env, seal, s, contents, ticket).1.Ok?
    ensures var (after, found) := Ensure(env, seal, s, contents, ticket);
      && after.identities == Some(found.value)
      && (exists ids: seq<string>, tables: seq<Table> ::
            && SlotsDone(env, tables, contents, ids) && tables[0] == s.artifacts && tables[10] == after.artifacts
            && found.value == Identities(ids[2], ids[1]))
      && (s.ledger != [] ==> after.ledger == s.ledger)
      && (s.ledger == [] ==> DecidedFirst(found.value, ticket, after.ledger))
  {
    var (table, r) := RegisterSlots(env, s.artifacts, contents, |SLOTS|);
    var ids := r.value;
    assert ids[..10] == ids;
    SlotsAreLawful(env, s.artifacts, contents, ids);
    assert TablesOf(env, s.artifacts, contents)[0] == s.artifacts;
    FirstDecision(env, seal, s.(artifacts := table), Identities(ids[CANDIDATE], ids[CHAMPION]), ticket);
  }

  ghost predicate DecidedFirst(found: Identities, ticket: Ticket, ledger: Ledger) {
    |ledger| == 1 && About(found.candidate, Some(found.champion), ticket, ledger[0])
  }

  ghost predicate About(candidate: string, champion: Option<string>, ticket: Ticket, row: L.PromotionRow) {
    && row.candidate == candidate && row.champion == champion
    && row.decisionId == ticket.id && row.createdAt == ticket.now
  }

  lemma EvaluationIsAbout(env: Env, seal: Seal, table: Table, ledger: Ledger, candidate: string,
    champion: Option<string>, release: Release, actor: string, ignored: set<string>, ticket: Ticket)
    ensures var (after, r) := Evaluate(env, seal, table, ledger, candidate, champion, release, actor, ignored, ticket);
      && (r.Err? ==> after == ledger)
      && (r.Ok? ==> after == ledger + [r.value] && About(candidate, champion, ticket, r.value))
      && (r.Ok? ==> R.Holds(table, candidate))
  {
    R.FindHolds(table, candidate);
  }

  lemma FirstDecision(env: Env, seal: Seal, s: Store, found: Identities, ticket: Ticket)
    ensures var (after, r) := Decide(env, seal, s, found, ticket);
      && (r.Ok? ==> r.value == found && after.artifacts == s.artifacts)
      && (r.Ok? && s.ledger != [] ==> after.ledger == s.ledger)
      && (r.Ok? && s.ledger == [] ==> DecidedFirst(found, ticket, after.ledger))
  {
    EvaluationIsAbout(env, seal, s.artifacts, s.ledger, found.candidate, Some(found.champion), NO_EVIDENCE,
      "SYSTEM_BOOTSTRAP", {}, ticket);
  }

  /** The values that Python takes for false. */
  ghost predicate Blank(v: Value) {
    || v.Null? || v == Flag(false) || v == Whole(0) || v == Fraction(0.0) || v == Text("")
    || (v.Nested? && v.size == 0)
  }

  /** The artifact that a request is about. */
  ghost function Asked(env: Env, payload: map<string, Value>, otherwise: string): string {
    if "candidate_artifact_id" in payload && !Blank(payload["candidate_artifact_id"])
    then env.str(payload["candidate_artifact_id"]) else otherwise
  }

  /** The artifact asked for was evaluated, against the champion, and only if it is a stored model. */
  ghost predicate AnsweredAs(ready: Store, candidate: string, champion: string, ticket: Ticket, after: Store,
    r: Result<L.PromotionRow>)
  {
    && after.artifacts == ready.artifacts
    && (r.Err? ==> after.ledger == ready.ledger)
    && (r.Ok? ==> after.ledger == ready.ledger + [r.value] && About(candidate, Some(champion), ticket, r.value))
    && (r.Ok? ==> exists a :: a in ready.artifacts && a.id == candidate && a.artifactType == "model")
    && (!R.Holds(ready.artifacts, candidate) ==> r == Err(NotAModel))
  }

  lemma AnswerIsAbout(
    env: Env, seal: Seal, ready: Store, ids: Identities, payload: map<string, Value>, ticket: Ticket)
    ensures var (after, r) := Answer(env, seal, ready, ids, payload, ticket);
      AnsweredAs(ready, Asked(env, payload, ids.candidate), ids.champion, ticket, after, r)
  {
    var candidate := Asked(env, payload, ids.candidate);
    R.FindHolds(ready.artifacts, candidate);
    var found := Find(ready.artifacts, candidate);
    if found.Some? && found.value.artifactType == "model" {
      EvaluationIsAbout(env, seal, ready.artifacts, ready.ledger, candidate, Some(ids.champion), NO_EVIDENCE,
        "LOOPBACK_API", payload.Keys - {CANDIDATE_FIELD}, ticket);
    }
  }

  /** An evaluation through the service is about the artifact that the request names, or the bootstrap's candidate;
      its champion is the bootstrap's; and only a model is evaluated. */
  lemma ServiceReadsTheCandidate(env: Env, seal: Seal, s: Store, payload: map<string, Value>, contents: seq<Content>,
    boot: Ticket, ticket: Ticket)
    requires |contents| == |SLOTS| && Ensure(env, seal, s, contents, boot).1.Ok?
    ensures var (ready, ids) := Ensure(env, seal, s, contents, boot);
      var (after, r) := Serve(env, seal, s, payload, contents, boot, ticket);
      AnsweredAs(ready, Asked(env, payload, ids.value.candidate), ids.value.champion, ticket, after, r)
  {
    var (ready, ids) := Ensure(env, seal, s, contents, boot);
    AnswerIsAbout(env, seal, ready, ids.value, payload, ticket);
  }
}
