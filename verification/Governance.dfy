/** Promotion decisions over the artifact registry, and the service entry points that can reach them. */
module Governance {
  import opened Numbers
  import opened Registry
  import opened RegistrationLaws
  import C = Chain
  import L = Ledgers

  type Ledger = seq<L.PromotionRow>

  datatype Check = Check(rule: string, passed: bool)

  /** The hashes of the promotion ledger and the rendering of its two JSON fields. */
  datatype Seal = Seal(
    sha: L.Payload -> C.Digest, attest: C.Digest -> C.Digest,
    renderChecks: seq<Check> -> string, renderEvidence: (string, set<string>) -> string)

  const REJECT := "REJECT_CANDIDATE"
  const HOLD := "HOLD_SHADOW"
  const ELIGIBLE := "ELIGIBLE_FOR_SIGNED_RELEASE"
  const DECISIONS: set<string> := {HOLD, REJECT, ELIGIBLE, "ROLLBACK_REQUIRED"}
  const SHADOW_VOLUME: int := 10000

  function Spec(env: Env, seal: Seal): C.Spec<L.PromotionRow> { L.PromotionSpec(seal.sha, seal.attest, env.keyId) }

  /** Python's `strip` and `upper` leave the fixed names of this module as they are. */
  ghost predicate PlainNames(env: Env) {
    && (forall d | d in DECISIONS :: env.strip(d) == d && env.upper(d) == d)
    && env.strip("LOOPBACK_API") == "LOOPBACK_API" && env.strip("SYSTEM_BOOTSTRAP") == "SYSTEM_BOOTSTRAP"
  }

  // ---- the decision ----

  predicate IsTrue(d: Descriptor, key: string) { key in d && d[key] == Flag(true) }

  /** `int(d.get(key, -1))`: booleans and integers as they are, fractions cut toward zero, text parsed; None raises. */
  function CountOf(env: Env, d: Descriptor, key: string): Option<int> {
    if key !in d then Some(-1)
    else match d[key]
      case Flag(b) => Some(if b then 1 else 0)
      case Whole(n) => Some(n)
      case Fraction(x) => Some(if x >= 0.0 then x.Floor else -(-x).Floor)
      case Text(s) => env.parseInt(s)
      case _ => None
  }

  datatype Release = Release(enterprise: bool, shadow: int, signoff: bool, rollback: Option<string>)

  predicate AllVerified(env: Env, table: Table, ids: seq<string>) {
    forall i | 0 <= i < |ids| :: VerifiedId(env, table, ids[i])
  }

  function QualityChecks(env: Env, table: Table, a: Artifact, violations: int, targets: int): seq<Check> {
    [ Check("model_artifact", a.artifactType == "model"),
      Check("artifact_attestation", Verified(env, a)),
      Check("lineage_verified", a.lineage != [] && AllVerified(env, table, a.lineage)),
      Check("grouped_validation", IsTrue(a.descriptor, "grouped_validation")),
      Check("quality_gate", IsTrue(a.descriptor, "quality_gate_passed")),
      Check("safety_regression", violations == 0),
      Check("external_targets", targets == 0) ]
  }

  function ReleaseChecks(table: Table, release: Release): seq<Check> {
    [ Check("enterprise_validation", release.enterprise),
      Check("shadow_volume", release.shadow >= SHADOW_VOLUME),
      Check("human_release_signoff", release.signoff),
      Check("rollback_artifact",
        release.rollback.Some? && release.rollback.value != "" && Find(table, release.rollback.value).Some?) ]
  }

  predicate AllPassed(checks: seq<Check>) { forall i | 0 <= i < |checks| :: checks[i].passed }

  datatype Verdict = Verdict(decision: string, checks: seq<Check>)

  function Judge(env: Env, table: Table, candidate: string, champion: Option<string>, release: Release)
    : Result<Verdict>
  {
    var found := Find(table, candidate);
    if found.None? then Err(CandidateMissing)
    else if champion.Some? && champion.value != "" && Find(table, champion.value).None? then Err(ChampionMissing)
    else
      var violations := CountOf(env, found.value.descriptor, "safety_violations");
      var targets := CountOf(env, found.value.descriptor, "external_targets");
      if violations.None? || targets.None? then Err(NotAnInteger)
      else
        var quality := QualityChecks(env, table, found.value, violations.value, targets.value);
        var ready := ReleaseChecks(table, release);
        var decision := if !AllPassed(quality) then REJECT else if AllPassed(ready) then ELIGIBLE else HOLD;
        Ok(Verdict(decision, quality + ready))
  }

  /** What the quality gates ask of a candidate of an honest registry: its own attestation and its parents' always
      hold, so only the kind, the presence of a parent and the descriptor remain. */
  ghost predicate Qualified(env: Env, a: Artifact) {
    && a.artifactType == "model" && a.lineage != []
    && IsTrue(a.descriptor, "grouped_validation") && IsTrue(a.descriptor, "quality_gate_passed")
    && CountOf(env, a.descriptor, "safety_violations") == Some(0)
    && CountOf(env, a.descriptor, "external_targets") == Some(0)
  }

  ghost predicate Ready(table: Table, release: Release) {
    && release.enterprise && release.shadow >= SHADOW_VOLUME && release.signoff
    && release.rollback.Some? && release.rollback.value != "" && Find(table, release.rollback.value).Some?
  }

  lemma ParentsVerify(env: Env, table: Table, a: Artifact)
    requires RegistryOk(env, table) && a in table
    ensures forall i | 0 <= i < |a.lineage| :: VerifiedId(env, table, a.lineage[i])
  {
    var k :| 0 <= k < |table| && table[k] == a;
    assert RowOk(env, table, k);
    RegisteredLater(table[..k], table, a.lineage);
    forall i | 0 <= i < |a.lineage| ensures VerifiedId(env, table, a.lineage[i]) {
      FoundVerifies(env, table, a.lineage[i]);
    }
  }

  /** In an honest registry the decision is exactly: eligible when the candidate qualifies and all four release
      conditions hold, held when it qualifies and one is missing, rejected when it does not qualify. */
  lemma DecisionExact(env: Env, table: Table, candidate: string, champion: Option<string>, release: Release)
    requires RegistryOk(env, table) && Judge(env, table, candidate, champion, release).Ok?
    ensures var d := Judge(env, table, candidate, champion, release).value.decision;
      var a := Find(table, candidate).value;
      && (d == ELIGIBLE <==> Qualified(env, a) && Ready(table, release))
      && (d == HOLD <==> Qualified(env, a) && !Ready(table, release))
      && (d == REJECT <==> !Qualified(env, a))
  {
    var a := Find(table, candidate).value;
    FoundVerifies(env, table, candidate);
    ParentsVerify(env, table, a);
    var violations := CountOf(env, a.descriptor, "safety_violations").value;
    var targets := CountOf(env, a.descriptor, "external_targets").value;
    QualityMeans(env, table, a, violations, targets);
    ReadyMeans(table, release);
  }

  lemma QualityMeans(env: Env, table: Table, a: Artifact, violations: int, targets: int)
    requires Verified(env, a) && forall i | 0 <= i < |a.lineage| :: VerifiedId(env, table, a.lineage[i])
    requires CountOf(env, a.descriptor, "safety_violations") == Some(violations)
    requires CountOf(env, a.descriptor, "external_targets") == Some(targets)
    ensures AllPassed(QualityChecks(env, table, a, violations, targets)) <==> Qualified(env, a)
  {
    var q := QualityChecks(env, table, a, violations, targets);
    assert AllPassed(q) <==>
      q[0].passed && q[1].passed && q[2].passed && q[3].passed && q[4].passed && q[5].passed && q[6].passed;
  }

  lemma ReadyMeans(table: Table, release: Release)
    ensures AllPassed(ReleaseChecks(table, release)) <==> Ready(table, release)
  {
    var q := ReleaseChecks(table, release);
    assert AllPassed(q) <==> q[0].passed && q[1].passed && q[2].passed && q[3].passed;
  }

  // ---- the ledger ----

  /** The random id and the time of one decision. */
  datatype Ticket = Ticket(id: string, now: string)

  function Entry(env: Env, seal: Seal, ledger: Ledger, candidate: string, champion: Option<string>, decision: string,
    checks: string, evidence: string, ticket: Ticket): L.PromotionRow
  {
    var previous := C.Head(Spec(env, seal), ledger);
    var payload := L.Payload(ticket.id, ticket.now, candidate, champion, decision, checks, evidence, previous);
    var hash := seal.sha(payload);
    L.PromotionRow(ticket.id, ticket.now, candidate, champion, decision, previous, hash, env.keyId, seal.attest(hash),
      Some(payload))
  }

  predicate Clashes(ledger: Ledger, row: L.PromotionRow) {
    exists i | 0 <= i < |ledger| :: ledger[i].decisionId == row.decisionId || ledger[i].recordHash == row.recordHash
  }

  /** `append_decision`: one transaction; a clash on either UNIQUE column rolls it back. */
  function Append(env: Env, seal: Seal, table: Table, ledger: Ledger, candidate: string, champion: Option<string>,
    decision: string, checks: string, evidence: string, ticket: Ticket): (Ledger, Result<L.PromotionRow>)
  {
    var text := BoundedText(env, decision, 48);
    if text.Err? then (ledger, Err(text.error))
    else if env.upper(text.value) !in DECISIONS then (ledger, Err(UnsupportedDecision))
    else if Find(table, candidate).None? then (ledger, Err(CandidateMissing))
    else
      var row := Entry(env, seal, ledger, candidate, champion, env.upper(text.value), checks, evidence, ticket);
      if Clashes(ledger, row) then (ledger, Err(Conflict)) else (ledger + [row], Ok(row))
  }

  /** `evaluate_candidate`: every verdict is recorded, and only a verdict is. */
  function Evaluate(env: Env, seal: Seal, table: Table, ledger: Ledger, candidate: string, champion: Option<string>,
    release: Release, actor: string, ignored: set<string>, ticket: Ticket): (Ledger, Result<L.PromotionRow>)
  {
    var verdict := Judge(env, table, candidate, champion, release);
    if verdict.Err? then (ledger, Err(verdict.error))
    else
      var name := BoundedText(env, actor, 64);
      if name.Err? then (ledger, Err(name.error))
      else Append(env, seal, table, ledger, candidate, champion, verdict.value.decision,
        seal.renderChecks(verdict.value.checks), seal.renderEvidence(name.value, ignored), ticket)
  }

  ghost predicate NoRelease(ledger: Ledger) { forall i | 0 <= i < |ledger| :: ledger[i].decision != ELIGIBLE }

  /** One evaluation keeps the ledger a verified chain and adds at most one row, the decision of the verdict. */
  lemma EvaluateKeeps(env: Env, seal: Seal, table: Table, ledger: Ledger, candidate: string, champion: Option<string>,
    release: Release, actor: string, ignored: set<string>, ticket: Ticket)
    requires PlainNames(env) && C.ChainValid(Spec(env, seal), ledger)
    ensures var (after, r) := Evaluate(env, seal, table, ledger, candidate, champion, release, actor, ignored, ticket);
      && C.ChainValid(Spec(env, seal), after)
      && (r.Err? ==> after == ledger)
      && (r.Ok? ==> after == ledger + [r.value] && Judge(env, table, candidate, champion, release).Ok?)
      && (r.Ok? ==> r.value.decision == Judge(env, table, candidate, champion, release).value.decision)
  {
    var verdict, name := Judge(env, table, candidate, champion, release), BoundedText(env, actor, 64);
    if verdict.Ok? && name.Ok? {
      AppendKeeps(env, seal, table, ledger, candidate, champion, verdict.value.decision,
        seal.renderChecks(verdict.value.checks), seal.renderEvidence(name.value, ignored), ticket);
    }
  }

  lemma AppendKeeps(env: Env, seal: Seal, table: Table, ledger: Ledger, candidate: string, champion: Option<string>,
    decision: string, checks: string, evidence: string, ticket: Ticket)
    requires PlainNames(env) && C.ChainValid(Spec(env, seal), ledger) && decision in DECISIONS
    ensures var (after, r) := Append(env, seal, table, ledger, candidate, champion, decision, checks, evidence, ticket);
      && C.ChainValid(Spec(env, seal), after)
      && (r.Err? ==> after == ledger)
      && (r.Ok? ==> after == ledger + [r.value] && r.value.decision == decision)
  {
    var (after, r) := Append(env, seal, table, ledger, candidate, champion, decision, checks, evidence, ticket);
    if r.Ok? { C.AppendExact(Spec(env, seal), ledger, r.value); }
  }

  // ---- the service ----

  datatype Identities = Identities(candidate: string, champion: string)

  datatype Store = Store(artifacts: Table, ledger: Ledger, identities: Option<Identities>)

  datatype Slot = Slot(artifactType: string, parents: seq<nat>, status: string)

  /** The ten registrations of `_ensure_governance_registry`, in order; parents are earlier slots. */
  const SLOTS: seq<Slot> := [
    Slot("dataset", [], "RESEARCH"), Slot("model", [0], "CHAMPION"), Slot("model", [0], "SHADOW"),
    Slot("dataset", [], "RESEARCH"), Slot("model", [3], "SHADOW"),
    Slot("dataset", [], "RESEARCH"), Slot("model", [5, 3], "SHADOW"),
    Slot("policy", [], "RESEARCH"), Slot("dataset", [], "RESEARCH"), Slot("model", [8, 7], "SHADOW")]

  const CHAMPION: nat := 1
  const CANDIDATE: nat := 2

  /** What the experiments put into a slot, and the time it is registered. */
  datatype Content = Content(name: string, version: string, descriptor: Descriptor, now: string)

  function SlotRequest(k: nat, c: Content, ids: seq<string>): Request
    requires k < |SLOTS| && |ids| == k
  {
    var slot := SLOTS[k];
    var lineage := seq(|slot.parents|, i requires 0 <= i < |slot.parents| =>
      if slot.parents[i] < k then ids[slot.parents[i]] else "");
    Request(slot.artifactType, c.name, c.version, Some(c.descriptor), lineage, slot.status)
  }

  /** The first `k` slots registered in order, up to the first failure. */
  function RegisterSlots(env: Env, table: Table, contents: seq<Content>, k: nat): (r: (Table, Result<seq<string>>))
    requires k <= |contents| == |SLOTS|
    ensures r.1.Ok? ==> |r.1.value| == k
  {
    if k == 0 then (table, Ok([]))
    else
      var (mid, ids) := RegisterSlots(env, table, contents, k - 1);
      if ids.Err? then (mid, ids)
      else
        var (after, a) := Register(env, mid, mid, SlotRequest(k - 1, contents[k - 1], ids.value), contents[k - 1].now);
        (after, if a.Err? then Err(a.error) else Ok(ids.value + [a.value.id]))
  }

  const NO_EVIDENCE := Release(false, 0, false, None)

  /** The end of the bootstrap: an empty ledger gets its first decision, and the identities are cached. */
  function Decide(env: Env, seal: Seal, s: Store, found: Identities, ticket: Ticket): (r: (Store, Result<Identities>))
    ensures r.1.Ok? ==> r.0.identities == Some(r.1.value)
  {
    if s.ledger != [] then (s.(identities := Some(found)), Ok(found))
    else
      var (ledger, r) := Evaluate(env, seal, s.artifacts, s.ledger, found.candidate, Some(found.champion), NO_EVIDENCE,
        "SYSTEM_BOOTSTRAP", {}, ticket);
      if r.Err? then (s, Err(r.error)) else (s.(ledger := ledger, identities := Some(found)), Ok(found))
  }

  /** `_ensure_governance_registry`. */
  function Ensure(env: Env, seal: Seal, s: Store, contents: seq<Content>, ticket: Ticket)
    : (r: (Store, Result<Identities>))
    requires |contents| == |SLOTS|
    ensures r.1.Ok? ==> r.0.identities == Some(r.1.value)
  {
    if s.identities.Some? then (s, Ok(s.identities.value))
    else
      var (table, ids) := RegisterSlots(env, s.artifacts, contents, |SLOTS|);
      if ids.Err? then (s.(artifacts := table), Err(ids.error))
      else Decide(env, seal, s.(artifacts := table), Identities(ids.value[CANDIDATE], ids.value[CHAMPION]), ticket)
  }

  predicate Truthy(v: Value) {
    match v
    case Null => false
    case Flag(b) => b
    case Whole(n) => n != 0
    case Fraction(x) => x != 0.0
    case Text(s) => s != ""
    case Nested(_, size) => size != 0
  }

  const CANDIDATE_FIELD := "candidate_artifact_id"

  /** The evaluation of the candidate that a request names, or of the bootstrap's. */
  function Answer(env: Env, seal: Seal, ready: Store, ids: Identities, payload: map<string, Value>, ticket: Ticket)
    : (Store, Result<L.PromotionRow>)
  {
    var candidate := if CANDIDATE_FIELD in payload && Truthy(payload[CANDIDATE_FIELD])
      then env.str(payload[CANDIDATE_FIELD]) else ids.candidate;
    var found := Find(ready.artifacts, candidate);
    if found.None? || found.value.artifactType != "model" then (ready, Err(NotAModel))
    else
      var (ledger, r) := Evaluate(env, seal, ready.artifacts, ready.ledger, candidate, Some(ids.champion),
        NO_EVIDENCE, "LOOPBACK_API", payload.Keys - {CANDIDATE_FIELD}, ticket);
      (ready.(ledger := ledger), r)
  }

  /** `evaluate_governance_candidate`: of all the fields a caller sends only the candidate id is read. */
  function Serve(env: Env, seal: Seal, s: Store, payload: map<string, Value>, contents: seq<Content>, boot: Ticket,
    ticket: Ticket): (Store, Result<L.PromotionRow>)
    requires |contents| == |SLOTS|
  {
    var (ready, ids) := Ensure(env, seal, s, contents, boot);
    if ids.Err? then (ready, Err(ids.error)) else Answer(env, seal, ready, ids.value, payload, ticket)
  }

  // ---- runs of the service ----

  datatype Event =
    | Startup(contents: seq<Content>, ticket: Ticket)  // a new process: no cached identities, then the bootstrap
    | Api(payload: map<string, Value>, contents: seq<Content>, boot: Ticket, ticket: Ticket)
    | Registration(seen: nat, req: Request, now: string)

  predicate WellFormed(e: Event) { e.Registration? || |e.contents| == |SLOTS| }

  function Step(env: Env, seal: Seal, s: Store, e: Event): Store
    requires WellFormed(e)
  {
    match e
    case Startup(contents, ticket) => Ensure(env, seal, s.(identities := None), contents, ticket).0
    case Api(payload, contents, boot, ticket) => Serve(env, seal, s, payload, contents, boot, ticket).0
    case Registration(seen, req, now) =>
      var view := if seen <= |s.artifacts| then s.artifacts[..seen] else s.artifacts;
      s.(artifacts := Register(env, view, s.artifacts, req, now).0)
  }

  /** Both tables verify, nothing is released, and cached identities come with at least one decision. */
  ghost predicate StoreOk(env: Env, seal: Seal, s: Store) {
    && RegistryOk(env, s.artifacts) && C.ChainValid(Spec(env, seal), s.ledger) && NoRelease(s.ledger)
    && (s.identities.Some? ==> s.ledger != [])
  }

  ghost predicate Extends(s: Store, n: Store) { s.artifacts <= n.artifacts && s.ledger <= n.ledger }

  lemma {:induction false} SlotsKeep(env: Env, table: Table, contents: seq<Content>, k: nat)
    requires k <= |contents| == |SLOTS| && RegistryOk(env, table)
    ensures RegistryOk(env, RegisterSlots(env, table, contents, k).0)
    ensures table <= RegisterSlots(env, table, contents, k).0
  {
    if k > 0 {
      SlotsKeep(env, table, contents, k - 1);
      var (mid, ids) := RegisterSlots(env, table, contents, k - 1);
      if ids.Ok? {
        RegisterKeeps(env, mid, mid, SlotRequest(k - 1, contents[k - 1], ids.value), contents[k - 1].now);
      }
    }
  }

  /** Without release evidence no evaluation can record an eligible decision. */
  lemma EvaluateWithoutEvidence(env: Env, seal: Seal, s: Store, candidate: string, champion: Option<string>,
    actor: string, ignored: set<string>, ticket: Ticket)
    requires PlainNames(env) && StoreOk(env, seal, s)
    ensures var ledger :=
      Evaluate(env, seal, s.artifacts, s.ledger, candidate, champion, NO_EVIDENCE, actor, ignored, ticket).0;
      StoreOk(env, seal, s.(ledger := ledger)) && s.ledger <= ledger
  {
    EvaluateKeeps(env, seal, s.artifacts, s.ledger, candidate, champion, NO_EVIDENCE, actor, ignored, ticket);
    if Judge(env, s.artifacts, candidate, champion, NO_EVIDENCE).Ok? {
      DecisionExact(env, s.artifacts, candidate, champion, NO_EVIDENCE);
    }
  }

  lemma EnsureKeeps(env: Env, seal: Seal, s: Store, contents: seq<Content>, ticket: Ticket)
    requires PlainNames(env) && StoreOk(env, seal, s) && |contents| == |SLOTS|
    ensures StoreOk(env, seal, Ensure(env, seal, s, contents, ticket).0)
    ensures Extends(s, Ensure(env, seal, s, contents, ticket).0)
  {
    if s.identities.None? {
      SlotsKeep(env, s.artifacts, contents, |SLOTS|);
      var (table, ids) := RegisterSlots(env, s.artifacts, contents, |SLOTS|);
      if ids.Ok? {
        DecideKeeps(env, seal, s.(artifacts := table), Identities(ids.value[CANDIDATE], ids.value[CHAMPION]), ticket);
      }
    }
  }

  lemma DecideKeeps(env: Env, seal: Seal, s: Store, found: Identities, ticket: Ticket)
    requires PlainNames(env) && StoreOk(env, seal, s)
    ensures StoreOk(env, seal, Decide(env, seal, s, found, ticket).0)
    ensures Extends(s, Decide(env, seal, s, found, ticket).0)
  {
    if s.ledger == [] {
      EvaluateWithoutEvidence(env, seal, s, found.candidate, Some(found.champion), "SYSTEM_BOOTSTRAP", {}, ticket);
      if Decide(env, seal, s, found, ticket).1.Ok? { DecideRecords(env, seal, s, found, ticket); }
    }
  }

  lemma StepKeeps(env: Env, seal: Seal, s: Store, e: Event)
    requires PlainNames(env) && StoreOk(env, seal, s) && WellFormed(e)
    ensures StoreOk(env, seal, Step(env, seal, s, e)) && Extends(s, Step(env, seal, s, e))
  {
    match e
    case Startup(contents, ticket) => EnsureKeeps(env, seal, s.(identities := None), contents, ticket);
    case Api(payload, contents, boot, ticket) =>
      EnsureKeeps(env, seal, s, contents, boot);
      var (ready, ids) := Ensure(env, seal, s, contents, boot);
      if ids.Ok? {
        var candidate := if CANDIDATE_FIELD in payload && Truthy(payload[CANDIDATE_FIELD])
          then env.str(payload[CANDIDATE_FIELD]) else ids.value.candidate;
        EvaluateWithoutEvidence(env, seal, ready, candidate, Some(ids.value.champion), "LOOPBACK_API",
          payload.Keys - {CANDIDATE_FIELD}, ticket);
      }
    case Registration(seen, req, now) =>
      RegisterKeeps(env, if seen <= |s.artifacts| then s.artifacts[..seen] else s.artifacts, s.artifacts, req, now);
  }

  const EMPTY := Store([], [], None)

  function Run(env: Env, seal: Seal, events: seq<Event>): Store
    requires forall i | 0 <= i < |events| :: WellFormed(events[i])
  {
    if events == [] then EMPTY else Step(env, seal, Run(env, seal, events[..|events| - 1]), events[|events| - 1])
  }

  /** Whatever callers send and however often the service restarts: the registry and the ledger verify, both only
      grow, and no recorded decision makes a candidate eligible for release. */
  lemma {:induction false} NoRunReleases(env: Env, seal: Seal, events: seq<Event>, k: nat)
    requires PlainNames(env) && k <= |events| && forall i | 0 <= i < |events| :: WellFormed(events[i])
    ensures StoreOk(env, seal, Run(env, seal, events))
    ensures Extends(Run(env, seal, events[..k]), Run(env, seal, events))
  {
    if events == [] {
    } else {
      var init, e := events[..|events| - 1], events[|events| - 1];
      NoRunReleases(env, seal, init, if k < |events| then k else |init|);
      StepKeeps(env, seal, Run(env, seal, init), e);
      if k < |events| { assert init[..k] == events[..k]; } else { assert events[..k] == events; }
    }
  }

  // ---- restarting ----

  /** The same experiments at another time. */
  ghost predicate SameContents(a: seq<Content>, b: seq<Content>) {
    |a| == |b| == |SLOTS| && forall i | 0 <= i < |a| :: a[i].(now := b[i].now) == b[i]
  }

  /** The first `k` slots of `b` find in `later` what those of `a` left, and add nothing. */
  ghost predicate FoundAgain(env: Env, table: Table, a: seq<Content>, later: Table, b: seq<Content>, k: nat)
    requires k <= |a| == |b| == |SLOTS|
  {
    RegisterSlots(env, later, b, k) == (later, RegisterSlots(env, table, a, k).1)
  }

  ghost predicate Within(env: Env, table: Table, a: seq<Content>, later: Table, k: nat)
    requires k <= |a| == |SLOTS|
  {
    RegisterSlots(env, table, a, k).1.Ok? && RegisterSlots(env, table, a, k).0 <= later
  }

  lemma {:induction false} SlotsAgain(env: Env, table: Table, a: seq<Content>, later: Table, b: seq<Content>, k: nat)
    requires SameContents(a, b) && k <= |SLOTS| && RegistryOk(env, table) && RegistryOk(env, later)
    requires Within(env, table, a, later, k)
    ensures FoundAgain(env, table, a, later, b, k)
  {
    if k == 0 {
    } else {
      OneSlotLess(env, table, a, later, b, k);
      SlotsAgain(env, table, a, later, b, k - 1);
    }
  }

  lemma OneSlotLess(env: Env, table: Table, a: seq<Content>, later: Table, b: seq<Content>, k: nat)
    requires SameContents(a, b) && 0 < k <= |SLOTS| && RegistryOk(env, table) && RegistryOk(env, later)
    requires Within(env, table, a, later, k)
    ensures Within(env, table, a, later, k - 1)
    ensures FoundAgain(env, table, a, later, b, k - 1) ==> FoundAgain(env, table, a, later, b, k)
  {
    EarlierSlots(env, table, a, later, k - 1);
    if FoundAgain(env, table, a, later, b, k - 1) { NextSlotAgain(env, table, a, later, b, k - 1); }
  }

  lemma EarlierSlots(env: Env, table: Table, contents: seq<Content>, later: Table, k: nat)
    requires k < |contents| == |SLOTS| && RegistryOk(env, table) && Within(env, table, contents, later, k + 1)
    ensures Within(env, table, contents, later, k)
  {
    SlotsStep(env, table, contents, k);
    SlotsKeep(env, table, contents, k);
    var (mid, ids) := RegisterSlots(env, table, contents, k);
    RegisterKeeps(env, mid, mid, SlotRequest(k, contents[k], ids.value), contents[k].now);
  }

  lemma NextSlotAgain(env: Env, table: Table, a: seq<Content>, later: Table, b: seq<Content>, k: nat)
    requires SameContents(a, b) && k < |SLOTS| && RegistryOk(env, table) && RegistryOk(env, later)
    requires Within(env, table, a, later, k) && Within(env, table, a, later, k + 1)
    requires FoundAgain(env, table, a, later, b, k)
    ensures FoundAgain(env, table, a, later, b, k + 1)
  {
    SlotsKeep(env, table, a, k);
    SlotsStep(env, table, a, k);
    SlotsStep(env, later, b, k);
    var (mid, ids) := RegisterSlots(env, table, a, k);
    SlotAgain(env, mid, ids.value, a[k], b[k], later, k);
  }

  /** The registration of one more slot. */
  lemma SlotsStep(env: Env, table: Table, contents: seq<Content>, k: nat)
    requires k < |contents| == |SLOTS|
    ensures var before, after := RegisterSlots(env, table, contents, k), RegisterSlots(env, table, contents, k + 1);
      if before.1.Err? then after == before
      else
        var (next, row) :=
          Register(env, before.0, before.0, SlotRequest(k, contents[k], before.1.value), contents[k].now);
        after == (next, if row.Err? then Err(row.error) else Ok(before.1.value + [row.value.id]))
  {
  }

  lemma SlotAgain(env: Env, mid: Table, ids: seq<string>, a: Content, b: Content, later: Table, k: nat)
    requires k < |SLOTS| && |ids| == k && a.(now := b.now) == b && RegistryOk(env, mid) && RegistryOk(env, later)
    requires Register(env, mid, mid, SlotRequest(k, a, ids), a.now).1.Ok?
    requires Register(env, mid, mid, SlotRequest(k, a, ids), a.now).0 <= later
    ensures mid <= later
    ensures Register(env, later, later, SlotRequest(k, b, ids), b.now) ==
      (later, Register(env, mid, mid, SlotRequest(k, a, ids), a.now).1)
  {
    SameRequest(k, a, b, ids);
    RequestAgain(env, mid, SlotRequest(k, a, ids), a.now, later, b.now);
  }

  lemma SameRequest(k: nat, a: Content, b: Content, ids: seq<string>)
    requires k < |SLOTS| && |ids| == k && a.(now := b.now) == b
    ensures SlotRequest(k, b, ids) == SlotRequest(k, a, ids)
  {
  }

  lemma RequestAgain(env: Env, table: Table, req: Request, now0: string, later: Table, now1: string)
    requires RegistryOk(env, table) && Register(env, table, table, req, now0).1.Ok?
    requires RegistryOk(env, later) && Register(env, table, table, req, now0).0 <= later
    ensures Register(env, later, later, req, now1) == (later, Register(env, table, table, req, now0).1)
    ensures table <= Register(env, table, table, req, now0).0
  {
    RegisterKeeps(env, table, table, req, now0);
    RegisteredLater(table, later, Texts(env, req.lineage).value);
    SameIdentityIsIdempotent(env, table, table, req, now0, later, later, req, now1);
  }

  /** A restart with the same experiments finds its own artifacts: nothing is registered, nothing is decided, and
      the cached identities come out the same. */
  lemma RestartChangesNothing(env: Env, seal: Seal, s: Store, a: seq<Content>, first: Ticket, later: Store,
    b: seq<Content>, second: Ticket)
    requires PlainNames(env) && StoreOk(env, seal, s) && s.identities.None? && SameContents(a, b)
    requires Ensure(env, seal, s, a, first).1.Ok?
    requires StoreOk(env, seal, later) && Extends(Ensure(env, seal, s, a, first).0, later)
    ensures Step(env, seal, later, Startup(b, second)) ==
      later.(identities := Ensure(env, seal, s, a, first).0.identities)
  {
    SlotsKeep(env, s.artifacts, a, |SLOTS|);
    SlotsAgain(env, s.artifacts, a, later.artifacts, b, |SLOTS|);
    EnsureRecords(env, seal, s, a, first);
  }

  /** A bootstrap that succeeds leaves at least one decision. */
  lemma EnsureRecords(env: Env, seal: Seal, s: Store, contents: seq<Content>, ticket: Ticket)
    requires PlainNames(env) && StoreOk(env, seal, s) && s.identities.None? && |contents| == |SLOTS|
    requires Ensure(env, seal, s, contents, ticket).1.Ok?
    ensures Ensure(env, seal, s, contents, ticket).0.ledger != []
  {
    var (table, ids) := RegisterSlots(env, s.artifacts, contents, |SLOTS|);
    DecideRecords(env, seal, s.(artifacts := table), Identities(ids.value[CANDIDATE], ids.value[CHAMPION]), ticket);
  }

  lemma DecideRecords(env: Env, seal: Seal, s: Store, found: Identities, ticket: Ticket)
    requires PlainNames(env) && C.ChainValid(Spec(env, seal), s.ledger) && Decide(env, seal, s, found, ticket).1.Ok?
    ensures Decide(env, seal, s, found, ticket).0.ledger != []
  {
    EvaluateKeeps(env, seal, s.artifacts, s.ledger, found.candidate, Some(found.champion), NO_EVIDENCE,
      "SYSTEM_BOOTSTRAP", {}, ticket);
  }

  // ---- the service object ----

  class GovernanceService {
    const env: Env
    const seal: Seal
    var artifacts: Table
    var ledger: Ledger
    var identities: Option<Identities>

    ghost function View(): Store
      reads this
    {
      Store(artifacts, ledger, identities)
    }

    /** A new process over tables that earlier processes left. */
    constructor (env: Env, seal: Seal, artifacts: Table, ledger: Ledger)
      ensures this.env == env && this.seal == seal && View() == Store(artifacts, ledger, None)
    {
      this.env, this.seal := env, seal;
      this.artifacts, this.ledger, this.identities := artifacts, ledger, None;
    }

    method RegisterArtifact(req: Request, now: string) returns (r: Result<Artifact>)
      modifies this`artifacts
      ensures (artifacts, r) == Register(env, old(artifacts), old(artifacts), req, now)
      ensures RegistryOk(env, old(artifacts)) ==> RegistryOk(env, artifacts) && old(artifacts) <= artifacts
      ensures RegistryOk(env, old(artifacts)) ==>
        RegisteredAs(env, old(artifacts), old(artifacts), artifacts, req, now, r)
    {
      var claim := Validate(env, artifacts, req);
      if RegistryOk(env, artifacts) {
        RegisterKeeps(env, artifacts, artifacts, req, now);
        RegistrationIsLawful(env, artifacts, artifacts, req, now);
      }
      if claim.Err? {
        return Err(claim.error);
      }
      var existing := Find(artifacts, ArtifactId(env, claim.value.identity));
      if existing.Some? {
        return if Verified(env, existing.value) then Ok(existing.value) else Err(InvalidAttestation);
      }
      var row := Attest(env, claim.value, now);
      artifacts := artifacts + [row];
      r := Ok(row);
    }

    /** An error leaves the ledger as it was; a success adds exactly one row, which carries the head it found, a known
        decision and a registered candidate, and keeps the ledger a verified chain. */
    method AppendDecision(candidate: string, champion: Option<string>, decision: string, checks: string,
      evidence: string, ticket: Ticket)
      returns (r: Result<L.PromotionRow>)
      modifies this`ledger
      ensures (ledger, r) ==
        Append(env, seal, artifacts, old(ledger), candidate, champion, decision, checks, evidence, ticket)
      ensures r.Err? ==> ledger == old(ledger)
      ensures r.Err? && r.error == Conflict ==> Find(artifacts, candidate).Some?
      ensures r.Ok? ==> ledger == old(ledger) + [r.value]
      ensures r.Ok? ==> r.value.previousHash == C.Head(Spec(env, seal), old(ledger))
      ensures r.Ok? ==> r.value.decision in DECISIONS && Find(artifacts, candidate).Some?
      ensures r.Ok? ==> r.value.decisionId == ticket.id
      ensures r.Ok? ==> r.value.candidate == candidate && r.value.champion == champion
      ensures r.Ok? ==> !Clashes(old(ledger), r.value)
      ensures C.ChainValid(Spec(env, seal), old(ledger)) ==> C.ChainValid(Spec(env, seal), ledger)
    {
      var text := BoundedText(env, decision, 48);
      if text.Err? {
        return Err(text.error);
      }
      if env.upper(text.value) !in DECISIONS {
        return Err(UnsupportedDecision);
      }
      if Find(artifacts, candidate).None? {
        return Err(CandidateMissing);
      }
      var row := Entry(env, seal, ledger, candidate, champion, env.upper(text.value), checks, evidence, ticket);
      if Clashes(ledger, row) {
        return Err(Conflict);
      }
      if C.ChainValid(Spec(env, seal), ledger) {
        C.AppendExact(Spec(env, seal), ledger, row);
      }
      ledger := ledger + [row];
      r := Ok(row);
    }

    method EvaluateCandidate(candidate: string, champion: Option<string>, release: Release, actor: string,
      ignored: set<string>, ticket: Ticket)
      returns (r: Result<L.PromotionRow>)
      modifies this`ledger
      ensures (ledger, r) ==
        Evaluate(env, seal, artifacts, old(ledger), candidate, champion, release, actor, ignored, ticket)
    {
      var verdict := Judge(env, artifacts, candidate, champion, release);
      if verdict.Err? {
        return Err(verdict.error);
      }
      var name := BoundedText(env, actor, 64);
      if name.Err? {
        return Err(name.error);
      }
      r := AppendDecision(candidate, champion, verdict.value.decision, seal.renderChecks(verdict.value.checks),
        seal.renderEvidence(name.value, ignored), ticket);
    }

    /** The ten registrations; a failing one leaves those before it. */
    method RegisterContents(contents: seq<Content>) returns (r: Result<seq<string>>)
      requires |contents| == |SLOTS|
      modifies this`artifacts
      ensures (artifacts, r) == RegisterSlots(env, old(artifacts), contents, |SLOTS|)
    {
      var ids: seq<string> := [];
      for k := 0 to |SLOTS|
        invariant |ids| == k
        invariant RegisterSlots(env, old(artifacts), contents, k) == (artifacts, Ok(ids))
      {
        var a := RegisterArtifact(SlotRequest(k, contents[k], ids), contents[k].now);
        if a.Err? {
          SlotsStop(env, old(artifacts), contents, k + 1, |SLOTS|);
          return Err(a.error);
        }
        ids := ids + [a.value.id];
      }
      r := Ok(ids);
    }

    method EnsureGovernanceRegistry(contents: seq<Content>, ticket: Ticket) returns (r: Result<Identities>)
      requires |contents| == |SLOTS|
      modifies this
      ensures (View(), r) == Ensure(env, seal, old(View()), contents, ticket)
      ensures PlainNames(env) && old(StoreOk(env, seal, View())) ==>
        StoreOk(env, seal, View()) && Extends(old(View()), View()) && (r.Ok? ==> ledger != [])
    {
      if PlainNames(env) && StoreOk(env, seal, View()) {
        EnsureKeeps(env, seal, View(), contents, ticket);
      }
      if identities.Some? {
        return Ok(identities.value);
      }
      var registered := RegisterContents(contents);
      if registered.Err? {
        return Err(registered.error);
      }
      var ids := registered.value;
      r := DecideFirst(Identities(ids[CANDIDATE], ids[CHAMPION]), ticket);
    }

    method DecideFirst(found: Identities, ticket: Ticket) returns (r: Result<Identities>)
      modifies this`ledger, this`identities
      ensures (View(), r) == Decide(env, seal, old(View()), found, ticket)
    {
      if ledger == [] {
        var first := EvaluateCandidate(found.candidate, Some(found.champion), NO_EVIDENCE, "SYSTEM_BOOTSTRAP", {},
          ticket);
        if first.Err? {
          return Err(first.error);
        }
      }
      identities := Some(found);
      r := Ok(found);
    }

    method EvaluateGovernanceCandidate(
      payload: map<string, Value>, contents: seq<Content>, boot: Ticket, ticket: Ticket)
      returns (r: Result<L.PromotionRow>)
      requires |contents| == |SLOTS|
      modifies this
      ensures (View(), r) == Serve(env, seal, old(View()), payload, contents, boot, ticket)
      ensures PlainNames(env) && old(StoreOk(env, seal, View())) ==>
        StoreOk(env, seal, View()) && Extends(old(View()), View())
    {
      if PlainNames(env) && StoreOk(env, seal, View()) {
        StepKeeps(env, seal, View(), Api(payload, contents, boot, ticket));
      }
      var ids := EnsureGovernanceRegistry(contents, boot);
      if ids.Err? {
        return Err(ids.error);
      }
      var candidate := ids.value.candidate;
      if CANDIDATE_FIELD in payload && Truthy(payload[CANDIDATE_FIELD]) {
        candidate := env.str(payload[CANDIDATE_FIELD]);
      }
      var found := Find(artifacts, candidate);
      if found.None? || found.value.artifactType != "model" {
        return Err(NotAModel);
      }
      r := EvaluateCandidate(candidate, Some(ids.value.champion), NO_EVIDENCE, "LOOPBACK_API",
        payload.Keys - {CANDIDATE_FIELD}, ticket);
    }
  }

  lemma {:induction false} SlotsStop(env: Env, table: Table, contents: seq<Content>, j: nat, k: nat)
    requires j <= k <= |contents| == |SLOTS| && RegisterSlots(env, table, contents, j).1.Err?
    ensures RegisterSlots(env, table, contents, k) == RegisterSlots(env, table, contents, j)
  {
    if j < k { SlotsStop(env, table, contents, j, k - 1); }
  }
}
