/** The per-install artifact registry: registration with lineage, attestation, and what every run of concurrent
    registrations keeps. */
module Registry {
  import opened Numbers

  datatype Result<+T> = Ok(value: T) | Err(error: Error)

  datatype Error =
    | BadText | UnsupportedType | UnsupportedStatus | BadDescriptor | UnknownLineage | InvalidAttestation | Conflict
    | CandidateMissing | ChampionMissing | NotAModel | NotAnInteger | UnsupportedDecision

  /** A JSON value; arrays and objects keep their text and size only. */
  datatype Value =
    | Null | Flag(b: bool) | Whole(n: int) | Fraction(x: real) | Text(s: string) | Nested(json: string, size: nat)

  type Descriptor = map<string, Value>

  datatype Identity = Identity(
    artifactType: string, name: string, version: string, descriptorSha: string, lineage: seq<string>)

  datatype Attested = Attested(id: string, identity: Identity, status: string, createdAt: string, keyId: string)

  /** What one installation fixes: its key, Python's text and number functions, canonical JSON (None for a value
      that has none), SHA-256, the hash inside an artifact id, and the keyed hash. */
  datatype Env = Env(
    keyId: string, strip: string -> string, lower: string -> string, upper: string -> string,
    parseInt: string -> Option<int>, str: Value -> string, canonical: Descriptor -> Option<string>,
    sha: string -> string, idHash: Identity -> string, attest: Attested -> string)

  datatype Artifact = Artifact(
    id: string, artifactType: string, name: string, version: string, status: string, createdAt: string,
    descriptorSha: string, keyId: string, attestation: string, descriptor: Descriptor, lineage: seq<string>)

  type Table = seq<Artifact>

  const TYPES: set<string> := {"dataset", "model", "policy", "evaluator", "rollback"}
  const STATUSES: set<string> := {"RESEARCH", "BASELINE", "SHADOW", "CHAMPION", "RETIRED", "REJECTED"}
  const MAX_DESCRIPTOR: nat := 65536

  function BoundedText(env: Env, raw: string, maximum: nat): (r: Result<string>)
    ensures r.Ok? ==> 0 < |r.value| <= maximum
  {
    var text := env.strip(raw);
    if text == "" || |text| > maximum || exists k | 0 <= k < |text| :: text[k] < ' ' then Err(BadText) else Ok(text)
  }

  function Prefix(artifactType: string): string {
    if artifactType == "dataset" then "DST"
    else if artifactType == "model" then "MDL"
    else if artifactType == "policy" then "POL"
    else if artifactType == "evaluator" then "EVL"
    else "RBK"
  }

  function ArtifactId(env: Env, identity: Identity): string {
    Prefix(identity.artifactType) + "-" + env.idHash(identity)
  }

  /** `get_artifact`: the row under the primary key. */
  function Find(table: Table, id: string): (r: Option<Artifact>)
    ensures r.Some? ==> r.value in table && r.value.id == id
    ensures r.None? ==> forall a | a in table :: a.id != id
  {
    if table == [] then None else if table[0].id == id then Some(table[0]) else Find(table[1..], id)
  }

  lemma {:induction false} FindConcat(a: Table, b: Table, id: string)
    ensures Find(a + b, id) == if Find(a, id).Some? then Find(a, id) else Find(b, id)
  {
    if a == [] {
      assert a + b == b;
    } else {
      assert (a + b)[1..] == a[1..] + b;
      FindConcat(a[1..], b, id);
    }
  }

  lemma FindLater(a: Table, b: Table, id: string)
    requires a <= b && Find(a, id).Some?
    ensures Find(b, id) == Find(a, id)
  {
    assert b == a + b[|a|..];
    FindConcat(a, b[|a|..], id);
  }

  // ---- attestation ----

  function IdentityOf(env: Env, a: Artifact): Identity
    requires env.canonical(a.descriptor).Some?
  {
    Identity(a.artifactType, a.name, a.version, env.sha(env.canonical(a.descriptor).value), a.lineage)
  }

  function AttestedOf(env: Env, a: Artifact): Attested
    requires env.canonical(a.descriptor).Some?
  {
    Attested(a.id, IdentityOf(env, a), a.status, a.createdAt, a.keyId)
  }

  /** `verify_artifact` on a record: an unknown type or a descriptor without canonical form is malformed. */
  predicate Verified(env: Env, a: Artifact) {
    && a.artifactType in TYPES && env.canonical(a.descriptor).Some?
    && a.descriptorSha == IdentityOf(env, a).descriptorSha
    && a.id == ArtifactId(env, IdentityOf(env, a))
    && a.keyId == env.keyId
    && a.attestation == env.attest(AttestedOf(env, a))
  }

  predicate VerifiedId(env: Env, table: Table, id: string) {
    Find(table, id).Some? && Verified(env, Find(table, id).value)
  }

  /** The hashes do not collide on the two records at hand. */
  ghost predicate NoCollision(env: Env, a: Artifact, b: Artifact)
    requires env.canonical(a.descriptor).Some? && env.canonical(b.descriptor).Some?
  {
    && (ArtifactId(env, IdentityOf(env, a)) == ArtifactId(env, IdentityOf(env, b)) ==>
          IdentityOf(env, a) == IdentityOf(env, b))
    && (env.attest(AttestedOf(env, a)) == env.attest(AttestedOf(env, b)) ==> AttestedOf(env, a) == AttestedOf(env, b))
    && (env.sha(env.canonical(a.descriptor).value) == env.sha(env.canonical(b.descriptor).value) ==>
          a.descriptor == b.descriptor)
  }

  /** Two verified records with one id agree in all but status and time; with one attestation they are the same
      record in every column. */
  lemma AttestationBindsRecord(env: Env, a: Artifact, b: Artifact)
    requires Verified(env, a) && Verified(env, b) && NoCollision(env, a, b)
    ensures a.id == b.id ==> b == a.(status := b.status, createdAt := b.createdAt, attestation := b.attestation)
    ensures a.attestation == b.attestation <==> a == b
  {
  }

  /** Rewriting any column of a verified record, the attestation included, makes it fail. */
  lemma TamperingShows(env: Env, a: Artifact, b: Artifact)
    requires Verified(env, a) && a != b && (b.attestation == a.attestation || b == a.(attestation := b.attestation))
    requires env.canonical(b.descriptor).Some? ==> NoCollision(env, a, b)
    ensures !Verified(env, b)
  {
    if Verified(env, b) { AttestationBindsRecord(env, a, b); }
  }

  // ---- registration ----

  datatype Request = Request(
    artifactType: string, name: string, version: string, descriptor: Option<Descriptor>, lineage: seq<string>,
    status: string)

  /** A request that passed validation. */
  datatype Claim = Claim(identity: Identity, status: string, descriptor: Descriptor)

  function Texts(env: Env, raw: seq<string>): Result<seq<string>> {
    if raw == [] then Ok([])
    else
      var before := Texts(env, raw[..|raw| - 1]);
      var last := BoundedText(env, raw[|raw| - 1], 40);
      if before.Err? then before else if last.Err? then Err(last.error)
      else if last.value in before.value then before else Ok(before.value + [last.value])
  }

  predicate AllRegistered(table: Table, ids: seq<string>) { forall i | 0 <= i < |ids| :: Find(table, ids[i]).Some? }

  function Validate(env: Env, table: Table, req: Request): (r: Result<Claim>)
    ensures r.Ok? ==> r.value.identity.artifactType in TYPES && r.value.status in STATUSES
    ensures r.Ok? ==> AllRegistered(table, r.value.identity.lineage)
    ensures r.Ok? ==> env.canonical(r.value.descriptor).Some?
    ensures r.Ok? ==> r.value.identity.descriptorSha == env.sha(env.canonical(r.value.descriptor).value)
  {
    var kind := BoundedText(env, req.artifactType, 32);
    if kind.Err? then Err(kind.error) else
    var artifactType := env.lower(kind.value);
    if artifactType !in TYPES then Err(UnsupportedType) else
    var name := BoundedText(env, req.name, 120);
    if name.Err? then Err(name.error) else
    var version := BoundedText(env, req.version, 64);
    if version.Err? then Err(version.error) else
    var state := BoundedText(env, req.status, 32);
    if state.Err? then Err(state.error) else
    var status := env.upper(state.value);
    if status !in STATUSES then Err(UnsupportedStatus) else
    if req.descriptor.None? || env.canonical(req.descriptor.value).None? then Err(BadDescriptor) else
    var text := env.canonical(req.descriptor.value).value;
    if |text| > MAX_DESCRIPTOR then Err(BadDescriptor) else
    var lineage := Texts(env, req.lineage);
    if lineage.Err? then Err(lineage.error) else
    if !AllRegistered(table, lineage.value) then Err(UnknownLineage) else
    var identity := Identity(artifactType, name.value, version.value, env.sha(text), lineage.value);
    Ok(Claim(identity, status, req.descriptor.value))
  }

  function Attest(env: Env, claim: Claim, now: string): Artifact {
    var identity := claim.identity;
    var id := ArtifactId(env, identity);
    Artifact(
      id, identity.artifactType, identity.name, identity.version, claim.status, now, identity.descriptorSha, env.keyId,
      env.attest(Attested(id, identity, claim.status, now, env.keyId)), claim.descriptor, identity.lineage)
  }

  /** The INSERT, then the re-read; a clash on the primary key means another writer was faster. */
  function Insert(env: Env, table: Table, a: Artifact): (Table, Result<Artifact>) {
    var stored := Find(table, a.id);
    if stored.None? then (table + [a], Ok(a))
    else (table, if Verified(env, stored.value) then Ok(stored.value) else Err(Conflict))
  }

  /** `register_artifact`. Validation and look-up see `seen`; the insertion meets `table`, which other writers may
      have extended in between. */
  function Register(env: Env, seen: Table, table: Table, req: Request, now: string): (Table, Result<Artifact>) {
    var claim := Validate(env, seen, req);
    if claim.Err? then (table, Err(claim.error))
    else
      var existing := Find(seen, ArtifactId(env, claim.value.identity));
      if existing.Some? then
        (table, if Verified(env, existing.value) then Ok(existing.value) else Err(InvalidAttestation))
      else Insert(env, table, Attest(env, claim.value, now))
  }

  // ---- what registration keeps ----

  /** The row verifies, its id is new, and all its parents stand before it. */
  ghost predicate RowOk(env: Env, table: Table, k: nat)
    requires k < |table|
  {
    Verified(env, table[k]) && Find(table[..k], table[k].id).None? && AllRegistered(table[..k], table[k].lineage)
  }

  ghost predicate RegistryOk(env: Env, table: Table) { forall k | 0 <= k < |table| :: RowOk(env, table, k) }

  lemma RowAppended(env: Env, table: Table, a: Artifact)
    requires RegistryOk(env, table)
    ensures RegistryOk(env, table + [a]) <==>
      Verified(env, a) && Find(table, a.id).None? && AllRegistered(table, a.lineage)
  {
    var after := table + [a];
    assert after[..|table|] == table;
    forall k | 0 <= k < |table| ensures RowOk(env, after, k) {
      assert after[..k] == table[..k] && RowOk(env, table, k);
    }
    if RegistryOk(env, after) { assert RowOk(env, after, |table|); }
  }

  lemma RegisteredLater(seen: Table, table: Table, ids: seq<string>)
    requires seen <= table && AllRegistered(seen, ids)
    ensures AllRegistered(table, ids)
  {
    forall i | 0 <= i < |ids| ensures Find(table, ids[i]).Some? { FindLater(seen, table, ids[i]); }
  }

  lemma FoundVerifies(env: Env, table: Table, id: string)
    requires RegistryOk(env, table) && Find(table, id).Some?
    ensures Verified(env, Find(table, id).value)
  {
    var k :| 0 <= k < |table| && table[k] == Find(table, id).value;
    assert RowOk(env, table, k);
  }

  /** One registration, however long ago it looked: the table grows by at most one verified row whose parents are
      all older, and a success returns a verified row of the table with the id of the request. */
  lemma RegisterKeeps(env: Env, seen: Table, table: Table, req: Request, now: string)
    requires RegistryOk(env, table) && seen <= table
    ensures var (after, r) := Register(env, seen, table, req, now);
      && RegistryOk(env, after) && table <= after && |after| <= |table| + 1
      && (r.Err? ==> after == table)
      && (r.Ok? <==> Validate(env, seen, req).Ok?)
      && (r.Ok? ==> Verified(env, r.value) && Find(after, r.value.id) == Some(r.value))
      && (r.Ok? ==> r.value.id == ArtifactId(env, Validate(env, seen, req).value.identity))
  {
    var claim := Validate(env, seen, req);
    if claim.Ok? {
      var id := ArtifactId(env, claim.value.identity);
      if Find(seen, id).Some? {
        FindLater(seen, table, id);
        FoundVerifies(env, table, id);
      } else {
        var a := Attest(env, claim.value, now);
        RegisteredLater(seen, table, claim.value.identity.lineage);
        if Find(table, id).Some? {
          FoundVerifies(env, table, id);
        } else {
          RowAppended(env, table, a);
          FindConcat(table, [a], id);
        }
      }
    }
  }

  /** Registering an identity again, at any later time and from any view that contains the first registration,
      returns the row stored then and changes nothing. */
  lemma SameIdentityIsIdempotent(env: Env, t0: Table, table0: Table, req0: Request, now0: string,
    t1: Table, table1: Table, req1: Request, now1: string)
    requires RegistryOk(env, table0) && t0 <= table0 && Register(env, t0, table0, req0, now0).1.Ok?
    requires RegistryOk(env, table1) && Register(env, t0, table0, req0, now0).0 <= table1
    requires t1 <= table1 && Validate(env, t1, req1).Ok?
    requires Validate(env, t1, req1).value.identity == Validate(env, t0, req0).value.identity
    ensures Register(env, t1, table1, req1, now1) == (table1, Register(env, t0, table0, req0, now0).1)
  {
    var (after0, r0) := Register(env, t0, table0, req0, now0);
    RegisterKeeps(env, t0, table0, req0, now0);
    FindLater(after0, table1, r0.value.id);
    if Find(t1, r0.value.id).Some? { FindLater(t1, table1, r0.value.id); }
  }

  /** Another status does not make another artifact: the stored row, with its first status, is returned. */
  lemma StatusIsNotIdentity(
    env: Env, table: Table, req: Request, now0: string, later: Table, status: string, now1: string)
    requires RegistryOk(env, table) && Register(env, table, table, req, now0).1.Ok?
    requires RegistryOk(env, later) && Register(env, table, table, req, now0).0 <= later
    requires BoundedText(env, status, 32).Ok? && env.upper(BoundedText(env, status, 32).value) in STATUSES
    ensures Register(env, later, later, req.(status := status), now1) ==
      (later, Register(env, table, table, req, now0).1)
  {
    RegisterKeeps(env, table, table, req, now0);
    var again := req.(status := status);
    RegisteredLater(table, later, Texts(env, req.lineage).value);
    assert Validate(env, later, again).Ok?;
    SameIdentityIsIdempotent(env, table, table, req, now0, later, later, again, now1);
  }

  // ---- lineage ----

  /** A chain of ids in which each names the next as a parent. */
  ghost predicate LineagePath(table: Table, p: seq<string>) {
    && p != []
    && (forall i | 0 <= i < |p| :: Find(table, p[i]).Some?)
    && (forall i | 0 <= i < |p| - 1 :: HasParent(table, p[i], p[i + 1]))
  }

  ghost predicate HasParent(table: Table, child: string, parent: string) {
    Find(table, child).Some? && parent in Find(table, child).value.lineage
  }

  /** The row of an id is unique, so it has a position. */
  lemma UniquePosition(env: Env, table: Table, i: nat, j: nat)
    requires RegistryOk(env, table) && i < |table| && j < |table| && table[i].id == table[j].id
    ensures i == j
  {
    var last := if i < j then j else i;
    assert RowOk(env, table, last);
    assert forall k | 0 <= k < last :: table[..last][k].id != table[last].id;
  }

  lemma {:induction false} PathDescends(env: Env, table: Table, p: seq<string>) returns (first: nat, last: nat)
    requires RegistryOk(env, table) && LineagePath(table, p)
    ensures first < |table| && last < |table| && table[first].id == p[0] && table[last].id == p[|p| - 1]
    ensures last + |p| - 1 <= first
  {
    assert Find(table, p[0]).value in table;
    first :| 0 <= first < |table| && table[first] == Find(table, p[0]).value;
    if |p| == 1 {
      last := first;
    } else {
      var next: nat;
      assert forall k | 0 <= k < |p[1..]| :: p[1..][k] == p[k + 1];
      next, last := PathDescends(env, table, p[1..]);
      assert RowOk(env, table, first) && HasParent(table, p[0], p[1]);
      var older := Find(table[..first], p[1]);
      var k :| 0 <= k < first && table[..first][k] == older.value;
      UniquePosition(env, table, k, next);
    }
  }

  /** No artifact is its own ancestor, and no line of descent is longer than the registry. */
  lemma LineageIsAcyclic(env: Env, table: Table, p: seq<string>)
    requires RegistryOk(env, table) && LineagePath(table, p)
    ensures |p| <= |table|
    ensures |p| > 1 ==> p[0] != p[|p| - 1]
  {
    var first, last := PathDescends(env, table, p);
    if p[0] == p[|p| - 1] { UniquePosition(env, table, first, last); }
  }

  // ---- runs ----

  /** A registration whose checks ran when the table had `seen` rows; only rows already committed can be seen. */
  datatype Call = Call(seen: nat, req: Request, now: string)

  function Run(env: Env, calls: seq<Call>): Table {
    if calls == [] then []
    else
      var table, c := Run(env, calls[..|calls| - 1]), calls[|calls| - 1];
      Register(env, if c.seen <= |table| then table[..c.seen] else table, table, c.req, c.now).0
  }

  /** Over every interleaving of registrations the registry verifies, its lineage is well-founded, and rows once
      stored stay as they are. */
  lemma {:induction false} EveryRunVerifies(env: Env, calls: seq<Call>, k: nat)
    requires k <= |calls|
    ensures RegistryOk(env, Run(env, calls))
    ensures Run(env, calls[..k]) <= Run(env, calls)
  {
    if calls == [] {
    } else {
      var init, c := calls[..|calls| - 1], calls[|calls| - 1];
      var table := Run(env, init);
      EveryRunVerifies(env, init, if k < |calls| then k else |init|);
      RegisterKeeps(env, if c.seen <= |table| then table[..c.seen] else table, table, c.req, c.now);
      if k < |calls| { assert init[..k] == calls[..k]; } else { assert calls[..k] == calls; }
    }
  }

  function CountTrue(s: seq<bool>): nat {
    if s == [] then 0 else CountTrue(s[..|s| - 1]) + if s[|s| - 1] then 1 else 0
  }

  lemma CountTrueSnoc(s: seq<bool>, b: bool)
    ensures CountTrue(s + [b]) == CountTrue(s) + if b then 1 else 0
  {
    assert (s + [b])[..|s|] == s;
  }

  lemma {:induction false} CountTrueAll(s: seq<bool>)
    ensures CountTrue(s) <= |s|
    ensures CountTrue(s) == |s| <==> forall k | 0 <= k < |s| :: s[k]
  {
    if s != [] { CountTrueAll(s[..|s| - 1]); }
  }

  /** `verify_registry`. */
  method VerifyRegistry(env: Env, table: Table) returns (verdicts: seq<bool>, verified: nat, valid: bool)
    ensures |verdicts| == |table| && forall k | 0 <= k < |table| :: verdicts[k] == Verified(env, table[k])
    ensures verified == CountTrue(verdicts) && (valid <==> verified == |table|)
    ensures valid <==> forall k | 0 <= k < |table| :: Verified(env, table[k])
    ensures RegistryOk(env, table) ==> valid
  {
    verdicts, verified := [], 0;
    for k := 0 to |table|
      invariant |verdicts| == k && forall j | 0 <= j < k :: verdicts[j] == Verified(env, table[j])
      invariant verified == CountTrue(verdicts)
    {
      var verdict := Verified(env, table[k]);
      CountTrueSnoc(verdicts, verdict);
      verdicts := verdicts + [verdict];
      if verdict {
        verified := verified + 1;
      }
    }
    valid := verified == |table|;
    CountTrueAll(verdicts);
    HonestRowsVerify(env, table);
  }

  lemma HonestRowsVerify(env: Env, table: Table)
    ensures RegistryOk(env, table) ==> forall k | 0 <= k < |table| :: Verified(env, table[k])
  {
    if RegistryOk(env, table) {
      forall k | 0 <= k < |table| ensures Verified(env, table[k]) { assert RowOk(env, table, k); }
    }
  }
}
