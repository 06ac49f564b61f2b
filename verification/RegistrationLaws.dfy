/** What a registration stores and returns, field by field, in terms of the request. */
module RegistrationLaws {
  import opened Numbers
  import opened Registry

  /** A text as it is stored: stripped, not empty, bounded, without control characters. */
  ghost predicate Clean(env: Env, raw: string, maximum: nat) {
    var text := env.strip(raw);
    text != "" && |text| <= maximum && forall k | 0 <= k < |text| :: ' ' <= text[k]
  }

  // ---- the parents ----

  function Stripped(env: Env, raw: seq<string>): (r: seq<string>)
    ensures |r| == |raw| && forall i | 0 <= i < |raw| :: r[i] == env.strip(raw[i])
  {
    seq(|raw|, i requires 0 <= i < |raw| => env.strip(raw[i]))
  }

  /** `ys` lists the first occurrence of every element of `xs`, in order; `f` says where they stand. */
  ghost predicate FirstOccurrences(xs: seq<string>, ys: seq<string>, f: seq<nat>) {
    && |f| == |ys|
    && (forall k | 0 <= k < |ys| :: FirstAt(xs, ys[k], f[k]))
    && (forall j, k | 0 <= j < k < |ys| :: f[j] < f[k])
    && (forall x | x in xs :: x in ys)
  }

  ghost predicate FirstAt(xs: seq<string>, x: string, i: nat) { i < |xs| && xs[i] == x && x !in xs[..i] }

  ghost predicate WithoutRepeats(xs: seq<string>, ys: seq<string>) { exists f :: FirstOccurrences(xs, ys, f) }

  lemma OccurrencesSnoc(xs: seq<string>, ys: seq<string>, x: string)
    requires WithoutRepeats(xs, ys)
    ensures WithoutRepeats(xs + [x], if x in ys then ys else ys + [x])
  {
    var f: seq<nat> :| FirstOccurrences(xs, ys, f);
    var all := xs + [x];
    forall k | 0 <= k < |ys| ensures FirstAt(all, ys[k], f[k]) {
      assert FirstAt(xs, ys[k], f[k]);
      assert all[..f[k]] == xs[..f[k]];
    }
    if x in ys {
      assert FirstOccurrences(all, ys, f);
    } else {
      assert all[..|xs|] == xs;
      assert x !in xs;
      assert FirstAt(all, x, |xs|);
      assert FirstOccurrences(all, ys + [x], f + [|xs|]);
    }
  }

  lemma {:induction false} TextsAreClean(env: Env, raw: seq<string>)
    ensures Texts(env, raw).Ok? <==> forall i | 0 <= i < |raw| :: Clean(env, raw[i], 40)
    ensures Texts(env, raw).Ok? ==> WithoutRepeats(Stripped(env, raw), Texts(env, raw).value)
  {
    if raw == [] {
      assert FirstOccurrences(Stripped(env, raw), [], []);
    } else {
      var n := |raw| - 1;
      TextsAreClean(env, raw[..n]);
      assert forall i | 0 <= i < n :: raw[..n][i] == raw[i];
      CleanIsBounded(env, raw[n], 40);
      if Texts(env, raw).Ok? {
        NextText(env, raw);
        OneTextMore(env, raw, Texts(env, raw[..n]).value, Texts(env, raw).value);
      }
    }
  }

  lemma NextText(env: Env, raw: seq<string>)
    requires raw != [] && Texts(env, raw).Ok? && Texts(env, raw[..|raw| - 1]).Ok?
    ensures var before, text := Texts(env, raw[..|raw| - 1]).value, env.strip(raw[|raw| - 1]);
      Texts(env, raw).value == if text in before then before else before + [text]
  {
    CleanIsBounded(env, raw[|raw| - 1], 40);
  }

  lemma OneTextMore(env: Env, raw: seq<string>, before: seq<string>, after: seq<string>)
    requires raw != [] && WithoutRepeats(Stripped(env, raw[..|raw| - 1]), before)
    requires var text := env.strip(raw[|raw| - 1]); after == if text in before then before else before + [text]
    ensures WithoutRepeats(Stripped(env, raw), after)
  {
    var n := |raw| - 1;
    OccurrencesSnoc(Stripped(env, raw[..n]), before, env.strip(raw[n]));
    assert Stripped(env, raw) == Stripped(env, raw[..n]) + [env.strip(raw[n])];
  }

  lemma CleanIsBounded(env: Env, raw: string, maximum: nat)
    ensures BoundedText(env, raw, maximum) == if Clean(env, raw, maximum) then Ok(env.strip(raw)) else Err(BadText)
  {
  }

  // ---- what a request asks for ----

  ghost predicate KnownType(t: string) { t in {"dataset", "model", "policy", "evaluator", "rollback"} }

  ghost predicate KnownStatus(s: string) {
    s in {"RESEARCH", "BASELINE", "SHADOW", "CHAMPION", "RETIRED", "REJECTED"}
  }

  ghost predicate Holds(table: Table, id: string) { exists a :: a in table && a.id == id }

  /** Everything a registration asks of its request, against the rows it saw. */
  ghost predicate Acceptable(env: Env, seen: Table, req: Request) {
    && Clean(env, req.artifactType, 32) && KnownType(env.lower(env.strip(req.artifactType)))
    && Clean(env, req.name, 120) && Clean(env, req.version, 64)
    && Clean(env, req.status, 32) && KnownStatus(env.upper(env.strip(req.status)))
    && req.descriptor.Some? && env.canonical(req.descriptor.value).Some?
    && |env.canonical(req.descriptor.value).value| <= 65536
    && (forall i | 0 <= i < |req.lineage| :: Clean(env, req.lineage[i], 40))
    && (forall i | 0 <= i < |req.lineage| :: Holds(seen, env.strip(req.lineage[i])))
  }

  /** The five fields that make an artifact what it is. */
  ghost predicate IdentifiedBy(env: Env, req: Request, identity: Identity) {
    && req.descriptor.Some? && env.canonical(req.descriptor.value).Some?
    && identity.artifactType == env.lower(env.strip(req.artifactType))
    && identity.name == env.strip(req.name) && identity.version == env.strip(req.version)
    && identity.descriptorSha == env.sha(env.canonical(req.descriptor.value).value)
    && WithoutRepeats(Stripped(env, req.lineage), identity.lineage)
  }

  ghost predicate PrefixOf(artifactType: string, prefix: string) {
    && (artifactType == "dataset" ==> prefix == "DST") && (artifactType == "model" ==> prefix == "MDL")
    && (artifactType == "policy" ==> prefix == "POL") && (artifactType == "evaluator" ==> prefix == "EVL")
    && (artifactType == "rollback" ==> prefix == "RBK")
  }

  ghost predicate NamedAfter(env: Env, identity: Identity, id: string) {
    exists prefix :: PrefixOf(identity.artifactType, prefix) && id == prefix + "-" + env.idHash(identity)
  }

  /** The row that a new artifact becomes. */
  ghost predicate RowFor(env: Env, req: Request, now: string, a: Artifact) {
    var identity := Identity(a.artifactType, a.name, a.version, a.descriptorSha, a.lineage);
    && IdentifiedBy(env, req, identity) && NamedAfter(env, identity, a.id)
    && a.status == env.upper(env.strip(req.status)) && a.createdAt == now && a.keyId == env.keyId
    && a.descriptor == req.descriptor.value
    && a.attestation == env.attest(Attested(a.id, identity, a.status, now, env.keyId))
  }

  /** A row stored before under the same id: another identity only if the two ids collide. */
  ghost predicate SameArtifact(env: Env, req: Request, a: Artifact) {
    exists identity :: IdentifiedBy(env, req, identity) && NamedAfter(env, identity, a.id)
      && (NoIdCollision(env, identity, a) ==>
            Identity(a.artifactType, a.name, a.version, a.descriptorSha, a.lineage) == identity)
  }

  ghost predicate NoIdCollision(env: Env, identity: Identity, a: Artifact) {
    var stored := Identity(a.artifactType, a.name, a.version, a.descriptorSha, a.lineage);
    ArtifactId(env, stored) == ArtifactId(env, identity) ==> stored == identity
  }

  /** A registration: refused with nothing changed, or answered with the row of its artifact, which is appended if
      the id is new and otherwise the verified row stored before. */
  ghost predicate RegisteredAs(
    env: Env, seen: Table, before: Table, after: Table, req: Request, now: string, r: Result<Artifact>)
  {
    && (r.Ok? <==> Acceptable(env, seen, req))
    && (r.Err? ==> after == before)
    && (r.Ok? && after != before ==>
          after == before + [r.value] && RowFor(env, req, now, r.value) && !Holds(before, r.value.id))
    && (r.Ok? && after == before ==>
          r.value in before && Verified(env, r.value) && SameArtifact(env, req, r.value))
  }

  lemma FindHolds(table: Table, id: string)
    ensures Find(table, id).Some? <==> Holds(table, id)
  {
  }

  lemma LineageHeld(env: Env, seen: Table, raw: seq<string>)
    requires Texts(env, raw).Ok?
    ensures AllRegistered(seen, Texts(env, raw).value) <==>
      forall i | 0 <= i < |raw| :: Holds(seen, env.strip(raw[i]))
  {
    TextsAreClean(env, raw);
    var xs, ys := Stripped(env, raw), Texts(env, raw).value;
    var f: seq<nat> :| FirstOccurrences(xs, ys, f);
    if AllRegistered(seen, ys) {
      forall i | 0 <= i < |raw| ensures Holds(seen, env.strip(raw[i])) {
        assert xs[i] in xs;
        var k :| 0 <= k < |ys| && ys[k] == xs[i];
        FindHolds(seen, ys[k]);
      }
    }
    if forall i | 0 <= i < |raw| :: Holds(seen, env.strip(raw[i])) {
      forall k | 0 <= k < |ys| ensures Find(seen, ys[k]).Some? {
        assert FirstAt(xs, ys[k], f[k]);
        assert xs[f[k]] == env.strip(raw[f[k]]);
        FindHolds(seen, ys[k]);
      }
    }
  }

  /** Validation accepts exactly the acceptable requests, and reads the identity and status off their fields. */
  lemma ValidateReads(env: Env, seen: Table, req: Request)
    ensures Validate(env, seen, req).Ok? <==> Acceptable(env, seen, req)
    ensures Validate(env, seen, req).Ok? ==>
      var claim := Validate(env, seen, req).value;
      && IdentifiedBy(env, req, claim.identity) && claim.status == env.upper(env.strip(req.status))
      && claim.descriptor == req.descriptor.value
  {
    CleanIsBounded(env, req.artifactType, 32);
    CleanIsBounded(env, req.name, 120);
    CleanIsBounded(env, req.version, 64);
    CleanIsBounded(env, req.status, 32);
    TextsAreClean(env, req.lineage);
    if Texts(env, req.lineage).Ok? { LineageHeld(env, seen, req.lineage); }
  }

  lemma IdNamesIdentity(env: Env, identity: Identity)
    requires KnownType(identity.artifactType)
    ensures NamedAfter(env, identity, ArtifactId(env, identity))
  {
    assert PrefixOf(identity.artifactType, Prefix(identity.artifactType));
  }

  lemma AttestedRow(env: Env, seen: Table, req: Request, now: string)
    requires Validate(env, seen, req).Ok?
    ensures RowFor(env, req, now, Attest(env, Validate(env, seen, req).value, now))
  {
    ValidateReads(env, seen, req);
    IdNamesIdentity(env, Validate(env, seen, req).value.identity);
  }

  lemma StoredRow(env: Env, seen: Table, req: Request, a: Artifact)
    requires Validate(env, seen, req).Ok? && Verified(env, a)
    requires a.id == ArtifactId(env, Validate(env, seen, req).value.identity)
    ensures SameArtifact(env, req, a)
  {
    var identity := Validate(env, seen, req).value.identity;
    ValidateReads(env, seen, req);
    IdNamesIdentity(env, identity);
    assert Identity(a.artifactType, a.name, a.version, a.descriptorSha, a.lineage) == IdentityOf(env, a);
  }

  /** Every registration on an honest registry, from however old a view, stores and returns what its request says. */
  lemma RegistrationIsLawful(env: Env, seen: Table, table: Table, req: Request, now: string)
    requires RegistryOk(env, table) && seen <= table
    ensures var (after, r) := Register(env, seen, table, req, now);
      RegisteredAs(env, seen, table, after, req, now, r)
  {
    var (after, r) := Register(env, seen, table, req, now);
    ValidateReads(env, seen, req);
    RegisterKeeps(env, seen, table, req, now);
    if r.Ok? {
      var claim := Validate(env, seen, req).value;
      if after == table {
        StoredRow(env, seen, req, r.value);
      } else {
        AttestedRow(env, seen, req, now);
        FindHolds(table, r.value.id);
      }
    }
  }
}
