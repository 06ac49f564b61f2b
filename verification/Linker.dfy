/** Fusing several signal families into one activity-link score. */
module Linker {
  import opened Numbers
  import opened Order
  import opened Similarity

  // ---- rounding and set overlap ----

  /** The nearest integer, ties to even. */
  function Nearest(y: real): int {
    var k := y.Floor;
    var frac := y - k as real;
    if frac < 0.5 || (frac == 0.5 && k % 2 == 0) then k else k + 1
  }

  function Scaled(x: real, scale: nat): real { x * scale as real }

  /** Python's `round` to multiples of 1/scale. */
  function RoundTo(x: real, scale: nat): real
    requires scale > 0
  {
    Nearest(Scaled(x, scale)) as real / scale as real
  }

  lemma NearestKeepsBound(y: real, m: int)
    ensures y <= m as real ==> Nearest(y) <= m
    ensures y >= m as real ==> Nearest(y) >= m
  {
    assert y.Floor as real <= y < y.Floor as real + 1.0;
  }

  lemma RoundedIsWhole(x: real, scale: nat)
    requires scale > 0
    ensures Scaled(RoundTo(x, scale), scale) == Nearest(Scaled(x, scale)) as real
  {
    QuotientBack(Nearest(Scaled(x, scale)) as real, scale as real);
  }

  /** A bound that is itself a multiple of 1/scale survives rounding. */
  lemma RoundKeepsBound(x: real, m: int, scale: nat)
    requires scale > 0
    ensures Scaled(x, scale) <= m as real ==> Scaled(RoundTo(x, scale), scale) <= m as real
    ensures Scaled(x, scale) >= m as real ==> Scaled(RoundTo(x, scale), scale) >= m as real
  {
    NearestKeepsBound(Scaled(x, scale), m);
    RoundedIsWhole(x, scale);
  }

  function Jaccard(a: set<string>, b: set<string>): real {
    if a + b == {} then 0.0 else |a * b| as real / |a + b| as real
  }

  lemma JaccardLaws(a: set<string>, b: set<string>)
    ensures Jaccard(a, b) == Jaccard(b, a)
    ensures 0.0 <= Jaccard(a, b) <= 1.0
    ensures Jaccard(a, b) == 1.0 <==> a != {} && a == b
  {
    assert a * b == b * a && a + b == b + a;
    if a + b != {} {
      SubsetSize(a * b, a + b);
      Fractions(0.0, |a * b| as real, |a + b| as real);
      if a * b == a + b {
        assert a <= a * b && b <= a * b;
      }
    }
  }

  // ---- signal families ----

  datatype Family = Source | Infrastructure | Transport | Tooling | Behavior | Deception

  const FAMILIES: seq<Family> := [Source, Infrastructure, Transport, Tooling, Behavior, Deception]

  /** `weight * reliability * (1 - 0.5 * spoofability)`. */
  function Discounted(weight: real, reliability: real, spoofability: real): real {
    weight * reliability * (1.0 - 0.5 * spoofability)
  }

  function EffectiveWeight(f: Family): (w: real)
    ensures w > 0.0
  {
    match f
    case Source => Discounted(0.06, 0.45, 0.78)
    case Infrastructure => Discounted(0.13, 0.58, 0.58)
    case Transport => Discounted(0.20, 0.78, 0.34)
    case Tooling => Discounted(0.17, 0.68, 0.46)
    case Behavior => Discounted(0.24, 0.72, 0.40)
    case Deception => Discounted(0.20, 0.90, 0.14)
  }

  datatype Profile = Profile(signals: map<Family, set<string>>, eventTypes: seq<string>) {
    function Signal(f: Family): set<string> { if f in signals then signals[f] else {} }
  }

  // ---- reading a profile from events ----

  /** A payload value. Strings, numbers and booleans are scalars, given by their Python text; an object is `Opaque`. */
  datatype Value = Absent | Scalar(text: string) | Many(items: seq<Value>) | Opaque

  datatype Event = Event(eventType: string, payload: map<string, Value>, target: Value)

  /** Python's `strip` and `lower`, the IP-address parser, and the technique table. */
  datatype Reader = Reader(
    strip: string -> string, lower: string -> string, isAddress: string -> bool, techniqueOf: string -> string)

  const MAX_REFERENCE: nat := 160
  const MAX_ROUTE: nat := 100
  const MAX_ROUTES: nat := 12

  /** `_bounded_reference`: a short non-empty scalar, normalised, and never a raw address. */
  function Reference(reader: Reader, v: Value, maximum: nat): (r: Option<string>)
    ensures r.Some? ==> 0 < |r.value| <= maximum && !reader.isAddress(r.value)
  {
    if !v.Scalar? then None
    else
      var text := reader.lower(reader.strip(v.text));
      if text == "" || |text| > maximum || reader.isAddress(text) then None else Some(text)
  }

  /** `_values`: a list as it is, nothing for a missing field, otherwise the one value. */
  function Values(payload: map<string, Value>, field: string): seq<Value> {
    if field !in payload || payload[field].Absent? then []
    else if payload[field].Many? then payload[field].items
    else [payload[field]]
  }

  /** `FIELD_FAMILIES`; behaviour has no fields of its own. */
  function Fields(f: Family): seq<string> {
    match f
    case Source => ["source_ref"]
    case Infrastructure => ["provider_ref", "asn_ref", "domain_cluster_ref", "certificate_ref"]
    case Transport => ["transport_fingerprint", "tls_client_ref", "ssh_client_ref"]
    case Tooling => ["client_fingerprint", "toolchain_ref", "user_agent_ref"]
    case Deception => ["lure_family_ref", "canary_family_ref"]
    case Behavior => []
  }

  /** The tags `prefix:reference` of the values that have a reference. */
  function ValueTags(reader: Reader, prefix: string, vs: seq<Value>, maximum: nat): set<string> {
    set i | 0 <= i < |vs| && Reference(reader, vs[i], maximum).Some? ::
      prefix + ":" + Reference(reader, vs[i], maximum).value
  }

  function TagsAt(reader: Reader, e: Event, fields: seq<string>, k: nat): set<string>
    requires k < |fields|
  {
    ValueTags(reader, fields[k], Values(e.payload, fields[k]), MAX_REFERENCE)
  }

  ghost function FieldTags(reader: Reader, e: Event, fields: seq<string>): set<string> {
    set k, tag | 0 <= k < |fields| && tag in TagsAt(reader, e, fields, k) :: tag
  }

  const TARGET_FAMILIES: seq<string> := ["edge", "bastion", "admin", "inventory", "finance", "identity"]

  /** Python's `part in text`. */
  predicate Contains(text: string, part: string) {
    exists i | 0 <= i <= |text| :: part <= text[i..]
  }

  /** The first target family named in the target, as a tag. */
  function TargetTags(reader: Reader, e: Event): set<string> {
    var target := Reference(reader, e.target, MAX_REFERENCE);
    if target.None? then {} else FirstNamed(target.value, TARGET_FAMILIES)
  }

  function FirstNamed(text: string, families: seq<string>): set<string> {
    if families == [] then {}
    else if Contains(text, families[0]) then {"target-family:" + families[0]}
    else FirstNamed(text, families[1..])
  }

  /** At most the first twelve entries of a `routes` list. */
  function Routes(e: Event): seq<Value> {
    if "routes" !in e.payload || !e.payload["routes"].Many? then []
    else
      var items := e.payload["routes"].items;
      if |items| <= MAX_ROUTES then items else items[..MAX_ROUTES]
  }

  function BehaviorTags(reader: Reader, e: Event): set<string> {
    {"technique:" + reader.lower(reader.techniqueOf(e.eventType)), "event:" + reader.lower(e.eventType)}
    + TargetTags(reader, e) + ValueTags(reader, "route", Routes(e), MAX_ROUTE)
  }

  /** What one event contributes to a family. */
  ghost function EventTags(reader: Reader, e: Event, f: Family): set<string> {
    FieldTags(reader, e, Fields(f)) + if f == Behavior then BehaviorTags(reader, e) else {}
  }

  ghost function Tags(reader: Reader, es: seq<Event>, f: Family): set<string> {
    if es == [] then {} else Tags(reader, es[..|es| - 1], f) + EventTags(reader, es[|es| - 1], f)
  }

  function Types(es: seq<Event>): (r: seq<string>)
    ensures |r| == |es|
  {
    if es == [] then [] else Types(es[..|es| - 1]) + [es[|es| - 1].eventType]
  }

  /** The tags collected for a family so far. */
  function Collected(signals: map<Family, set<string>>, f: Family): set<string> {
    if f in signals then signals[f] else {}
  }

  method ExtractProfile(reader: Reader, events: seq<Event>) returns (p: Profile)
    ensures p.eventTypes == Types(events)
    ensures forall f :: p.Signal(f) == Tags(reader, events, f)
  {
    var signals: map<Family, set<string>> := map f: Family | f in FAMILIES :: {};
    var types: seq<string> := [];
    for i := 0 to |events|
      invariant forall f: Family :: Collected(signals, f) == Tags(reader, events[..i], f)
      invariant types == Types(events[..i])
    {
      types := types + [events[i].eventType];
      signals := AddEvent(reader, signals, events[i]);
      assert events[..i + 1][..i] == events[..i];
    }
    assert events[..|events|] == events;
    p := Profile(signals, types);
    forall f: Family ensures p.Signal(f) == Tags(reader, events, f) { assert Collected(signals, f) == p.Signal(f); }
  }

  method AddEvent(reader: Reader, before: map<Family, set<string>>, event: Event)
    returns (signals: map<Family, set<string>>)
    ensures forall f: Family :: Collected(signals, f) == Collected(before, f) + EventTags(reader, event, f)
  {
    signals := AddFields(reader, before, event);
    signals := Extend(signals, Behavior, BehaviorTags(reader, event));
  }

  method AddFields(reader: Reader, before: map<Family, set<string>>, event: Event)
    returns (signals: map<Family, set<string>>)
    ensures forall f: Family :: Collected(signals, f) == Collected(before, f) + FieldTags(reader, event, Fields(f))
  {
    signals := before;
    for k := 0 to |FAMILIES|
      invariant forall f: Family ::
        Collected(signals, f) ==
          Collected(before, f) + if Position(f) < k then FieldTags(reader, event, Fields(f)) else {}
    {
      var family := FAMILIES[k];
      PositionOf(k);
      var tags := CollectFields(reader, event, Fields(family));
      signals := Extend(signals, family, tags);
    }
  }

  lemma PositionOf(k: nat)
    requires k < |FAMILIES|
    ensures forall f: Family :: f == FAMILIES[k] <==> Position(f) == k
  {
  }

  /** Where a family stands in the list. */
  function Position(f: Family): (k: nat)
    ensures k < |FAMILIES| && FAMILIES[k] == f
  {
    match f
    case Source => 0
    case Infrastructure => 1
    case Transport => 2
    case Tooling => 3
    case Behavior => 4
    case Deception => 5
  }

  function Extend(signals: map<Family, set<string>>, g: Family, tags: set<string>): (r: map<Family, set<string>>)
    ensures forall f: Family :: Collected(r, f) == Collected(signals, f) + if f == g then tags else {}
  {
    signals[g := Collected(signals, g) + tags]
  }

  method CollectFields(reader: Reader, event: Event, fields: seq<string>) returns (tags: set<string>)
    ensures tags == FieldTags(reader, event, fields)
  {
    tags := {};
    for k := 0 to |fields|
      invariant tags == FieldTags(reader, event, fields[..k])
    {
      var more := CollectValues(reader, fields[k], Values(event.payload, fields[k]));
      FieldTagsSnoc(reader, event, fields, k);
      tags := tags + more;
    }
    assert fields[..|fields|] == fields;
  }

  lemma FieldTagsSnoc(reader: Reader, e: Event, fields: seq<string>, k: nat)
    requires k < |fields|
    ensures FieldTags(reader, e, fields[..k + 1]) ==
      FieldTags(reader, e, fields[..k]) + ValueTags(reader, fields[k], Values(e.payload, fields[k]), MAX_REFERENCE)
  {
    var less, more := fields[..k], fields[..k + 1];
    forall j | 0 <= j < k ensures TagsAt(reader, e, less, j) == TagsAt(reader, e, more, j) { }
    assert TagsAt(reader, e, more, k) == ValueTags(reader, fields[k], Values(e.payload, fields[k]), MAX_REFERENCE);
    forall tag | tag in FieldTags(reader, e, less) ensures tag in FieldTags(reader, e, more) {
      var j :| 0 <= j < k && tag in TagsAt(reader, e, less, j);
      assert tag in TagsAt(reader, e, more, j);
    }
    forall tag | tag in FieldTags(reader, e, more) && tag !in TagsAt(reader, e, more, k)
      ensures tag in FieldTags(reader, e, less)
    {
      var j :| 0 <= j < k + 1 && tag in TagsAt(reader, e, more, j);
      assert tag in TagsAt(reader, e, less, j);
    }
  }

  method CollectValues(reader: Reader, prefix: string, vs: seq<Value>) returns (tags: set<string>)
    ensures tags == ValueTags(reader, prefix, vs, MAX_REFERENCE)
  {
    tags := {};
    for i := 0 to |vs|
      invariant tags == ValueTags(reader, prefix, vs[..i], MAX_REFERENCE)
    {
      var reference := Reference(reader, vs[i], MAX_REFERENCE);
      ValueTagsSnoc(reader, prefix, vs, i, MAX_REFERENCE);
      if reference.Some? {
        tags := tags + {prefix + ":" + reference.value};
      }
    }
    assert vs[..|vs|] == vs;
  }

  lemma ValueTagsSnoc(reader: Reader, prefix: string, vs: seq<Value>, i: nat, maximum: nat)
    requires i < |vs|
    ensures ValueTags(reader, prefix, vs[..i + 1], maximum) == ValueTags(reader, prefix, vs[..i], maximum) +
      (if Reference(reader, vs[i], maximum).Some? then {prefix + ":" + Reference(reader, vs[i], maximum).value} else {})
  {
    var a, b := vs[..i], vs[..i + 1];
    assert forall j | 0 <= j < i :: a[j] == b[j];
    assert b[i] == vs[i];
  }

  predicate ReferenceLike(reader: Reader, text: string) { 0 < |text| <= MAX_REFERENCE && !reader.isAddress(text) }

  /** Every tag of a field carries a normalised reference: raw addresses never enter a profile through a field. */
  lemma FieldTagsAreReferences(reader: Reader, e: Event, fields: seq<string>, tag: string)
    requires tag in FieldTags(reader, e, fields)
    ensures exists k, reference | 0 <= k < |fields| && ReferenceLike(reader, reference) ::
      tag == fields[k] + ":" + reference
  {
    var k :| 0 <= k < |fields| && tag in TagsAt(reader, e, fields, k);
    var vs := Values(e.payload, fields[k]);
    var i :| 0 <= i < |vs| && Reference(reader, vs[i], MAX_REFERENCE).Some?
      && tag == fields[k] + ":" + Reference(reader, vs[i], MAX_REFERENCE).value;
    assert ReferenceLike(reader, Reference(reader, vs[i], MAX_REFERENCE).value);
  }

  // ---- one family ----

  datatype FamilyResult = FamilyResult(
    family: Family, available: bool, similarity: real, sequenceSimilarity: Option<real>, matched: bool, divergent: bool)

  ghost function ResultOf(f: Family, l: Profile, r: Profile): FamilyResult {
    var a, b := l.Signal(f), r.Signal(f);
    var available := a != {} && b != {};
    var overlap := if available then Jaccard(a, b) else 0.0;
    var sequence := if f == Behavior && available then Some(Score(l.eventTypes, r.eventTypes)) else None;
    var similarity := if sequence.Some? then 0.65 * overlap + 0.35 * sequence.value else overlap;
    FamilyResult(f, available, similarity, sequence, available && similarity >= 0.28, available && similarity == 0.0)
  }

  method EvaluateFamily(f: Family, l: Profile, r: Profile) returns (result: FamilyResult)
    ensures result == ResultOf(f, l, r)
  {
    var a, b := l.Signal(f), r.Signal(f);
    var available := a != {} && b != {};
    var similarity := if available then Jaccard(a, b) else 0.0;
    var sequence := None;
    if f == Behavior && available {
      var s := RollingRowSimilarity(l.eventTypes, r.eventTypes);
      sequence := Some(s);
      similarity := 0.65 * similarity + 0.35 * s;
    }
    result := FamilyResult(
      f, available, similarity, sequence, available && similarity >= 0.28, available && similarity == 0.0);
  }

  lemma ResultLaws(f: Family, l: Profile, r: Profile)
    ensures ResultOf(f, l, r) == ResultOf(f, r, l)
    ensures 0.0 <= ResultOf(f, l, r).similarity <= 1.0
  {
    JaccardLaws(l.Signal(f), r.Signal(f));
    ScoreLaws(l.eventTypes, r.eventTypes);
  }

  // ---- the raw score ----

  function Available(): FamilyResult -> real {
    (r: FamilyResult) => if r.available then EffectiveWeight(r.family) else 0.0
  }

  function Agreed(): FamilyResult -> real {
    (r: FamilyResult) => if r.available then EffectiveWeight(r.family) * r.similarity else 0.0
  }

  function Penalty(): FamilyResult -> real {
    (r: FamilyResult) => if !r.divergent then 0.0 else if r.family == Source then 0.012 else 0.04
  }

  function MatchedFamilies(rs: seq<FamilyResult>): seq<Family> {
    if rs == [] then []
    else MatchedFamilies(rs[..|rs| - 1]) + (if rs[|rs| - 1].matched then [rs[|rs| - 1].family] else [])
  }

  function DivergentFamilies(rs: seq<FamilyResult>): seq<Family> {
    if rs == [] then []
    else DivergentFamilies(rs[..|rs| - 1]) + (if rs[|rs| - 1].divergent then [rs[|rs| - 1].family] else [])
  }

  ghost function Results(fs: seq<Family>, l: Profile, r: Profile): (rs: seq<FamilyResult>)
    ensures |rs| == |fs| && forall i | 0 <= i < |fs| :: rs[i] == ResultOf(fs[i], l, r)
  {
    if fs == [] then [] else Results(fs[..|fs| - 1], l, r) + [ResultOf(fs[|fs| - 1], l, r)]
  }

  datatype RawScore = RawScore(
    raw: real, evidence: real, bonus: real, penalty: real,
    matched: seq<Family>, divergent: seq<Family>, families: seq<FamilyResult>)

  function Clamp(x: real): real {
    var y := if x > 0.0 then x else 0.0;
    if y < 1.0 then y else 1.0
  }

  function Bonus(matched: nat): real {
    var extra := if matched >= 1 then matched - 1 else 0;
    if extra as real * 0.025 < 0.10 then extra as real * 0.025 else 0.10
  }

  function Fuse(rs: seq<FamilyResult>, available: real, agreed: real, penalty: real): RawScore {
    var evidence := if available != 0.0 then agreed / available else 0.0;
    var matched := MatchedFamilies(rs);
    var bonus := Bonus(|matched|);
    RawScore(Clamp(evidence + bonus - penalty), evidence, bonus, penalty, matched, DivergentFamilies(rs), rs)
  }

  /** The score before display rounding. */
  ghost function RawOf(l: Profile, r: Profile): RawScore {
    var rs := Results(FAMILIES, l, r);
    Fuse(rs, Total(rs, Available()), Total(rs, Agreed()), Total(rs, Penalty()))
  }

  method ComputeRawScore(l: Profile, r: Profile) returns (s: RawScore)
    ensures s == RawOf(l, r)
  {
    var rs, available, agreed, penalty := Accumulate(FAMILIES, l, r);
    s := Fuse(rs, available, agreed, penalty);
  }

  /** The accumulator updates for one family. */
  method AddResult(ghost rs: seq<FamilyResult>, x: FamilyResult, available: real, matched: real, penalty: real)
    returns (available': real, matched': real, penalty': real)
    requires available == Total(rs, Available()) && matched == Total(rs, Agreed()) && penalty == Total(rs, Penalty())
    ensures available' == Total(rs + [x], Available()) && matched' == Total(rs + [x], Agreed())
    ensures penalty' == Total(rs + [x], Penalty())
  {
    TotalSnoc(rs, x, Available());
    TotalSnoc(rs, x, Agreed());
    TotalSnoc(rs, x, Penalty());
    available', matched', penalty' := available, matched, penalty;
    if x.available {
      available' := available + EffectiveWeight(x.family);
      matched' := matched + EffectiveWeight(x.family) * x.similarity;
    }
    if x.divergent {
      penalty' := penalty + (if x.family == Source then 0.012 else 0.04);
    }
  }

  method Accumulate(fs: seq<Family>, l: Profile, r: Profile)
    returns (rs: seq<FamilyResult>, availableWeight: real, matchedWeight: real, penalty: real)
    ensures rs == Results(fs, l, r)
    ensures availableWeight == Total(rs, Available()) && matchedWeight == Total(rs, Agreed())
    ensures penalty == Total(rs, Penalty())
  {
    availableWeight, matchedWeight, penalty := 0.0, 0.0, 0.0;
    rs := [];
    for i := 0 to |fs|
      invariant rs == Results(fs[..i], l, r)
      invariant availableWeight == Total(rs, Available())
      invariant matchedWeight == Total(rs, Agreed())
      invariant penalty == Total(rs, Penalty())
    {
      assert fs[..i + 1][..i] == fs[..i];
      var result := EvaluateFamily(fs[i], l, r);
      availableWeight, matchedWeight, penalty := AddResult(rs, result, availableWeight, matchedWeight, penalty);
      rs := rs + [result];
    }
    assert fs[..|fs|] == fs;
  }

  /** The raw score does not depend on which profile is called left. */
  lemma RawSymmetric(l: Profile, r: Profile)
    ensures RawOf(l, r) == RawOf(r, l)
  {
    var a, b := Results(FAMILIES, l, r), Results(FAMILIES, r, l);
    forall i | 0 <= i < |FAMILIES| ensures a[i] == b[i] { ResultLaws(FAMILIES[i], l, r); }
    assert a == b;
  }

  lemma ConvexQuotient(agreed: real, available: real)
    requires 0.0 <= agreed <= available && available > 0.0
    ensures 0.0 <= agreed / available <= 1.0
  {
    Fractions(0.0, agreed, available);
  }

  lemma ScaleDown(w: real, s: real)
    requires w > 0.0 && 0.0 <= s <= 1.0
    ensures 0.0 <= w * s <= w
  {
  }

  lemma {:induction false} AgreedBounded(rs: seq<FamilyResult>)
    requires forall x | x in rs :: 0.0 <= x.similarity <= 1.0
    ensures 0.0 <= Total(rs, Agreed()) <= Total(rs, Available())
    ensures Total(rs, Penalty()) >= 0.0
  {
    if rs != [] {
      assert rs[0] in rs;
      AgreedBounded(rs[1..]);
      ScaleDown(EffectiveWeight(rs[0].family), rs[0].similarity);
    }
  }

  /** The evidence score is a weighted mean of similarities in [0, 1]; so is the raw score in range. */
  lemma RawInRange(l: Profile, r: Profile)
    ensures 0.0 <= RawOf(l, r).evidence <= 1.0
    ensures 0.0 <= RawOf(l, r).raw <= 1.0
    ensures 0.0 <= RawOf(l, r).bonus <= 0.10 && RawOf(l, r).penalty >= 0.0
  {
    var rs := Results(FAMILIES, l, r);
    forall x | x in rs ensures 0.0 <= x.similarity <= 1.0 {
      var i :| 0 <= i < |rs| && rs[i] == x;
      ResultLaws(FAMILIES[i], l, r);
    }
    AgreedBounded(rs);
    if Total(rs, Available()) != 0.0 { ConvexQuotient(Total(rs, Agreed()), Total(rs, Available())); }
  }

  lemma SelfResult(f: Family, p: Profile)
    requires p.eventTypes != []
    ensures var x := ResultOf(f, p, p); (x.available ==> x.similarity == 1.0) && !x.divergent
  {
    JaccardLaws(p.Signal(f), p.Signal(f));
    ScoreLaws(p.eventTypes, p.eventTypes);
  }

  lemma {:induction false} SelfTotals(rs: seq<FamilyResult>)
    requires forall x | x in rs :: (x.available ==> x.similarity == 1.0) && !x.divergent
    ensures Total(rs, Agreed()) == Total(rs, Available()) && Total(rs, Penalty()) == 0.0
    ensures (exists x :: x in rs && x.available) ==> Total(rs, Available()) > 0.0
    ensures Total(rs, Available()) >= 0.0
  {
    if rs != [] {
      assert rs[0] in rs;
      SelfTotals(rs[1..]);
      assert forall x | x in rs :: x == rs[0] || x in rs[1..];
    }
  }

  lemma BehaviorIsTagged(reader: Reader, events: seq<Event>)
    requires events != []
    ensures Tags(reader, events, Behavior) != {}
  {
    var last := events[|events| - 1];
    assert "event:" + reader.lower(last.eventType) in BehaviorTags(reader, last);
  }

  /** A profile of at least one event is a perfect match for itself. */
  lemma SelfScoreIsOne(reader: Reader, events: seq<Event>, p: Profile)
    requires events != [] && p.eventTypes == Types(events) && forall f :: p.Signal(f) == Tags(reader, events, f)
    ensures RawOf(p, p).raw == 1.0 && RawOf(p, p).evidence == 1.0
  {
    BehaviorIsTagged(reader, events);
    PerfectWithItself(p);
  }

  lemma PerfectWithItself(p: Profile)
    requires p.eventTypes != [] && p.Signal(Behavior) != {}
    ensures RawOf(p, p).raw == 1.0 && RawOf(p, p).evidence == 1.0
  {
    var rs := Results(FAMILIES, p, p);
    assert FAMILIES[4] == Behavior && rs[4] == ResultOf(Behavior, p, p) && rs[4].available;
    assert rs[4] in rs;
    forall x | x in rs ensures (x.available ==> x.similarity == 1.0) && !x.divergent {
      var i :| 0 <= i < |rs| && rs[i] == x;
      SelfResult(FAMILIES[i], p);
    }
    SelfTotals(rs);
    var w := Total(rs, Available());
    QuotientAtLeast(w, w, 1.0);
  }

  // ---- the comparison ----

  datatype Strength = HIGH | MODERATE | LOW

  datatype Link = Link(confidence: real, strength: Strength, score: RawScore)

  ghost predicate PositiveExp(exp: real -> real) { forall x :: exp(x) > 0.0 }

  function Probability(exp: real -> real, slope: real, center: real, raw: real): real
    requires 1.0 + exp(-slope * (raw - center)) != 0.0
  {
    1.0 / (1.0 + exp(-slope * (raw - center)))
  }

  /** The diversity gate, the rounding and the grading. */
  function Grade(probability: real, matched: nat): (real, Strength) {
    var capped :=
      if matched < 2 then (if probability < 0.49 then probability else 0.49)
      else if matched < 3 then (if probability < 0.69 then probability else 0.69)
      else probability;
    var confidence := RoundTo(capped, 10_000);
    (confidence,
      if confidence >= 0.75 && matched >= 3 then HIGH
      else if confidence >= 0.50 && matched >= 2 then MODERATE
      else LOW)
  }

  ghost function LinkOf(exp: real -> real, slope: real, center: real, l: Profile, r: Profile): Link
    requires PositiveExp(exp)
  {
    var score := RawOf(l, r);
    assert exp(-slope * (RoundTo(score.raw, 1_000_000) - center)) > 0.0;
    var (confidence, strength) :=
      Grade(Probability(exp, slope, center, RoundTo(score.raw, 1_000_000)), |score.matched|);
    Link(confidence, strength, score)
  }

  method Compare(exp: real -> real, slope: real, center: real, l: Profile, r: Profile) returns (link: Link)
    requires PositiveExp(exp)
    ensures link == LinkOf(exp, slope, center, l, r)
  {
    var score := ComputeRawScore(l, r);
    assert exp(-slope * (RoundTo(score.raw, 1_000_000) - center)) > 0.0;
    var probability := Probability(exp, slope, center, RoundTo(score.raw, 1_000_000));
    var (confidence, strength) := Grade(probability, |score.matched|);
    link := Link(confidence, strength, score);
  }

  lemma ProbabilityInRange(exp: real -> real, slope: real, center: real, raw: real)
    requires PositiveExp(exp)
    ensures 1.0 + exp(-slope * (raw - center)) != 0.0 && 0.0 <= Probability(exp, slope, center, raw) <= 1.0
  {
    var d := 1.0 + exp(-slope * (raw - center));
    assert exp(-slope * (raw - center)) > 0.0;
    Fractions(0.0, 1.0, d);
  }

  /** No link rests on one easily copied signal: with fewer than two matched families the confidence stays at or
      below 0.49 and the grade is LOW, with exactly two it stays at or below 0.69 and is not HIGH, and the caps
      survive rounding. HIGH means at least three matched families and confidence of at least 0.75. The verdict is
      symmetric, and confidence is a probability. */
  lemma DiversityGate(exp: real -> real, slope: real, center: real, l: Profile, r: Profile)
    requires PositiveExp(exp)
    ensures var link, n := LinkOf(exp, slope, center, l, r), |RawOf(l, r).matched|;
      && (n < 2 ==> link.confidence <= 0.49 && link.strength == LOW)
      && (n == 2 ==> link.confidence <= 0.69 && link.strength != HIGH)
      && (link.strength == HIGH <==> n >= 3 && link.confidence >= 0.75)
      && 0.0 <= link.confidence <= 1.0
      && link == LinkOf(exp, slope, center, r, l)
  {
    var raw := RoundTo(RawOf(l, r).raw, 1_000_000);
    RawSymmetric(l, r);
    ProbabilityInRange(exp, slope, center, raw);
    GateCaps(Probability(exp, slope, center, raw), |RawOf(l, r).matched|);
  }

  lemma GateCaps(probability: real, n: nat)
    requires 0.0 <= probability <= 1.0
    ensures var (confidence, strength) := Grade(probability, n);
      && 0.0 <= confidence <= 1.0
      && (n < 2 ==> confidence <= 0.49) && (n == 2 ==> confidence <= 0.69)
  {
    if n < 2 { CapSurvivesRounding(if probability < 0.49 then probability else 0.49, 4_900); }
    else if n < 3 { CapSurvivesRounding(if probability < 0.69 then probability else 0.69, 6_900); }
    else { CapSurvivesRounding(probability, 10_000); }
  }

  lemma CapSurvivesRounding(x: real, cap: nat)
    requires 0.0 <= x * 10000.0 <= cap as real
    ensures 0.0 <= RoundTo(x, 10_000) * 10000.0 <= cap as real
  {
    RoundKeepsBound(x, 0, 10_000);
    RoundKeepsBound(x, cap, 10_000);
  }

  // ---- aegis/investigation.py: comparing two cases ----

  datatype CaseFeatures = CaseFeatures(
    techniques: seq<string>, eventTypes: seq<string>, targets: seq<string>, fingerprints: seq<string>)

  ghost function CaseConfidence(l: CaseFeatures, r: CaseFeatures): real {
    0.45 * Jaccard(SetOf(l.techniques), SetOf(r.techniques))
    + 0.25 * Score(l.eventTypes, r.eventTypes)
    + 0.15 * Jaccard(SetOf(l.targets), SetOf(r.targets))
    + 0.15 * (if l.fingerprints != [] && r.fingerprints != []
              then Jaccard(SetOf(l.fingerprints), SetOf(r.fingerprints)) else 0.0)
  }

  method CompareCases(l: CaseFeatures, r: CaseFeatures) returns (confidence: real)
    ensures confidence == CaseConfidence(l, r)
  {
    var technique := Jaccard(SetOf(l.techniques), SetOf(r.techniques));
    var target := Jaccard(SetOf(l.targets), SetOf(r.targets));
    var sequence := MatrixSimilarity(l.eventTypes, r.eventTypes);
    var fingerprint := if l.fingerprints != [] && r.fingerprints != []
      then Jaccard(SetOf(l.fingerprints), SetOf(r.fingerprints)) else 0.0;
    confidence := 0.45 * technique + 0.25 * sequence + 0.15 * target + 0.15 * fingerprint;
  }

  /** Case confidence is symmetric, in [0, 1], and 1 exactly when all four features are present and agree. */
  lemma CaseConfidenceLaws(l: CaseFeatures, r: CaseFeatures)
    ensures CaseConfidence(l, r) == CaseConfidence(r, l)
    ensures 0.0 <= CaseConfidence(l, r) <= 1.0
    ensures CaseConfidence(l, r) == 1.0 <==>
      && l.techniques != [] && SetOf(l.techniques) == SetOf(r.techniques)
      && l.eventTypes != [] && l.eventTypes == r.eventTypes
      && l.targets != [] && SetOf(l.targets) == SetOf(r.targets)
      && l.fingerprints != [] && SetOf(l.fingerprints) == SetOf(r.fingerprints)
  {
    JaccardLaws(SetOf(l.techniques), SetOf(r.techniques));
    JaccardLaws(SetOf(l.targets), SetOf(r.targets));
    JaccardLaws(SetOf(l.fingerprints), SetOf(r.fingerprints));
    ScoreLaws(l.eventTypes, r.eventTypes);
    NonEmptySet(l.techniques);
    NonEmptySet(l.targets);
    NonEmptySet(l.fingerprints);
    NonEmptySet(r.fingerprints);
  }

  lemma NonEmptySet(s: seq<string>)
    ensures s != [] <==> SetOf(s) != {}
  {
    if s != [] { assert s[0] in SetOf(s); }
  }
}
