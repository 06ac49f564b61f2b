/** What a link between two activity profiles rests on, family by family, and what a profile is read from. */
module LinkLaws {
  import opened Numbers
  import opened Order
  import opened Similarity
  import opened Linker

  // ---- when two profiles share evidence in a family ----

  /** Both profiles carry tags of the family. */
  ghost predicate Compared(f: Family, l: Profile, r: Profile) { l.Signal(f) != {} && r.Signal(f) != {} }

  ghost function Common(f: Family, l: Profile, r: Profile): real { |l.Signal(f) * r.Signal(f)| as real }

  ghost function Together(f: Family, l: Profile, r: Profile): real { |l.Signal(f) + r.Signal(f)| as real }

  /** `q` is the share of the tags that both carry. */
  ghost predicate Overlap(f: Family, l: Profile, r: Profile, q: real) {
    q * Together(f, l, r) == Common(f, l, r)
  }

  /** Behaviour also compares the order of the events; the other families compare tags alone. */
  ghost predicate Likeness(f: Family, l: Profile, r: Profile, x: real) {
    exists q :: Overlap(f, l, r, q) && x == if f == Behavior then 0.65 * q + 0.35 * Score(l.eventTypes, r.eventTypes)
                                            else q
  }

  ghost predicate SharesEvidence(f: Family, l: Profile, r: Profile) {
    Compared(f, l, r) && exists x :: Likeness(f, l, r, x) && x >= 0.28
  }

  /** Nothing in common, in a family that both profiles cover. */
  ghost predicate Apart(f: Family, l: Profile, r: Profile) {
    && Compared(f, l, r) && l.Signal(f) !! r.Signal(f)
    && (f == Behavior ==> forall i, j | 0 <= i < |l.eventTypes| && 0 <= j < |r.eventTypes| ::
          l.eventTypes[i] != r.eventTypes[j])
  }

  lemma OverlapIsJaccard(f: Family, l: Profile, r: Profile, q: real)
    requires Compared(f, l, r)
    ensures Overlap(f, l, r, q) <==> q == Jaccard(l.Signal(f), r.Signal(f))
    ensures Jaccard(l.Signal(f), r.Signal(f)) == 0.0 <==> l.Signal(f) !! r.Signal(f)
  {
    var a, b := l.Signal(f), r.Signal(f);
    var x :| x in a;
    assert x in a + b && a + b != {};
    QuotientAtLeast(|a * b| as real, |a + b| as real, q);
    QuotientAtLeast(|a * b| as real, |a + b| as real, 0.0);
    if a * b == {} { forall y | y in a ensures y !in b { assert y !in a * b; } }
  }

  /** The evaluation of one family: it is covered when both profiles carry tags, matched when they share evidence,
      divergent when they share nothing. */
  lemma FamilyDecided(f: Family, l: Profile, r: Profile)
    ensures var x := ResultOf(f, l, r);
      && x.family == f && x.available == Compared(f, l, r)
      && x.matched == SharesEvidence(f, l, r) && x.divergent == Apart(f, l, r)
      && (Compared(f, l, r) ==> forall y :: Likeness(f, l, r, y) <==> y == x.similarity)
  {
    if Compared(f, l, r) {
      var x := ResultOf(f, l, r);
      forall y ensures Likeness(f, l, r, y) <==> y == x.similarity { LikenessIsSimilarity(f, l, r, y); }
      assert Likeness(f, l, r, x.similarity);
      DivergentIsApart(f, l, r);
    }
  }

  lemma LikenessIsSimilarity(f: Family, l: Profile, r: Profile, y: real)
    requires Compared(f, l, r)
    ensures Likeness(f, l, r, y) <==> y == ResultOf(f, l, r).similarity
  {
    var q := Jaccard(l.Signal(f), r.Signal(f));
    forall p ensures Overlap(f, l, r, p) <==> p == q { OverlapIsJaccard(f, l, r, p); }
    assert Overlap(f, l, r, q);
  }

  lemma DivergentIsApart(f: Family, l: Profile, r: Profile)
    requires Compared(f, l, r)
    ensures ResultOf(f, l, r).divergent == Apart(f, l, r)
  {
    ScoreLaws(l.eventTypes, r.eventTypes);
    JaccardLaws(l.Signal(f), r.Signal(f));
    OverlapIsJaccard(f, l, r, 0.0);
    OrderShared(l.eventTypes, r.eventTypes);
  }

  lemma OrderShared(a: seq<string>, b: seq<string>)
    ensures Score(a, b) == 0.0 <==> forall i, j | 0 <= i < |a| && 0 <= j < |b| :: a[i] != b[j]
  {
    LcsIsOptimal(a, b);
    var c :| IsSubsequence(c, a) && IsSubsequence(c, b) && |c| == Lcs(a, b);
    ScoreIsLongest(a, b, c);
  }

  // ---- the score, family by family ----

  /** The weights after the discounts for reliability and spoofing. */
  function Weight(f: Family): real {
    match f
    case Source => 0.01647
    case Infrastructure => 0.053534
    case Transport => 0.12948
    case Tooling => 0.089012
    case Behavior => 0.13824
    case Deception => 0.1674
  }

  lemma WeightIsEffective(f: Family)
    ensures EffectiveWeight(f) == Weight(f)
  {
  }

  function Bit(b: bool): nat { if b then 1 else 0 }

  /** In how many families the profiles share evidence. */
  ghost function Agreeing(l: Profile, r: Profile): nat { |set f: Family | SharesEvidence(f, l, r)| }

  /** In how many families other than the source they share nothing. */
  ghost function Contradicting(l: Profile, r: Profile): nat {
    Bit(Apart(Infrastructure, l, r)) + Bit(Apart(Transport, l, r)) + Bit(Apart(Tooling, l, r))
    + Bit(Apart(Behavior, l, r)) + Bit(Apart(Deception, l, r))
  }

  /** The likeness of a covered family. */
  ghost function LikenessOf(f: Family, l: Profile, r: Profile): (x: real)
    requires Compared(f, l, r)
    ensures Likeness(f, l, r, x)
  {
    FamilyDecided(f, l, r);
    ResultOf(f, l, r).similarity
  }

  ghost function Covered(f: Family, l: Profile, r: Profile): real { if Compared(f, l, r) then Weight(f) else 0.0 }

  ghost function Carried(f: Family, l: Profile, r: Profile): real {
    if Compared(f, l, r) then Weight(f) * LikenessOf(f, l, r) else 0.0
  }

  ghost function CoveredWeight(l: Profile, r: Profile): real {
    Covered(Source, l, r) + Covered(Infrastructure, l, r) + Covered(Transport, l, r) + Covered(Tooling, l, r)
    + Covered(Behavior, l, r) + Covered(Deception, l, r)
  }

  ghost function CarriedWeight(l: Profile, r: Profile): real {
    Carried(Source, l, r) + Carried(Infrastructure, l, r) + Carried(Transport, l, r) + Carried(Tooling, l, r)
    + Carried(Behavior, l, r) + Carried(Deception, l, r)
  }

  /** Nothing for the first agreeing family, 0.025 for each further one, at most 0.10. */
  ghost predicate BonusLaw(n: nat, bonus: real) {
    bonus == if n <= 1 then 0.0 else if n == 2 then 0.025 else if n == 3 then 0.05 else if n == 4 then 0.075 else 0.10
  }

  /** `y` is `x` brought into [0, 1]. */
  ghost predicate Cut(x: real, y: real) { 0.0 <= y <= 1.0 && (x < y ==> y == 0.0) && (x > y ==> y == 1.0) }

  ghost predicate ScoreLaw(l: Profile, r: Profile, s: RawScore) {
    && (forall f :: f in s.matched <==> SharesEvidence(f, l, r)) && |s.matched| == Agreeing(l, r)
    && (forall f :: f in s.divergent <==> Apart(f, l, r))
    && Average(s.evidence, CarriedWeight(l, r), CoveredWeight(l, r))
    && BonusLaw(Agreeing(l, r), s.bonus)
    && s.penalty == 0.012 * Bit(Apart(Source, l, r)) as real + 0.04 * Contradicting(l, r) as real
    && Cut(s.evidence + s.bonus - s.penalty, s.raw)
  }

  lemma SixTotal(rs: seq<FamilyResult>, f: FamilyResult -> real)
    requires |rs| == 6
    ensures Total(rs, f) == f(rs[0]) + f(rs[1]) + f(rs[2]) + f(rs[3]) + f(rs[4]) + f(rs[5])
  {
    TotalFrom(rs, 0, f);
    TotalFrom(rs, 1, f);
    TotalFrom(rs, 2, f);
    TotalFrom(rs, 3, f);
    TotalFrom(rs, 4, f);
    TotalFrom(rs, 5, f);
    assert rs[0..] == rs && rs[6..] == [];
  }

  lemma TotalFrom(rs: seq<FamilyResult>, k: nat, f: FamilyResult -> real)
    requires k < |rs|
    ensures Total(rs[k..], f) == f(rs[k]) + Total(rs[k + 1..], f)
  {
    assert rs[k..][1..] == rs[k + 1..];
  }

  lemma {:induction false} MatchedMeans(rs: seq<FamilyResult>)
    ensures forall f :: f in MatchedFamilies(rs) <==> exists x :: x in rs && x.matched && x.family == f
    ensures forall f :: f in DivergentFamilies(rs) <==> exists x :: x in rs && x.divergent && x.family == f
  {
    if rs != [] {
      var init, x := rs[..|rs| - 1], rs[|rs| - 1];
      MatchedMeans(init);
      assert rs == init + [x];
    }
  }

  lemma {:induction false} MatchedOnce(rs: seq<FamilyResult>)
    requires forall i, j | 0 <= i < j < |rs| :: rs[i].family != rs[j].family
    ensures |MatchedFamilies(rs)| == |set f: Family | f in MatchedFamilies(rs)|
  {
    if rs == [] {
      assert (set f: Family | f in MatchedFamilies(rs)) == {};
    } else {
      var init, x := rs[..|rs| - 1], rs[|rs| - 1];
      MatchedOnce(init);
      MatchedMeans(init);
      var before := set f: Family | f in MatchedFamilies(init);
      if x.matched {
        assert x.family !in before;
        assert (set f: Family | f in MatchedFamilies(rs)) == before + {x.family};
      } else {
        assert (set f: Family | f in MatchedFamilies(rs)) == before;
      }
    }
  }

  /** The evaluated families, in the order of the list. */
  lemma SixFamilies(l: Profile, r: Profile)
    ensures var rs := Results(FAMILIES, l, r);
      && |rs| == 6 && rs[0] == ResultOf(Source, l, r) && rs[1] == ResultOf(Infrastructure, l, r)
      && rs[2] == ResultOf(Transport, l, r) && rs[3] == ResultOf(Tooling, l, r)
      && rs[4] == ResultOf(Behavior, l, r) && rs[5] == ResultOf(Deception, l, r)
  {
  }

  lemma ListsDecided(l: Profile, r: Profile)
    ensures var s := RawOf(l, r);
      && (forall f :: f in s.matched <==> SharesEvidence(f, l, r)) && |s.matched| == Agreeing(l, r)
      && (forall f :: f in s.divergent <==> Apart(f, l, r))
  {
    var rs := Results(FAMILIES, l, r);
    MatchedMeans(rs);
    DistinctFamilies(l, r);
    MatchedOnce(rs);
    forall f: Family
      ensures f in RawOf(l, r).matched <==> SharesEvidence(f, l, r)
      ensures f in RawOf(l, r).divergent <==> Apart(f, l, r)
    {
      OneResultEach(l, r, f);
      FamilyDecided(f, l, r);
    }
    assert (set f: Family | f in MatchedFamilies(rs)) == set f: Family | SharesEvidence(f, l, r);
  }

  lemma DistinctFamilies(l: Profile, r: Profile)
    ensures var rs := Results(FAMILIES, l, r);
      forall i, j | 0 <= i < j < |rs| :: rs[i].family != rs[j].family
  {
    var rs := Results(FAMILIES, l, r);
    forall i, j | 0 <= i < j < |rs| ensures rs[i].family != rs[j].family {
      assert rs[i] == ResultOf(FAMILIES[i], l, r) && rs[j] == ResultOf(FAMILIES[j], l, r);
    }
  }

  lemma OneResultEach(l: Profile, r: Profile, f: Family)
    ensures forall x :: x in Results(FAMILIES, l, r) && x.family == f <==> x == ResultOf(f, l, r)
  {
    var rs := Results(FAMILIES, l, r);
    var k := Position(f);
    assert rs[k] == ResultOf(f, l, r) && rs[k] in rs;
    forall x | x in rs && x.family == f ensures x == ResultOf(f, l, r) {
      var i :| 0 <= i < |rs| && rs[i] == x;
      assert rs[i] == ResultOf(FAMILIES[i], l, r);
    }
  }

  lemma WeighedFamily(f: Family, l: Profile, r: Profile)
    ensures Available()(ResultOf(f, l, r)) == Covered(f, l, r)
    ensures Agreed()(ResultOf(f, l, r)) == Carried(f, l, r)
    ensures Penalty()(ResultOf(f, l, r)) == if !Apart(f, l, r) then 0.0 else if f == Source then 0.012 else 0.04
  {
    FamilyDecided(f, l, r);
    WeightIsEffective(f);
  }

  lemma TotalsDecided(l: Profile, r: Profile)
    ensures var rs := Results(FAMILIES, l, r);
      && Total(rs, Available()) == CoveredWeight(l, r) && Total(rs, Agreed()) == CarriedWeight(l, r)
      && Total(rs, Penalty()) == 0.012 * Bit(Apart(Source, l, r)) as real + 0.04 * Contradicting(l, r) as real
  {
    var rs := Results(FAMILIES, l, r);
    SixFamilies(l, r);
    SixTotal(rs, Available());
    SixTotal(rs, Agreed());
    SixTotal(rs, Penalty());
    WeighedFamily(Source, l, r);
    WeighedFamily(Infrastructure, l, r);
    WeighedFamily(Transport, l, r);
    WeighedFamily(Tooling, l, r);
    WeighedFamily(Behavior, l, r);
    WeighedFamily(Deception, l, r);
  }

  /** The score of any two profiles is the weighted likeness of the families both cover, with the bonus for agreeing
      families and the penalty for contradicting ones. */
  lemma ScoreIsLawful(l: Profile, r: Profile)
    ensures ScoreLaw(l, r, RawOf(l, r))
  {
    var rs := Results(FAMILIES, l, r);
    ListsDecided(l, r);
    TotalsDecided(l, r);
    NothingCovered(l, r);
    FuseLaws(rs, CoveredWeight(l, r), CarriedWeight(l, r), Total(rs, Penalty()));
  }

  lemma FuseLaws(rs: seq<FamilyResult>, available: real, agreed: real, penalty: real)
    requires available >= 0.0 && (available == 0.0 ==> agreed == 0.0)
    ensures var s := Fuse(rs, available, agreed, penalty);
      && Average(s.evidence, agreed, available) && BonusLaw(|s.matched|, s.bonus)
      && s.penalty == penalty && Cut(s.evidence + s.bonus - s.penalty, s.raw)
  {
    if available != 0.0 { QuotientAtLeast(agreed, available, agreed / available); }
  }

  /** Without a covered family nothing is carried, and the covered weight is never negative. */
  lemma NothingCovered(l: Profile, r: Profile)
    ensures CoveredWeight(l, r) >= 0.0
    ensures CoveredWeight(l, r) == 0.0 ==> CarriedWeight(l, r) == 0.0
  {
  }

  // ---- the link ----

  /** `y` is `x` rounded to multiples of 1/scale, ties to even. */
  ghost predicate IsRounded(x: real, y: real, scale: nat) { exists k: int :: RoundsTo(x, y, scale, k) }

  ghost predicate RoundsTo(x: real, y: real, scale: nat, k: int) {
    && y * scale as real == k as real
    && -0.5 <= x * scale as real - k as real <= 0.5
    && (x * scale as real - k as real in {-0.5, 0.5} ==> k % 2 == 0)
  }

  lemma RoundToRounds(x: real, scale: nat)
    requires scale > 0
    ensures IsRounded(x, RoundTo(x, scale), scale)
  {
    RoundedIsWhole(x, scale);
    NearestIsNear(Scaled(x, scale));
    assert RoundsTo(x, RoundTo(x, scale), scale, Nearest(Scaled(x, scale)));
  }

  lemma NearestIsNear(y: real)
    ensures -0.5 <= y - Nearest(y) as real <= 0.5
    ensures y - Nearest(y) as real in {-0.5, 0.5} ==> Nearest(y) % 2 == 0
  {
    var k := y.Floor;
    assert k as real <= y < k as real + 1.0;
  }

  /** The confidence a number of agreeing families can carry at most. */
  ghost function CapFor(n: nat): real { if n < 2 then 0.49 else if n == 2 then 0.69 else 1.0 }

  ghost function Smaller(x: real, y: real): real { if x < y then x else y }

  /** A link: a lawful score, the logistic of the rounded score, the cap for the agreeing families, the rounding, and
      the grade. */
  ghost predicate LinkLaw(exp: real -> real, slope: real, center: real, l: Profile, r: Profile, link: Link) {
    exists x, p :: LinkBy(exp, slope, center, l, r, link, x, p)
  }

  ghost predicate LinkBy(
    exp: real -> real, slope: real, center: real, l: Profile, r: Profile, link: Link, x: real, p: real)
  {
    var n := Agreeing(l, r);
    && ScoreLaw(l, r, link.score) && IsRounded(link.score.raw, x, 1_000_000)
    && Logistic(exp, slope, center, x, p)
    && IsRounded(Smaller(p, CapFor(n)), link.confidence, 10_000)
    && (link.strength == HIGH <==> n >= 3 && link.confidence >= 0.75)
    && (link.strength == LOW <==> n < 2 || link.confidence < 0.50)
  }

  ghost predicate Logistic(exp: real -> real, slope: real, center: real, x: real, p: real) {
    p * (1.0 + exp(slope * (center - x))) == 1.0
  }

  lemma LogisticOf(exp: real -> real, slope: real, center: real, x: real)
    requires PositiveExp(exp)
    ensures 1.0 + exp(-slope * (x - center)) != 0.0
    ensures Logistic(exp, slope, center, x, Probability(exp, slope, center, x))
    ensures Probability(exp, slope, center, x) <= 1.0
  {
    assert -slope * (x - center) == slope * (center - x);
    ProbabilityInRange(exp, slope, center, x);
    QuotientAtLeast(1.0, 1.0 + exp(slope * (center - x)), Probability(exp, slope, center, x));
  }

  lemma LinkIsLawful(exp: real -> real, slope: real, center: real, l: Profile, r: Profile)
    requires PositiveExp(exp)
    ensures LinkLaw(exp, slope, center, l, r, LinkOf(exp, slope, center, l, r))
  {
    var link := LinkOf(exp, slope, center, l, r);
    var x := RoundTo(link.score.raw, 1_000_000);
    ScoreIsLawful(l, r);
    RoundToRounds(link.score.raw, 1_000_000);
    LogisticOf(exp, slope, center, x);
    var p := Probability(exp, slope, center, x);
    RoundToRounds(Smaller(p, CapFor(Agreeing(l, r))), 10_000);
    GradeOf(p, Agreeing(l, r));
    assert LinkBy(exp, slope, center, l, r, link, x, p);
  }

  lemma GradeOf(p: real, n: nat)
    requires p <= 1.0
    ensures var (confidence, strength) := Grade(p, n);
      && confidence == RoundTo(Smaller(p, CapFor(n)), 10_000)
      && (n < 2 ==> confidence <= 0.49)
      && (strength == HIGH <==> n >= 3 && confidence >= 0.75)
      && (strength == LOW <==> n < 2 || confidence < 0.50)
  {
    if n < 2 {
      RoundKeepsBound(Smaller(p, 0.49), 4_900, 10_000);
    }
  }

  /** A link is HIGH only when the two profiles share evidence in three families, and a plain family in which they
      share no tag is never among them; two such families carry at most 0.69, fewer at most 0.49 and LOW. */
  lemma HighNeedsThreeSharedFamilies(exp: real -> real, slope: real, center: real, l: Profile, r: Profile, f: Family)
    requires PositiveExp(exp)
    ensures var link := LinkOf(exp, slope, center, l, r);
      && (link.strength == HIGH ==> Agreeing(l, r) >= 3)
      && (Agreeing(l, r) == 2 ==> link.confidence <= 0.69 && link.strength != HIGH)
      && (Agreeing(l, r) < 2 ==> link.confidence <= 0.49 && link.strength == LOW)
    ensures f != Behavior && SharesEvidence(f, l, r) ==> l.Signal(f) * r.Signal(f) != {}
  {
    ListsDecided(l, r);
    DiversityGate(exp, slope, center, l, r);
    FamilyDecided(f, l, r);
    if f != Behavior && SharesEvidence(f, l, r) { OverlapIsJaccard(f, l, r, 0.0); }
  }

  // ---- what a profile is read from ----

  /** The normalised text of a value: a short non-empty scalar that is no raw address. */
  ghost predicate Reads(reader: Reader, v: Value, maximum: nat, text: string) {
    && v.Scalar? && text == reader.lower(reader.strip(v.text))
    && text != "" && |text| <= maximum && !reader.isAddress(text)
  }

  /** The event carries the value under the field, alone or in a list. */
  ghost predicate Carries(e: Event, field: string, v: Value) {
    && field in e.payload
    && match e.payload[field]
       case Absent => false
       case Many(items) => v in items
       case Scalar(_) => v == e.payload[field]
       case Opaque => v == e.payload[field]
  }

  /** The family that a payload field speaks for. */
  function FamilyOf(field: string): Option<Family> {
    if field == "source_ref" then Some(Source)
    else if field in {"provider_ref", "asn_ref", "domain_cluster_ref", "certificate_ref"} then Some(Infrastructure)
    else if field in {"transport_fingerprint", "tls_client_ref", "ssh_client_ref"} then Some(Transport)
    else if field in {"client_fingerprint", "toolchain_ref", "user_agent_ref"} then Some(Tooling)
    else if field in {"lure_family_ref", "canary_family_ref"} then Some(Deception)
    else None
  }

  lemma FieldsOfFamily(f: Family, field: string)
    ensures field in Fields(f) <==> FamilyOf(field) == Some(f)
  {
  }

  ghost predicate TagFrom(reader: Reader, e: Event, field: string, v: Value, text: string, tag: string) {
    Carries(e, field, v) && Reads(reader, v, 160, text) && tag == field + ":" + text
  }

  /** Some payload field of the family gives the tag. */
  ghost predicate FieldGives(reader: Reader, e: Event, f: Family, tag: string) {
    exists field, v, text :: FamilyOf(field) == Some(f) && TagFrom(reader, e, field, v, text, tag)
  }

  ghost predicate RouteGives(reader: Reader, e: Event, k: nat, text: string, tag: string) {
    && "routes" in e.payload && e.payload["routes"].Many? && k < |e.payload["routes"].items| && k < 12
    && Reads(reader, e.payload["routes"].items[k], 100, text) && tag == "route:" + text
  }

  const TARGETS: seq<string> := ["edge", "bastion", "admin", "inventory", "finance", "identity"]

  /** The name stands somewhere in the text. */
  ghost predicate Names(text: string, name: string) { exists before, after :: text == before + name + after }

  /** The first listed target family that the event's target names. */
  ghost predicate TargetGives(reader: Reader, e: Event, k: nat, text: string, tag: string) {
    && k < |TARGETS| && Reads(reader, e.target, 160, text)
    && Names(text, TARGETS[k]) && (forall j | 0 <= j < k :: !Names(text, TARGETS[j]))
    && tag == "target-family:" + TARGETS[k]
  }

  ghost predicate BehaviorGives(reader: Reader, e: Event, tag: string) {
    || tag == "technique:" + reader.lower(reader.techniqueOf(e.eventType))
    || tag == "event:" + reader.lower(e.eventType)
    || (exists k: nat, text :: TargetGives(reader, e, k, text, tag))
    || (exists k: nat, text :: RouteGives(reader, e, k, text, tag))
  }

  /** What one event contributes to a family. */
  ghost predicate EventGives(reader: Reader, e: Event, f: Family, tag: string) {
    FieldGives(reader, e, f, tag) || (f == Behavior && BehaviorGives(reader, e, tag))
  }

  lemma ReferenceReads(reader: Reader, v: Value, maximum: nat, text: string)
    ensures Reads(reader, v, maximum, text) <==> Reference(reader, v, maximum) == Some(text)
  {
  }

  lemma ValuesCarried(e: Event, field: string, v: Value)
    ensures v in Values(e.payload, field) <==> Carries(e, field, v)
  {
  }

  lemma ValueTagsRead(reader: Reader, prefix: string, vs: seq<Value>, maximum: nat, tag: string)
    ensures tag in ValueTags(reader, prefix, vs, maximum) <==>
      exists v, text :: v in vs && Reads(reader, v, maximum, text) && tag == prefix + ":" + text
  {
    if tag in ValueTags(reader, prefix, vs, maximum) {
      var i :| 0 <= i < |vs| && Reference(reader, vs[i], maximum).Some?
        && tag == prefix + ":" + Reference(reader, vs[i], maximum).value;
      ReferenceReads(reader, vs[i], maximum, Reference(reader, vs[i], maximum).value);
      assert vs[i] in vs;
    }
    if v, text :| v in vs && Reads(reader, v, maximum, text) && tag == prefix + ":" + text {
      ReferenceReads(reader, v, maximum, text);
      var i :| 0 <= i < |vs| && vs[i] == v;
      assert Reference(reader, vs[i], maximum).Some?;
    }
  }

  lemma FieldTagsGiven(reader: Reader, e: Event, f: Family, tag: string)
    ensures tag in FieldTags(reader, e, Fields(f)) <==> FieldGives(reader, e, f, tag)
  {
    var fields := Fields(f);
    if tag in FieldTags(reader, e, fields) {
      var k :| 0 <= k < |fields| && tag in TagsAt(reader, e, fields, k);
      ValueTagsRead(reader, fields[k], Values(e.payload, fields[k]), 160, tag);
      var v, text :| v in Values(e.payload, fields[k]) && Reads(reader, v, 160, text)
        && tag == fields[k] + ":" + text;
      ValuesCarried(e, fields[k], v);
      FieldsOfFamily(f, fields[k]);
      assert TagFrom(reader, e, fields[k], v, text, tag);
    }
    if FieldGives(reader, e, f, tag) {
      var field, v, text :| FamilyOf(field) == Some(f) && TagFrom(reader, e, field, v, text, tag);
      FieldsOfFamily(f, field);
      ValuesCarried(e, field, v);
      ValueTagsRead(reader, field, Values(e.payload, field), 160, tag);
      var k :| 0 <= k < |fields| && fields[k] == field;
      assert tag in TagsAt(reader, e, fields, k);
    }
  }

  lemma ContainsNames(text: string, name: string)
    ensures Contains(text, name) <==> Names(text, name)
  {
    if Contains(text, name) {
      var i :| 0 <= i <= |text| && name <= text[i..];
      SplitAt(text, name, i);
    }
    if Names(text, name) {
      var before, after :| text == before + name + after;
      NameAfter(text, before, name, after);
    }
  }

  lemma SplitAt(text: string, name: string, i: nat)
    requires i <= |text| && name <= text[i..]
    ensures text == text[..i] + name + text[i + |name|..]
  {
  }

  lemma NameAfter(text: string, before: string, name: string, after: string)
    requires text == before + name + after
    ensures |before| <= |text| && name <= text[|before|..]
  {
    assert text[|before|..] == name + after;
  }

  lemma {:induction false} FirstNamedIsFirst(text: string, k: nat, tag: string)
    requires k <= |TARGETS|
    ensures tag in FirstNamed(text, TARGETS[k..]) <==>
      exists n :: k <= n < |TARGETS| && FirstFrom(text, k, n) && tag == "target-family:" + TARGETS[n]
    decreases |TARGETS| - k
  {
    if k < |TARGETS| {
      var rest := TARGETS[k..];
      assert rest[0] == TARGETS[k] && rest[1..] == TARGETS[k + 1..];
      ContainsNames(text, TARGETS[k]);
      FirstNamedIsFirst(text, k + 1, tag);
      forall n | k < n < |TARGETS|
        ensures FirstFrom(text, k, n) <==> !Names(text, TARGETS[k]) && FirstFrom(text, k + 1, n) { }
      if Names(text, TARGETS[k]) { assert FirstFrom(text, k, k); }
    }
  }

  ghost predicate FirstFrom(text: string, k: nat, n: nat)
    requires k <= n < |TARGETS|
  {
    Names(text, TARGETS[n]) && forall j | k <= j < n :: !Names(text, TARGETS[j])
  }

  lemma TargetTagsGiven(reader: Reader, e: Event, tag: string)
    ensures tag in TargetTags(reader, e) <==> exists k: nat, text :: TargetGives(reader, e, k, text, tag)
  {
    var target := Reference(reader, e.target, 160);
    assert TARGETS[0..] == TARGETS == TARGET_FAMILIES;
    if target.Some? {
      ReferenceReads(reader, e.target, 160, target.value);
      FirstNamedIsFirst(target.value, 0, tag);
    }
    if tag in TargetTags(reader, e) {
      var n :| 0 <= n < |TARGETS| && FirstFrom(target.value, 0, n) && tag == "target-family:" + TARGETS[n];
      assert TargetGives(reader, e, n, target.value, tag);
    }
    if k: nat, text :| TargetGives(reader, e, k, text, tag) {
      ReferenceReads(reader, e.target, 160, text);
      assert FirstFrom(text, 0, k);
    }
  }

  lemma RouteTagsGiven(reader: Reader, e: Event, tag: string)
    ensures tag in ValueTags(reader, "route", Routes(e), MAX_ROUTE) <==>
      exists k: nat, text :: RouteGives(reader, e, k, text, tag)
  {
    var vs := Routes(e);
    ValueTagsRead(reader, "route", vs, 100, tag);
    if tag in ValueTags(reader, "route", vs, MAX_ROUTE) {
      var v, text :| v in vs && Reads(reader, v, 100, text) && tag == "route" + ":" + text;
      var k :| 0 <= k < |vs| && vs[k] == v;
      assert "route" + ":" + text == "route:" + text;
      assert RouteGives(reader, e, k, text, tag);
    }
    if k: nat, text :| RouteGives(reader, e, k, text, tag) {
      assert "route" + ":" + text == "route:" + text;
      assert vs[k] in vs && vs[k] == e.payload["routes"].items[k];
    }
  }

  lemma EventTagsGiven(reader: Reader, e: Event, f: Family, tag: string)
    ensures tag in EventTags(reader, e, f) <==> EventGives(reader, e, f, tag)
  {
    FieldTagsGiven(reader, e, f, tag);
    TargetTagsGiven(reader, e, tag);
    RouteTagsGiven(reader, e, tag);
  }

  lemma {:induction false} TagsGiven(reader: Reader, es: seq<Event>, f: Family, tag: string)
    ensures tag in Tags(reader, es, f) <==> SomeEventGives(reader, es, f, tag)
  {
    if es != [] {
      var n := |es| - 1;
      TagsGiven(reader, es[..n], f, tag);
      EventTagsGiven(reader, es[n], f, tag);
      OneEventMore(reader, es, f, tag);
    }
  }

  ghost predicate SomeEventGives(reader: Reader, es: seq<Event>, f: Family, tag: string) {
    exists i :: GivesAt(reader, es, f, tag, i)
  }

  ghost predicate GivesAt(reader: Reader, es: seq<Event>, f: Family, tag: string, i: int) {
    0 <= i < |es| && EventGives(reader, es[i], f, tag)
  }

  lemma OneEventMore(reader: Reader, es: seq<Event>, f: Family, tag: string)
    requires es != []
    ensures SomeEventGives(reader, es, f, tag) <==>
      SomeEventGives(reader, es[..|es| - 1], f, tag) || EventGives(reader, es[|es| - 1], f, tag)
  {
    var n := |es| - 1;
    forall i | 0 <= i < n ensures GivesAt(reader, es, f, tag, i) == GivesAt(reader, es[..n], f, tag, i) { }
    assert GivesAt(reader, es, f, tag, n) == EventGives(reader, es[n], f, tag);
    if i :| GivesAt(reader, es, f, tag, i) && i < n { assert GivesAt(reader, es[..n], f, tag, i); }
    if i :| GivesAt(reader, es[..n], f, tag, i) { assert GivesAt(reader, es, f, tag, i); }
  }

  lemma {:induction false} TypesListed(es: seq<Event>)
    ensures forall i | 0 <= i < |es| :: Types(es)[i] == es[i].eventType
  {
    if es != [] { TypesListed(es[..|es| - 1]); }
  }

  /** A profile read from events holds exactly the tags that its events give, and their types in order. */
  lemma ProfileIsRead(reader: Reader, events: seq<Event>, p: Profile, f: Family, tag: string)
    requires p.eventTypes == Types(events) && forall g :: p.Signal(g) == Tags(reader, events, g)
    ensures tag in p.Signal(f) <==> SomeEventGives(reader, events, f, tag)
    ensures |p.eventTypes| == |events| && forall i | 0 <= i < |events| :: p.eventTypes[i] == events[i].eventType
  {
    TagsGiven(reader, events, f, tag);
    TypesListed(events);
  }

  // ---- case links ----

  /** `q` is the share of all the names that both lists name; 0 if neither names any. */
  ghost predicate NameShare(a: seq<string>, b: seq<string>, q: real) {
    var both, all := set x | x in a && x in b, set x | x in a + b;
    IsShare(q, |both|, |all|) && (|all| == 0 ==> q == 0.0)
  }

  lemma JaccardIsNameShare(a: seq<string>, b: seq<string>)
    ensures NameShare(a, b, Jaccard(SetOf(a), SetOf(b)))
  {
    assert (set x | x in a && x in b) == SetOf(a) * SetOf(b);
    assert (set x | x in a + b) == SetOf(a) + SetOf(b);
    JaccardShare(SetOf(a), SetOf(b));
  }

  lemma JaccardShare(a: set<string>, b: set<string>)
    ensures IsShare(Jaccard(a, b), |a * b|, |a + b|) && (|a + b| == 0 ==> Jaccard(a, b) == 0.0)
  {
    if a + b == {} {
      assert a * b == {};
    } else {
      assert |a + b| > 0;
      QuotientIsShare(|a * b|, |a + b|, Jaccard(a, b));
    }
  }

  /** The four features of a case link and their weights; fingerprints count if both cases have some. */
  lemma CaseLinkIsLawful(l: CaseFeatures, r: CaseFeatures)
    ensures exists technique, target, fingerprint: real ::
      && NameShare(l.techniques, r.techniques, technique) && NameShare(l.targets, r.targets, target)
      && (if |l.fingerprints| > 0 && |r.fingerprints| > 0 then NameShare(l.fingerprints, r.fingerprints, fingerprint)
          else fingerprint == 0.0)
      && 100.0 * CaseConfidence(l, r) ==
           45.0 * technique + 25.0 * Score(l.eventTypes, r.eventTypes) + 15.0 * target + 15.0 * fingerprint
  {
    JaccardIsNameShare(l.techniques, r.techniques);
    JaccardIsNameShare(l.targets, r.targets);
    JaccardIsNameShare(l.fingerprints, r.fingerprints);
    var technique := Jaccard(SetOf(l.techniques), SetOf(r.techniques));
    var target := Jaccard(SetOf(l.targets), SetOf(r.targets));
    var fingerprint := if |l.fingerprints| > 0 && |r.fingerprints| > 0
      then Jaccard(SetOf(l.fingerprints), SetOf(r.fingerprints)) else 0.0;
    assert 100.0 * CaseConfidence(l, r) ==
      45.0 * technique + 25.0 * Score(l.eventTypes, r.eventTypes) + 15.0 * target + 15.0 * fingerprint;
  }
}
