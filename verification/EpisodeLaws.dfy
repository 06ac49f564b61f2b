/** What a steering episode does at each step, from the probe table, the draws and Bayes' rule alone. */
module EpisodeLaws {
  import opened Order
  import opened Numbers
  import opened Bayes
  import opened Information
  import opened Calibration
  import opened CalibrationLaws
  import opened Steering

  // ---- the update follows the sampled outcome ----

  /** The nominal probability of outcome `o` of probe `k` under hypothesis `h`: what the sampler would give it. */
  ghost function Response(k: nat, h: nat, o: nat): real
    requires k < |PROBES| && h < 4 && o < 3
  {
    ProbesOk(k);
    Cumulative(PROBES[k], h, 0, o + 1) - Cumulative(PROBES[k], h, 0, o)
  }

  /** The table entry, and what the flattening of later families makes of it. */
  lemma ResponseIsTable(k: nat, h: nat, o: nat, family: nat)
    requires k < |PROBES| && h < 4 && o < 3
    ensures ProbeOk(PROBES[k]) && Response(k, h, o) == PROBES[k].columns[o][h] > 0.0
    ensures Cumulative(PROBES[k], h, family, o + 1) - Cumulative(PROBES[k], h, family, o) ==
      Flattened(k, h, family, o)
  {
    ProbesOk(k);
    NextOutcome(PROBES[k], h, family, o);
    NextOutcome(PROBES[k], h, 0, o);
    ActualIsFlattened(k, h, family, o);
  }

  lemma ActualIsFlattened(k: nat, h: nat, family: nat, o: nat)
    requires k < |PROBES| && h < 4 && o < 3 && ProbeOk(PROBES[k])
    ensures ActualLikelihood(PROBES[k], h, family, o) == Flattened(k, h, family, o)
  {
    assert 0.03 * family as real / 3.0 == 0.01 * family as real;
  }

  lemma NextOutcome(p: Probe, h: nat, family: nat, o: nat)
    requires ProbeOk(p) && h < 4 && o < 3
    ensures Cumulative(p, h, family, o + 1) - Cumulative(p, h, family, o) == ActualLikelihood(p, h, family, o)
    ensures family == 0 ==> ActualLikelihood(p, h, family, o) == p.columns[o][h]
  {
  }

  /** Later families answer less sharply: each loses three percent of the table entry to an even spread. */
  ghost function Flattened(k: nat, h: nat, family: nat, o: nat): real
    requires k < |PROBES| && h < 4 && o < 3
  {
    ProbesOk(k);
    (1.0 - 0.03 * family as real) * PROBES[k].columns[o][h] + 0.01 * family as real
  }

  lemma ResponsesExhaust(k: nat, h: nat)
    requires k < |PROBES| && h < 4
    ensures Response(k, h, 0) + Response(k, h, 1) + Response(k, h, 2) == 1.0
  {
    ResponseIsTable(k, h, 0, 0);
    ResponseIsTable(k, h, 1, 0);
    ResponseIsTable(k, h, 2, 0);
  }

  /** The probability of an outcome under a belief. */
  ghost function Chance(b: Vector, k: nat, o: nat): real
    requires |b| == 4 && k < |PROBES| && o < 3
  {
    Mul(b[0], Response(k, 0, o)) + Mul(b[1], Response(k, 1, o)) + Mul(b[2], Response(k, 2, o))
    + Mul(b[3], Response(k, 3, o))
  }

  lemma ChanceOfColumn(b: Vector, k: nat, o: nat)
    requires IsDistribution(b) && |b| == 4 && k < |PROBES| && o < 3
    ensures ProbeOk(PROBES[k]) && |PROBES[k].columns[o]| == 4
    ensures var u := Times(b, PROBES[k].columns[o]);
      && NonNegative(u) && Total(u, Plus) == Total(u, Same) == Chance(b, k, o) > 0.0
      && forall h | 0 <= h < 4 :: u[h] == Mul(b[h], Response(k, h, o))
  {
    ProbesOk(k);
    var l := PROBES[k].columns[o];
    var u := Times(b, l);
    forall h | 0 <= h < 4 ensures u[h] == Mul(b[h], Response(k, h, o)) { ResponseIsTable(k, h, o, 0); }
    TimesNonNegative(b, l);
    TotalNonNegative(u);
    PlusOfFour(u);
    BelievedSomewhere(b, l);
  }

  /** A distribution meets a positive likelihood with positive mass. */
  lemma BelievedSomewhere(b: Vector, l: Vector)
    requires IsDistribution(b) && |l| == |b| && AllPositive(l)
    ensures Total(Times(b, l), Plus) > 0.0
  {
    TotalNonNegative(b);
    var i := TotalPositive(b);
    TotalNonNegative(Times(b, l));
    ProductPositive(b[i], l[i]);
  }

  /** Bayes' rule for the outcome that came back: every hypothesis is reweighted by the probability it gave to that
      outcome, for every history, probe and outcome. */
  lemma UpdateFollowsOutcome(obs: seq<Observation>, k: nat, o: nat)
    requires ObservationsOk(obs) && k < |PROBES| && o < 3
    ensures ObservationsOk(obs + [Observation(k, o)])
    ensures var b, next := BeliefAfter(obs), BeliefAfter(obs + [Observation(k, o)]);
      && Chance(b, k, o) > 0.0
      && forall h | 0 <= h < 4 :: Mul(next[h], Chance(b, k, o)) == Mul(b[h], Response(k, h, o))
  {
    var b, next := BeliefAfter(obs), BeliefAfter(obs + [Observation(k, o)]);
    EpisodeBeliefIsBatch(obs);
    BeliefSnoc(obs, Observation(k, o));
    ChanceOfColumn(b, k, o);
    var u := Times(b, PROBES[k].columns[o]);
    assert next == Shares(u, Total(u, Plus));
    forall h | 0 <= h < 4 ensures Mul(next[h], Chance(b, k, o)) == Mul(b[h], Response(k, h, o)) {
      TimesQuotient(u[h], Chance(b, k, o));
    }
  }

  // ---- the observed gain is, on average, the expected one ----

  lemma ChancesExhaust(b: Vector, k: nat)
    requires IsDistribution(b) && |b| == 4 && k < |PROBES|
    ensures Chance(b, k, 0) + Chance(b, k, 1) + Chance(b, k, 2) == 1.0
  {
    forall h | 0 <= h < 4
      ensures Mul(b[h], Response(k, h, 0)) + Mul(b[h], Response(k, h, 1)) + Mul(b[h], Response(k, h, 2)) == b[h]
    {
      ResponsesExhaust(k, h);
      SplitThree(b[h], Response(k, h, 0), Response(k, h, 1), Response(k, h, 2));
    }
    TotalNonNegative(b);
    PlusOfFour(b);
  }

  lemma SplitThree(x: real, r: real, s: real, t: real)
    requires r + s + t == 1.0
    ensures Mul(x, r) + Mul(x, s) + Mul(x, t) == x
  {
    Distribute(x, r + s, t);
    Distribute(x, r, s);
    assert Mul(x, 1.0) == x;
  }

  /** How much uncertainty an outcome removes. */
  ghost function Removed(lg: real -> real, obs: seq<Observation>, k: nat, o: nat): real
    requires ObservationsOk(obs) && k < |PROBES| && o < 3
  {
    assert ObservationsOk(obs + [Observation(k, o)]);
    Entropy(lg, BeliefAfter(obs)) - Entropy(lg, BeliefAfter(obs + [Observation(k, o)]))
  }

  lemma OutcomeLeaves(lg: real -> real, obs: seq<Observation>, k: nat, o: nat)
    requires ObservationsOk(obs) && k < |PROBES| && o < 3
    ensures ProbeOk(PROBES[k]) && |PROBES[k].columns[o]| == 4
    ensures var b := BeliefAfter(obs);
      Mul(Chance(b, k, o), Removed(lg, obs, k, o)) ==
        Mul(Chance(b, k, o), Entropy(lg, b)) - OutcomeEntropy(lg, b, PROBES[k].columns[o])
  {
    OutcomeEntropyOf(lg, obs, k, o);
    var b := BeliefAfter(obs);
    Leaves(Chance(b, k, o), Entropy(lg, b), Entropy(lg, BeliefAfter(obs + [Observation(k, o)])),
      OutcomeEntropy(lg, b, PROBES[k].columns[o]), Removed(lg, obs, k, o));
  }

  lemma Leaves(c: real, before: real, after: real, left: real, removed: real)
    requires left == Mul(c, after) && removed == before - after
    ensures Mul(c, removed) == Mul(c, before) - left
  {
    Difference(c, before, after);
  }

  lemma OutcomeEntropyOf(lg: real -> real, obs: seq<Observation>, k: nat, o: nat)
    requires ObservationsOk(obs) && k < |PROBES| && o < 3
    ensures ProbeOk(PROBES[k]) && |PROBES[k].columns[o]| == 4 && ObservationsOk(obs + [Observation(k, o)])
    ensures OutcomeEntropy(lg, BeliefAfter(obs), PROBES[k].columns[o]) ==
      Mul(Chance(BeliefAfter(obs), k, o), Entropy(lg, BeliefAfter(obs + [Observation(k, o)])))
  {
    EpisodeBeliefIsBatch(obs);
    BeliefSnoc(obs, Observation(k, o));
    ChanceOfColumn(BeliefAfter(obs), k, o);
  }

  lemma Difference(x: real, y: real, z: real)
    ensures Mul(x, y - z) == Mul(x, y) - Mul(x, z)
  {
  }

  lemma ThreeOutcomes(lg: real -> real, b: Vector, p: Probe)
    requires ProbeOk(p) && |b| == 4
    ensures RawGain(lg, b, p.columns) == Entropy(lg, b) - OutcomeEntropy(lg, b, p.columns[0])
      - OutcomeEntropy(lg, b, p.columns[1]) - OutcomeEntropy(lg, b, p.columns[2])
  {
    var c := p.columns;
    assert c[..2] == [c[0], c[1]] && c[..2][..1] == [c[0]] && [c[0]][..0] == [];
    assert ExpectedEntropy(lg, b, [c[0]]) == OutcomeEntropy(lg, b, c[0]);
    assert ExpectedEntropy(lg, b, c[..2]) == ExpectedEntropy(lg, b, [c[0]]) + OutcomeEntropy(lg, b, c[1]);
  }

  /** The uncertainty that the served probe removes, averaged over its outcomes with their probabilities, is the gain
      it was selected for. */
  lemma ObservedGainMeetsExpectation(lg: real -> real, k0: real, obs: seq<Observation>, k: nat)
    requires ObservationsOk(obs) && k < |PROBES| && IsLog2(lg, k0)
    ensures var b := BeliefAfter(obs);
      Mul(Chance(b, k, 0), Removed(lg, obs, k, 0)) + Mul(Chance(b, k, 1), Removed(lg, obs, k, 1))
      + Mul(Chance(b, k, 2), Removed(lg, obs, k, 2)) == GainAt(lg, b, k)
  {
    var b := BeliefAfter(obs);
    EpisodeBeliefIsBatch(obs);
    ProbesOk(k);
    OutcomeLeaves(lg, obs, k, 0);
    OutcomeLeaves(lg, obs, k, 1);
    OutcomeLeaves(lg, obs, k, 2);
    ChancesExhaust(b, k);
    SplitThree(Entropy(lg, b), Chance(b, k, 0), Chance(b, k, 1), Chance(b, k, 2));
    Swapped(Chance(b, k, 0), Chance(b, k, 1), Chance(b, k, 2), Entropy(lg, b));
    ThreeOutcomes(lg, b, PROBES[k]);
    ProbeGainIsUnclamped(lg, k0, b, PROBES[k]);
  }

  lemma Swapped(r: real, s: real, t: real, x: real)
    ensures Mul(r, x) == Mul(x, r) && Mul(s, x) == Mul(x, s) && Mul(t, x) == Mul(x, t)
  {
  }

  // ---- the choice of the probe ----

  /** Gain less 3.5% of the price. */
  ghost function Worth(lg: real -> real, b: Vector, k: nat): real
    requires |b| == 4 && k < |PROBES|
  {
    GainAt(lg, b, k) - 0.035 * PROBES[k].cost
  }

  ghost predicate WorthMost(lg: real -> real, b: Vector, k: nat)
    requires |b| == 4 && k < |PROBES|
  {
    forall i | 0 <= i < |PROBES| && i != k ::
      || Worth(lg, b, i) < Worth(lg, b, k)
      || (Worth(lg, b, i) == Worth(lg, b, k) && GainAt(lg, b, i) < GainAt(lg, b, k))
  }

  /** The probe that the information-gain policy serves is worth more than every other one, or as much with more gain.
      The prices differ, so there is exactly one such probe and no tie is left to the names. */
  lemma BestProbeIsUnique(lg: real -> real, b: Vector, pick: nat, k: nat)
    requires |b| == 4 && k < |PROBES|
    ensures Chosen(lg, InformationGain, b, pick, k) <==> WorthMost(lg, b, k)
  {
    forall i | 0 <= i < |PROBES| && i != k
      ensures RankLe(RankOf(GainAt(lg, b, i), PROBES[i]), RankOf(GainAt(lg, b, k), PROBES[k])) <==>
        || Worth(lg, b, i) < Worth(lg, b, k)
        || (Worth(lg, b, i) == Worth(lg, b, k) && GainAt(lg, b, i) < GainAt(lg, b, k))
    {
      PricesDiffer(i, k);
    }
    RankLeTotal(RankOf(GainAt(lg, b, k), PROBES[k]), RankOf(GainAt(lg, b, k), PROBES[k]));
  }

  lemma PricesDiffer(i: nat, k: nat)
    requires i < |PROBES| && k < |PROBES| && i != k
    ensures PROBES[i].cost != PROBES[k].cost
  {
  }

  // ---- the whole episode ----

  /** How often probe `k` was served. */
  function Served(obs: seq<Observation>, k: nat): nat { |set i | 0 <= i < |obs| && ServedAt(obs, k, i)| }

  predicate ServedAt(obs: seq<Observation>, k: nat, i: int) { 0 <= i < |obs| && obs[i].probe == k }

  lemma {:induction false} ServedCounts(obs: seq<Observation>, k: nat)
    ensures CountProbe(obs, k) == Served(obs, k)
  {
    if obs == [] {
      assert (set i | 0 <= i < |obs| && ServedAt(obs, k, i)) == {};
    } else {
      var n := |obs| - 1;
      ServedCounts(obs[..n], k);
      var a, b := set i | 0 <= i < n && ServedAt(obs[..n], k, i), set i | 0 <= i < |obs| && ServedAt(obs, k, i);
      if obs[n].probe == k { assert b == a + {n}; } else { assert b == a; }
    }
  }

  /** The outcome that a draw selects: the first whose flattened probability, added to those before, reaches it. */
  ghost predicate DrawnOutcome(k: nat, intent: nat, family: nat, draw: real, o: nat)
    requires k < |PROBES| && intent < 4
  {
    var engage, inspect := Flattened(k, intent, family, 0), Flattened(k, intent, family, 1);
    o == if draw <= engage then 0 else if draw <= engage + inspect then 1 else 2
  }

  lemma OutcomeIsDrawn(w: Scenario, k: nat, step: nat)
    requires w.intent < 4 && k < |PROBES|
    ensures DrawnOutcome(k, w.intent, w.family, w.draws(step), OutcomeAt(w, k, step))
  {
    ProbesOk(k);
    ResponseIsTable(k, w.intent, 0, w.family);
    ResponseIsTable(k, w.intent, 1, w.family);
    assert Cumulative(PROBES[k], w.intent, w.family, 0) == 0.0;
  }

  /** The probe of each policy: the first, the drawn one, that of the leading hypothesis, the one worth most. */
  ghost predicate Picks(lg: real -> real, policy: Policy, b: Vector, pick: nat, k: nat)
    requires |b| == 4
  {
    k < 4 && match policy
      case StaticProbe => k == 0
      case RandomProbe => k == pick % 4
      case LeadingRule => Leads(b, k)
      case InformationGain => WorthMost(lg, b, k)
  }

  lemma ChosenIsPicked(lg: real -> real, policy: Policy, b: Vector, pick: nat, k: nat)
    requires |b| == 4
    ensures Chosen(lg, policy, b, pick, k) <==> Picks(lg, policy, b, pick, k)
  {
    LeadsIsArgMax(b, k);
    if k < |PROBES| { BestProbeIsUnique(lg, b, pick, k); }
  }

  /** Interaction `i`: it starts from an unsettled belief, serves the policy's probe, observes the drawn outcome, and
      updates by Bayes' rule for that outcome. */
  ghost predicate StepLaw(w: Scenario, obs: seq<Observation>, i: nat)
    requires w.intent < 4 && ObservationsOk(obs) && i < |obs|
  {
    var b, next, k, o := BeliefAfter(obs[..i]), BeliefAfter(obs[..i + 1]), obs[i].probe, obs[i].outcome;
    && (forall h | 0 <= h < 4 :: b[h] < 0.86)
    && Picks(w.lg, w.policy, b, w.picks(i + 1), k)
    && DrawnOutcome(k, w.intent, w.family, w.draws(i + 1), o)
    && (forall h | 0 <= h < 4 :: Mul(next[h], Chance(b, k, o)) == Mul(b[h], Response(k, h, o)))
    && ExpectedGain(w.lg, obs[..i + 1]) == ExpectedGain(w.lg, obs[..i]) + GainAt(w.lg, b, k)
  }

  /** Every episode, for all seeds, policies and settings: it starts undecided, follows the law at every step, ends in
      the belief it reports, counts and prices what it served, and reports the expected gain that the steps added
      up. */
  lemma EpisodeFollowsLaw(w: Scenario, e: EpisodeResult, obs: seq<Observation>)
    requires EpisodeOk(w, e, obs)
    ensures ObservationsOk([]) && BeliefAfter([]) == [0.25, 0.25, 0.25, 0.25] && ExpectedGain(w.lg, []) == 0.0
    ensures forall i | 0 <= i < |obs| :: StepLaw(w, obs, i)
    ensures e.finalDistribution == BeliefAfter(obs) && e.expectedGain == ExpectedGain(w.lg, obs)
    ensures Booked(e, obs)
  {
    StartsUndecided();
    forall i | 0 <= i < |obs| ensures StepLaw(w, obs, i) { StepFollowsLaw(w, obs, i); }
    BooksAreKept(e, obs);
  }

  lemma StartsUndecided()
    ensures ObservationsOk([]) && BeliefAfter([]) == [0.25, 0.25, 0.25, 0.25]
  {
    EmptyRun();
    assert Uniform(4) == [0.25, 0.25, 0.25, 0.25];
  }

  /** The counts are those of the served probes, and the cost is their price. */
  ghost predicate Booked(e: EpisodeResult, obs: seq<Observation>) {
    && |e.actionCounts| == 4 && (forall k | 0 <= k < 4 :: e.actionCounts[k] == Served(obs, k))
    && e.totalCost == 0.75 * e.actionCounts[0] as real + 1.00 * e.actionCounts[1] as real
                      + 1.15 * e.actionCounts[2] as real + 1.25 * e.actionCounts[3] as real
  }

  lemma BooksAreKept(e: EpisodeResult, obs: seq<Observation>)
    requires ObservationsOk(obs) && Steering.Counted(obs, e.actionCounts, e.totalCost)
    ensures Booked(e, obs)
  {
    forall k | 0 <= k < 4 ensures e.actionCounts[k] == Served(obs, k) { ServedCounts(obs, k); }
    CountsAddUp(obs, e.actionCounts, e.totalCost);
    PricesOfFour(e.actionCounts);
  }

  lemma StepFollowsLaw(w: Scenario, obs: seq<Observation>, i: nat)
    requires w.intent < 4 && Trajectory(w, obs) && i < |obs|
    ensures StepLaw(w, obs, i)
  {
    var b := BeliefAfter(obs[..i]);
    assert ServesAt(w, obs, i);
    assert obs[..i + 1] == obs[..i] + [obs[i]];
    UpdateFollowsOutcome(obs[..i], obs[i].probe, obs[i].outcome);
    ExpectedSnoc(w.lg, obs[..i], obs[i]);
    OutcomeIsDrawn(w, obs[i].probe, i + 1);
    ChosenIsPicked(w.lg, w.policy, b, w.picks(i + 1), obs[i].probe);
    forall h | 0 <= h < 4 ensures b[h] < 0.86 { assert b[h] <= b[ArgMax(b)]; }
  }

  lemma PricesOfFour(c: seq<nat>)
    requires |c| == |PROBES|
    ensures |c| == 4 && WeightedCost(c, PROBES) ==
      0.75 * c[0] as real + 1.00 * c[1] as real + 1.15 * c[2] as real + 1.25 * c[3] as real
  {
    CostFrom(c, PROBES, 0);
    CostFrom(c, PROBES, 1);
    CostFrom(c, PROBES, 2);
    CostFrom(c, PROBES, 3);
    assert c[0..] == c && PROBES[0..] == PROBES;
    assert WeightedCost(c[4..], PROBES[4..]) == 0.0;
  }

  lemma CostFrom(c: seq<nat>, ps: seq<Probe>, k: nat)
    requires k < |c| == |ps|
    ensures WeightedCost(c[k..], ps[k..]) == c[k] as real * ps[k].cost + WeightedCost(c[k + 1..], ps[k + 1..])
  {
    assert c[k..][1..] == c[k + 1..] && ps[k..][1..] == ps[k + 1..];
  }

  // ---- the end ----

  /** An episode succeeds if the hidden intent is believed to 0.86, errs if another one is, and abstains otherwise. */
  ghost predicate VerdictLaw(intent: nat, d: Vector, e: EpisodeResult)
    requires |d| == 4 && intent < 4
  {
    && (e.confident <==> exists h :: 0 <= h < 4 && d[h] >= 0.86)
    && (e.success <==> d[intent] >= 0.86)
    && (e.wrongConfidence <==> exists h :: 0 <= h < 4 && h != intent && d[h] >= 0.86)
    && (e.correctFinal <==> Leads(d, intent))
    && exists h: nat :: Leads(d, h) && e.topProbability == d[h]
  }

  /** It is served until a belief settles or eight times, or never if the ceilings forbid it; the entropy removed is
      what was observed. */
  ghost predicate EndLaw(w: Scenario, e: EpisodeResult, obs: seq<Observation>) {
    && |e.finalDistribution| == 4 && w.intent < 4 && VerdictLaw(w.intent, e.finalDistribution, e)
    && e.interactions == (if e.success then |obs| else 9)
    && e.permitted == |obs|
    && (if w.settings.maxMemoryMb >= 64 && w.settings.maxCpuCores >= 0.20 && w.settings.maxTtlSeconds >= 180
        then e.denied == 0 && 1 <= |obs| <= 8 && (|obs| < 8 ==> e.confident)
        else e.denied == 8 && obs == [])
    && e.finalEntropy == Entropy(w.lg, e.finalDistribution)
    && e.observedGain == e.entropyReduction == Entropy(w.lg, [0.25, 0.25, 0.25, 0.25]) - e.finalEntropy
  }

  lemma OneSettles(d: Vector, h: nat, i: nat)
    requires IsDistribution(d) && |d| == 4 && h < 4 && i < 4 && d[h] >= 0.86 && d[i] >= 0.86
    ensures h == i
  {
    assert Total(d, Same) == d[0] + d[1] + d[2] + d[3] by {
      assert d == [d[0], d[1], d[2], d[3]];
      FourTotal(d[0], d[1], d[2], d[3]);
    }
  }

  lemma FourTotal(a: real, b: real, c: real, d: real)
    ensures Total([a, b, c, d], Same) == a + b + c + d
  {
    TotalSnoc([a, b, c], d, Same);
    TotalSnoc([a, b], c, Same);
    TotalSnoc([a], b, Same);
    assert [a, b, c, d] == [a, b, c] + [d] && [a, b, c] == [a, b] + [c] && [a, b] == [a] + [b];
  }

  /** Under 0.86 twice a distribution would exceed 1, so who settles it is who leads it. */
  lemma SettledByLeader(d: Vector, lead: nat, h: nat)
    requires IsDistribution(d) && |d| == 4 && lead == ArgMax(d) && h < 4
    ensures d[h] >= 0.86 <==> h == lead && d[lead] >= 0.86
  {
    if d[h] >= 0.86 { OneSettles(d, h, lead); }
  }

  lemma VerdictIsLawful(intent: nat, d: Vector, e: EpisodeResult)
    requires IsDistribution(d) && |d| == 4 && intent < 4 && e.leading == ArgMax(d) && e.topProbability == d[e.leading]
    requires e.confident == (e.topProbability >= 0.86) && e.correctFinal == (e.leading == intent)
    requires e.success == (e.confident && e.correctFinal) && e.wrongConfidence == (e.confident && !e.correctFinal)
    ensures VerdictLaw(intent, d, e)
  {
    LeadsIsArgMax(d, e.leading);
    LeadsIsArgMax(d, intent);
    forall h | 0 <= h < 4 ensures d[h] >= 0.86 <==> h == e.leading && d[e.leading] >= 0.86 {
      SettledByLeader(d, e.leading, h);
    }
  }

  lemma EpisodeEndsLawfully(w: Scenario, e: EpisodeResult, obs: seq<Observation>)
    requires EpisodeOk(w, e, obs)
    ensures EndLaw(w, e, obs)
  {
    EpisodeAccounting(w, e, obs);
    VerdictIsLawful(w.intent, e.finalDistribution, e);
    StartsUndecided();
    EmptyRun();
  }
}
