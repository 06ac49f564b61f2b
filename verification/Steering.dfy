/** The safety gate and the verify-before-observe steering episode. */
module Steering {
  import opened Order
  import opened Numbers
  import opened Bayes
  import opened Information
  import opened Calibration

  // ---- aegis/safety.py ----

  datatype Settings = Settings(
    authorizedNamespace: string, maxMemoryMb: int, maxCpuCores: real, maxTtlSeconds: int)

  datatype ProposedAction = ProposedAction(
    target: string, namespace: string, decoyOnly: bool, networkEgress: bool, syntheticDataOnly: bool,
    reversible: bool, memoryMb: int, cpuCores: real, ttlSeconds: int)

  datatype SafetyCheck = SafetyCheck(rule: string, passed: bool)

  function Checks(s: Settings, a: ProposedAction): (cs: seq<SafetyCheck>)
    ensures |cs| == 8
  {
    [ SafetyCheck("authorized_namespace", a.namespace == s.authorizedNamespace),
      SafetyCheck("decoy_target", a.decoyOnly && "decoy-" <= a.target),
      SafetyCheck("no_network_egress", !a.networkEgress),
      SafetyCheck("synthetic_data", a.syntheticDataOnly),
      SafetyCheck("reversible", a.reversible),
      SafetyCheck("memory_ceiling", 0 < a.memoryMb <= s.maxMemoryMb),
      SafetyCheck("cpu_ceiling", 0.0 < a.cpuCores <= s.maxCpuCores),
      SafetyCheck("ttl_ceiling", 0 < a.ttlSeconds <= s.maxTtlSeconds) ]
  }

  function FailedRules(cs: seq<SafetyCheck>): (r: seq<string>)
    ensures r == [] <==> forall i | 0 <= i < |cs| :: cs[i].passed
  {
    if cs == [] then [] else (if cs[0].passed then [] else [cs[0].rule]) + FailedRules(cs[1..])
  }

  /** PERMIT exactly when all eight checks pass. */
  function Permits(s: Settings, a: ProposedAction): bool {
    forall i | 0 <= i < 8 :: Checks(s, a)[i].passed
  }

  // ---- probes ----

  datatype Probe = Probe(id: string, target: string, cost: real, columns: seq<Vector>)

  /** `columns[o][h]`: likelihood of outcome o (engage, inspect, decline) under hypothesis h. */
  const PROBES: seq<Probe> := [
    Probe("PROBE-SERVICE-MAP", "decoy-edge-service-map", 0.75,
      [[0.72, 0.30, 0.20, 0.12], [0.20, 0.40, 0.35, 0.28], [0.08, 0.30, 0.45, 0.60]]),
    Probe("PROBE-CREDENTIAL-LURE", "decoy-credential-note", 1.00,
      [[0.24, 0.72, 0.38, 0.18], [0.43, 0.20, 0.40, 0.32], [0.33, 0.08, 0.22, 0.50]]),
    Probe("PROBE-PIVOT-ROUTE", "decoy-pivot-route", 1.15,
      [[0.12, 0.34, 0.72, 0.30], [0.31, 0.41, 0.20, 0.37], [0.57, 0.25, 0.08, 0.33]]),
    Probe("PROBE-ARCHIVE-INDEX", "decoy-archive-index", 1.25,
      [[0.08, 0.17, 0.31, 0.72], [0.25, 0.31, 0.37, 0.20], [0.67, 0.52, 0.32, 0.08]])
  ]

  ghost predicate ProbeOk(p: Probe) {
    && |p.columns| == 3 && "decoy-" <= p.target && p.cost > 0.0
    && (forall o | 0 <= o < 3 :: |p.columns[o]| == 4 && AllPositive(p.columns[o]))
    && (forall h | 0 <= h < 4 :: p.columns[0][h] + p.columns[1][h] + p.columns[2][h] == 1.0)
  }

  lemma ProbesOk(i: nat)
    requires i < |PROBES|
    ensures ProbeOk(PROBES[i])
  {
    FirstProbesOk();
    LastProbesOk();
  }

  lemma FirstProbesOk()
    ensures ProbeOk(PROBES[0]) && ProbeOk(PROBES[1])
  {
  }

  lemma LastProbesOk()
    ensures ProbeOk(PROBES[2]) && ProbeOk(PROBES[3])
  {
  }

  /** Every probe carries a normalised, strictly positive likelihood table. */
  lemma ProbeIsTable(p: Probe)
    requires ProbeOk(p)
    ensures IsLikelihoodTable(4, p.columns)
  {
    var c := p.columns;
    assert c[..2] == [c[0], c[1]] && c[..2][..1] == [c[0]] && [c[0]][..0] == [];
    assert SumColumns(4, [c[0]]) == AddV(SumColumns(4, [c[0]][..0]), c[0]);
    assert SumColumns(4, c[..2]) == AddV(SumColumns(4, c[..2][..1]), c[1]);
    forall h | 0 <= h < 4 ensures SumColumns(4, c)[h] == 1.0 {
      assert SumColumns(4, [c[0]])[h] == c[0][h];
    }
  }

  /** `_safe_action`: only the target varies with the probe. */
  function SafeAction(p: Probe, namespace: string): ProposedAction {
    ProposedAction(p.target, namespace, true, false, true, true, 64, 0.20, 180)
  }

  /** What the gate decides for a steering action depends on the three ceilings alone. */
  predicate CeilingsAllow(s: Settings) {
    64 <= s.maxMemoryMb && 0.20 <= s.maxCpuCores && 180 <= s.maxTtlSeconds
  }

  lemma GateVerdictIsConstant(s: Settings, p: Probe)
    requires ProbeOk(p)
    ensures Permits(s, SafeAction(p, s.authorizedNamespace)) <==> CeilingsAllow(s)
    ensures Permits(s, SafeAction(p, s.authorizedNamespace)) <==>
      FailedRules(Checks(s, SafeAction(p, s.authorizedNamespace))) == []
  {
    var cs := Checks(s, SafeAction(p, s.authorizedNamespace));
    if CeilingsAllow(s) {
      forall i | 0 <= i < 8 ensures cs[i].passed { }
    } else {
      assert !cs[5].passed || !cs[6].passed || !cs[7].passed;
    }
  }

  /** For the served probes the clamp at zero never acts: every probe is expected to lose no information, whatever
      the belief. */
  lemma ProbeGainIsUnclamped(lg: real -> real, k: real, prior: Vector, p: Probe)
    requires IsLog2(lg, k) && IsDistribution(prior) && |prior| == 4 && ProbeOk(p)
    ensures Gain(lg, prior, p) == RawGain(lg, prior, p.columns)
  {
    ProbeIsTable(p);
    GainIsNonNegative(lg, k, prior, p.columns);
  }

  // ---- probe selection ----

  datatype Policy = StaticProbe | RandomProbe | LeadingRule | InformationGain

  function Gain(lg: real -> real, prior: Vector, p: Probe): real
    requires SameLength(prior, p.columns)
  {
    var raw := RawGain(lg, prior, p.columns);
    if raw > 0.0 then raw else 0.0
  }

  datatype Rank = Rank(utility: real, gain: real, saving: real, id: string)

  /** Lexicographic order of the selection keys. */
  predicate RankLe(a: Rank, b: Rank) {
    if a.utility != b.utility then a.utility < b.utility
    else if a.gain != b.gain then a.gain < b.gain
    else if a.saving != b.saving then a.saving < b.saving
    else StringLe(a.id, b.id)
  }

  lemma RankLeTotal(a: Rank, b: Rank)
    ensures RankLe(a, b) || RankLe(b, a)
  {
    StringLeTotal(a.id, b.id);
  }

  lemma RankLeTransitive(a: Rank, b: Rank, c: Rank)
    requires RankLe(a, b) && RankLe(b, c)
    ensures RankLe(a, c)
  {
    if a.id != b.id && b.id != c.id && StringLe(a.id, b.id) && StringLe(b.id, c.id) {
      StringLeTransitive(a.id, b.id, c.id);
    }
  }

  function RankOf(g: real, p: Probe): Rank { Rank(g - 0.035 * p.cost, g, -p.cost, p.id) }

  /** What each policy promises about its choice. */
  ghost predicate Chosen(lg: real -> real, policy: Policy, prior: Vector, pick: nat, k: nat)
    requires |prior| == 4
  {
    && k < |PROBES|
    && match policy
       case StaticProbe => k == 0
       case RandomProbe => k == pick % |PROBES|
       case LeadingRule => k == ArgMax(prior)
       case InformationGain => forall i | 0 <= i < |PROBES| ::
         RankLe(RankOf(GainAt(lg, prior, i), PROBES[i]), RankOf(GainAt(lg, prior, k), PROBES[k]))
  }

  ghost function GainAt(lg: real -> real, prior: Vector, i: nat): real
    requires |prior| == 4 && i < |PROBES|
  {
    ProbesOk(i);
    Gain(lg, prior, PROBES[i])
  }

  method SelectProbe(lg: real -> real, policy: Policy, prior: Vector, pick: nat) returns (k: nat, gains: seq<real>)
    requires |prior| == 4
    ensures Chosen(lg, policy, prior, pick, k)
    ensures |gains| == |PROBES| && forall i | 0 <= i < |PROBES| :: gains[i] == GainAt(lg, prior, i)
  {
    gains := [];
    for i := 0 to |PROBES|
      invariant |gains| == i && forall j | 0 <= j < i :: gains[j] == GainAt(lg, prior, j)
    {
      ProbesOk(i);
      var g := ExpectedInformationGain(lg, prior, PROBES[i].columns);
      gains := gains + [g];
    }
    match policy
    case StaticProbe => k := 0;
    case RandomProbe => k := pick % |PROBES|;
    case LeadingRule => k := ArgMax(prior);
    case InformationGain => k := BestRank(gains, PROBES);
  }

  method BestRank(gains: seq<real>, probes: seq<Probe>) returns (k: nat)
    requires |gains| == |probes| > 0
    ensures k < |probes|
    ensures forall i | 0 <= i < |probes| :: RankLe(RankOf(gains[i], probes[i]), RankOf(gains[k], probes[k]))
  {
    k := 0;
    RankLeTotal(RankOf(gains[0], probes[0]), RankOf(gains[0], probes[0]));
    for i := 1 to |probes|
      invariant k < i
      invariant forall j | 0 <= j < i :: RankLe(RankOf(gains[j], probes[j]), RankOf(gains[k], probes[k]))
    {
      var a, b := RankOf(gains[k], probes[k]), RankOf(gains[i], probes[i]);
      RankLeTotal(a, b);
      RankLeTotal(b, b);
      if !RankLe(b, a) {
        forall j | 0 <= j < i ensures RankLe(RankOf(gains[j], probes[j]), b) {
          RankLeTransitive(RankOf(gains[j], probes[j]), a, b);
        }
        k := i;
      }
    }
  }

  // ---- outcomes ----

  /** `_actual_likelihoods` of one hidden intent: the nominal column flattened by 3% per family. */
  function ActualLikelihood(p: Probe, intent: nat, family: nat, o: nat): real
    requires ProbeOk(p) && intent < 4 && o < 3
  {
    var shift := 0.03 * family as real;
    (1.0 - shift) * p.columns[o][intent] + shift / 3.0
  }

  /** The probability of the first `n` outcomes. */
  function Cumulative(p: Probe, intent: nat, family: nat, n: nat): real
    requires ProbeOk(p) && intent < 4 && n <= 3
  {
    if n == 0 then 0.0 else Cumulative(p, intent, family, n - 1) + ActualLikelihood(p, intent, family, n - 1)
  }

  /** `_sample_outcome`: the first outcome whose cumulative probability reaches the draw, else the last. */
  function SampleOutcome(p: Probe, intent: nat, family: nat, draw: real): (o: nat)
    requires ProbeOk(p) && intent < 4
    ensures o < 3 && (o < 2 ==> draw <= Cumulative(p, intent, family, o + 1))
    ensures forall j | 1 <= j <= o :: Cumulative(p, intent, family, j) < draw
  {
    assert Cumulative(p, intent, family, 1) == ActualLikelihood(p, intent, family, 0);
    var a := ActualLikelihood(p, intent, family, 0);
    var b := a + ActualLikelihood(p, intent, family, 1);
    if draw <= a then 0 else if draw <= b then 1 else 2
  }

  /** The outcomes of every flattened column exhaust the probability, so a draw of at most 1 always lands on the
      first outcome that reaches it and never falls through. */
  lemma DrawAlwaysLands(p: Probe, intent: nat, family: nat, draw: real)
    requires ProbeOk(p) && intent < 4 && draw <= 1.0
    ensures Cumulative(p, intent, family, 3) == 1.0
    ensures draw <= Cumulative(p, intent, family, SampleOutcome(p, intent, family, draw) + 1)
  {
    var keep := 1.0 - 0.03 * family as real;
    var a, b, c := p.columns[0][intent], p.columns[1][intent], p.columns[2][intent];
    KeepsTotal(keep, a, b, c);
    assert Cumulative(p, intent, family, 1) == ActualLikelihood(p, intent, family, 0);
    assert Cumulative(p, intent, family, 2) ==
      Cumulative(p, intent, family, 1) + ActualLikelihood(p, intent, family, 1);
    assert Cumulative(p, intent, family, 3) ==
      Cumulative(p, intent, family, 2) + ActualLikelihood(p, intent, family, 2);
  }

  lemma KeepsTotal(keep: real, a: real, b: real, c: real)
    requires a + b + c == 1.0
    ensures keep * a + keep * b + keep * c == keep
  {
    assert keep * (a + b + c) == keep * a + keep * b + keep * c;
  }

  // ---- the episode ----

  const CONFIDENCE_THRESHOLD: real := 0.86
  const MAX_INTERACTIONS: nat := 8

  /** One permitted interaction: which probe was served and what came back. */
  datatype Observation = Observation(probe: nat, outcome: nat)

  ghost predicate ObservationsOk(obs: seq<Observation>) {
    forall i | 0 <= i < |obs| :: obs[i].probe < |PROBES| && obs[i].outcome < 3
  }

  function Likelihood(o: Observation): (l: Vector)
    requires o.probe < |PROBES| && o.outcome < 3
    ensures |l| == 4
  {
    ProbesOk(o.probe);
    PROBES[o.probe].columns[o.outcome]
  }

  ghost function Likelihoods(obs: seq<Observation>): (ls: seq<Vector>)
    requires ObservationsOk(obs)
    ensures |ls| == |obs| && forall i | 0 <= i < |obs| :: ls[i] == Likelihood(obs[i])
  {
    if obs == [] then [] else Likelihoods(obs[..|obs| - 1]) + [Likelihood(obs[|obs| - 1])]
  }

  /** The belief after a list of observations, starting from the uniform prior. */
  ghost function BeliefAfter(obs: seq<Observation>): (b: Vector)
    requires ObservationsOk(obs)
    ensures |b| == 4
  {
    Sequential(Uniform(4), Likelihoods(obs))
  }

  function Top(b: Vector): real
    requires b != []
  {
    b[ArgMax(b)]
  }

  ghost function CountProbe(obs: seq<Observation>, k: nat): nat {
    if obs == [] then 0 else CountProbe(obs[..|obs| - 1], k) + if obs[|obs| - 1].probe == k then 1 else 0
  }

  ghost function CostOf(obs: seq<Observation>): real
    requires ObservationsOk(obs)
  {
    if obs == [] then 0.0 else CostOf(obs[..|obs| - 1]) + PROBES[obs[|obs| - 1].probe].cost
  }

  datatype EpisodeResult = EpisodeResult(
    intent: nat, success: bool, wrongConfidence: bool, confident: bool, correctFinal: bool, interactions: nat,
    leading: nat, topProbability: real, finalDistribution: Vector, finalEntropy: real, entropyReduction: real,
    expectedGain: real, observedGain: real, totalCost: real, permitted: nat, denied: nat, actionCounts: seq<nat>)

  /** What fixes an episode: the logarithm, the policy, the settings, the hidden intent and family, and the two
      seeded random sources, by step. */
  datatype Scenario = Scenario(
    lg: real -> real, policy: Policy, settings: Settings, intent: nat, family: nat, picks: nat -> nat,
    draws: nat -> real)

  /** The outcome that step `step` of the scenario draws for probe `k`. */
  function OutcomeAt(w: Scenario, k: nat, step: nat): (o: nat)
    requires w.intent < 4 && k < |PROBES|
    ensures o < 3
  {
    ProbesOk(k);
    SampleOutcome(PROBES[k], w.intent, w.family, w.draws(step))
  }

  /** An interaction after `init`: it starts from a belief that is not yet confident, serves a probe that the policy
      chooses for that belief, and observes the outcome that the step's draw selects. */
  ghost predicate Serves(w: Scenario, init: seq<Observation>, o: Observation)
    requires w.intent < 4 && ObservationsOk(init)
  {
    && o.probe < |PROBES| && Top(BeliefAfter(init)) < CONFIDENCE_THRESHOLD
    && Chosen(w.lg, w.policy, BeliefAfter(init), w.picks(|init| + 1), o.probe)
    && o.outcome == OutcomeAt(w, o.probe, |init| + 1)
  }

  ghost predicate ServesAt(w: Scenario, obs: seq<Observation>, i: nat)
    requires w.intent < 4 && ObservationsOk(obs) && i < |obs|
  {
    Serves(w, obs[..i], obs[i])
  }

  /** How a run goes, interaction by interaction. */
  ghost predicate Trajectory(w: Scenario, obs: seq<Observation>)
    requires w.intent < 4
  {
    ObservationsOk(obs) && forall i | 0 <= i < |obs| :: ServesAt(w, obs, i)
  }

  /** The expected gains of the served probes, each at the belief it was served on. */
  ghost function ExpectedGain(lg: real -> real, obs: seq<Observation>): real
    requires ObservationsOk(obs)
  {
    if obs == [] then 0.0
    else
      var init := obs[..|obs| - 1];
      ExpectedGain(lg, init) + GainAt(lg, BeliefAfter(init), obs[|obs| - 1].probe)
  }

  lemma {:induction false} ExpectedGainNonNegative(lg: real -> real, obs: seq<Observation>)
    requires ObservationsOk(obs)
    ensures ExpectedGain(lg, obs) >= 0.0
  {
    if obs != [] { ExpectedGainNonNegative(lg, obs[..|obs| - 1]); }
  }

  ghost predicate Counted(obs: seq<Observation>, counts: seq<nat>, cost: real)
    requires ObservationsOk(obs)
  {
    && |counts| == |PROBES| && (forall i | 0 <= i < |PROBES| :: counts[i] == CountProbe(obs, i))
    && cost == CostOf(obs)
  }

  lemma BeliefSnoc(obs: seq<Observation>, o: Observation)
    requires ObservationsOk(obs) && o.probe < |PROBES| && o.outcome < 3
    ensures ObservationsOk(obs + [o])
    ensures BeliefAfter(obs + [o]) == Posterior(BeliefAfter(obs), Likelihood(o))
  {
    assert (obs + [o])[..|obs + [o]| - 1] == obs;
    assert Likelihoods(obs + [o]) == Likelihoods(obs) + [Likelihood(o)];
    assert Likelihoods(obs + [o])[..|obs|] == Likelihoods(obs);
  }

  lemma TrajectorySnoc(w: Scenario, obs: seq<Observation>, o: Observation)
    requires w.intent < 4 && Trajectory(w, obs) && Serves(w, obs, o)
    ensures Trajectory(w, obs + [o])
  {
    var all := obs + [o];
    assert ObservationsOk(all);
    forall i | 0 <= i < |all| ensures ServesAt(w, all, i) {
      assert all[..i] == obs[..i];
      if i < |obs| { assert ServesAt(w, obs, i); } else { assert all[..i] == obs; }
    }
  }

  lemma ExpectedSnoc(lg: real -> real, obs: seq<Observation>, o: Observation)
    requires ObservationsOk(obs) && o.probe < |PROBES| && o.outcome < 3
    ensures ObservationsOk(obs + [o])
    ensures ExpectedGain(lg, obs + [o]) == ExpectedGain(lg, obs) + GainAt(lg, BeliefAfter(obs), o.probe)
  {
    assert (obs + [o])[..|obs + [o]| - 1] == obs;
  }

  lemma CountedSnoc(obs: seq<Observation>, o: Observation, counts: seq<nat>, cost: real)
    requires ObservationsOk(obs) && o.probe < |PROBES| && o.outcome < 3 && Counted(obs, counts, cost)
    ensures ObservationsOk(obs + [o])
    ensures Counted(obs + [o], counts[o.probe := counts[o.probe] + 1], cost + PROBES[o.probe].cost)
  {
    assert (obs + [o])[..|obs + [o]| - 1] == obs;
  }

  lemma EmptyRun()
    ensures BeliefAfter([]) == Uniform(4) && ObservationsOk([])
    ensures Top(Uniform(4)) < CONFIDENCE_THRESHOLD
    ensures Counted([], seq(|PROBES|, i => 0), 0.0)
  {
  }

  ghost predicate EpisodeOk(w: Scenario, e: EpisodeResult, obs: seq<Observation>) {
    && e.intent == w.intent < 4 && Trajectory(w, obs)
    && e.finalDistribution == BeliefAfter(obs)
    && Counted(obs, e.actionCounts, e.totalCost)
    && e.permitted == |obs|
    && (if CeilingsAllow(w.settings)
        then e.denied == 0 && 1 <= |obs| <= MAX_INTERACTIONS && (|obs| < MAX_INTERACTIONS ==> e.confident)
        else e.denied == MAX_INTERACTIONS && obs == [])
    && e.observedGain == e.entropyReduction == Entropy(w.lg, Uniform(4)) - Entropy(w.lg, BeliefAfter(obs))
    && e.finalEntropy == Entropy(w.lg, e.finalDistribution)
    && e.expectedGain == ExpectedGain(w.lg, obs)
    && e.leading == ArgMax(e.finalDistribution) && e.topProbability == e.finalDistribution[e.leading]
    && e.confident == (e.topProbability >= CONFIDENCE_THRESHOLD)
    && e.correctFinal == (e.leading == w.intent)
    && e.success == (e.confident && e.correctFinal) && e.wrongConfidence == (e.confident && !e.correctFinal)
    && e.interactions == if e.success then |obs| else MAX_INTERACTIONS + 1
  }

  /** The accumulators of the loop. */
  datatype Progress = Progress(
    beliefs: Vector, obs: seq<Observation>, totalCost: real, expectedGain: real, observedGain: real,
    actionCounts: seq<nat>)

  ghost predicate ProgressOk(w: Scenario, p: Progress) {
    && w.intent < 4 && Trajectory(w, p.obs) && p.beliefs == BeliefAfter(p.obs)
    && Counted(p.obs, p.actionCounts, p.totalCost)
    && p.observedGain == Entropy(w.lg, Uniform(4)) - Entropy(w.lg, p.beliefs)
    && p.expectedGain == ExpectedGain(w.lg, p.obs)
  }

  /** All accumulators after one more observation. */
  function Advanced(lg: real -> real, p: Progress, o: Observation, gain: real): Progress
    requires |p.beliefs| == 4 && |p.actionCounts| == |PROBES| && o.probe < |PROBES| && o.outcome < 3
  {
    var beliefs := Posterior(p.beliefs, Likelihood(o));
    Progress(
      beliefs, p.obs + [o], p.totalCost + PROBES[o.probe].cost, p.expectedGain + gain,
      p.observedGain + (Entropy(lg, p.beliefs) - Entropy(lg, beliefs)),
      p.actionCounts[o.probe := p.actionCounts[o.probe] + 1])
  }

  lemma AdvancedOk(w: Scenario, p: Progress, o: Observation)
    requires ProgressOk(w, p) && Trajectory(w, p.obs + [o]) && o.probe < |PROBES| && o.outcome < 3
    ensures |p.beliefs| == 4 && |p.actionCounts| == |PROBES|
    ensures ProgressOk(w, Advanced(w.lg, p, o, GainAt(w.lg, p.beliefs, o.probe)))
  {
    CountedSnoc(p.obs, o, p.actionCounts, p.totalCost);
    ExpectedSnoc(w.lg, p.obs, o);
    BeliefSnoc(p.obs, o);
  }

  /** One permitted interaction: sample, update the belief, account for it. */
  method Observe(w: Scenario, p: Progress, k: nat, gain: real) returns (q: Progress)
    requires ProgressOk(w, p) && Top(p.beliefs) < CONFIDENCE_THRESHOLD
    requires Chosen(w.lg, w.policy, p.beliefs, w.picks(|p.obs| + 1), k) && gain == GainAt(w.lg, p.beliefs, k)
    ensures ProgressOk(w, q) && q.obs == p.obs + [Observation(k, OutcomeAt(w, k, |p.obs| + 1))]
  {
    var o := Observation(k, OutcomeAt(w, k, |p.obs| + 1));
    TrajectorySnoc(w, p.obs, o);
    AdvancedOk(w, p, o);
    q := Advanced(w.lg, p, o, gain);
  }

  /** The bookkeeping after `step - 1` passes: either all were permitted or all were denied. */
  ghost predicate LoopOk(s: Settings, intent: nat, step: nat, p: Progress, denied: nat, reached: nat, wrong: bool)
    requires |p.beliefs| == 4
  {
    && 1 <= step <= MAX_INTERACTIONS + 1
    && (if CeilingsAllow(s) then denied == 0 && |p.obs| == step - 1 else denied == step - 1 && p.obs == [])
    && (if Top(p.beliefs) < CONFIDENCE_THRESHOLD then reached == 0 && !wrong
        else wrong == (ArgMax(p.beliefs) != intent) && reached == (if wrong then 0 else |p.obs|) && |p.obs| >= 1)
  }

  /** One pass of the loop: select, verify, and only when permitted observe. */
  method Interact(w: Scenario, step: nat, p: Progress, denied: nat, reached: nat, wrong: bool)
    returns (p': Progress, denied': nat, reached': nat, wrong': bool)
    requires ProgressOk(w, p) && step <= MAX_INTERACTIONS && Top(p.beliefs) < CONFIDENCE_THRESHOLD
    requires LoopOk(w.settings, w.intent, step, p, denied, reached, wrong)
    ensures ProgressOk(w, p') && LoopOk(w.settings, w.intent, step + 1, p', denied', reached', wrong')
    ensures !CeilingsAllow(w.settings) ==> p' == p
  {
    p', denied', reached', wrong' := p, denied, reached, wrong;
    var k, gains := SelectProbe(w.lg, w.policy, p.beliefs, w.picks(step));
    ProbesOk(k);
    GateVerdictIsConstant(w.settings, PROBES[k]);
    if !Permits(w.settings, SafeAction(PROBES[k], w.settings.authorizedNamespace)) {
      denied' := denied + 1;
    } else {
      p' := Observe(w, p, k, gains[k]);
      var leading := ArgMax(p'.beliefs);
      if p'.beliefs[leading] >= CONFIDENCE_THRESHOLD {
        wrong' := leading != w.intent;
        reached' := if !wrong' then step else 0;
      }
    }
  }

  function Start(): (p: Progress)
    ensures |p.beliefs| == 4
  {
    Progress(Uniform(4), [], 0.0, 0.0, 0.0, seq(|PROBES|, i => 0))
  }

  lemma StartOk(w: Scenario)
    requires w.intent < 4
    ensures ProgressOk(w, Start()) && LoopOk(w.settings, w.intent, 1, Start(), 0, 0, false)
  {
    EmptyRun();
  }

  method Episode(w: Scenario) returns (e: EpisodeResult, obs: seq<Observation>)
    requires w.intent < 4
    ensures EpisodeOk(w, e, obs)
  {
    var p, denied, reached, wrong, step := RunSteps(w);
    ConclusionOk(w, step, p, denied, reached, wrong);
    e, obs := Conclude(w.lg, w.intent, p, denied, reached, wrong), p.obs;
  }

  /** The loop, left early once the belief is confident. */
  method RunSteps(w: Scenario) returns (p: Progress, denied: nat, reached: nat, wrong: bool, step: nat)
    requires w.intent < 4
    ensures ProgressOk(w, p) && LoopOk(w.settings, w.intent, step, p, denied, reached, wrong)
    ensures step == MAX_INTERACTIONS + 1 || Top(p.beliefs) >= CONFIDENCE_THRESHOLD
  {
    p, denied, reached, wrong, step := Start(), 0, 0, false, 1;
    StartOk(w);
    while step <= MAX_INTERACTIONS && Top(p.beliefs) < CONFIDENCE_THRESHOLD
      invariant ProgressOk(w, p) && LoopOk(w.settings, w.intent, step, p, denied, reached, wrong)
    {
      p, denied, reached, wrong := Interact(w, step, p, denied, reached, wrong);
      step := step + 1;
    }
  }

  function Conclude(lg: real -> real, intent: nat, p: Progress, denied: nat, reached: nat, wrong: bool): EpisodeResult
    requires p.beliefs != []
  {
    var leading := ArgMax(p.beliefs);
    EpisodeResult(
      intent, reached != 0, wrong, p.beliefs[leading] >= CONFIDENCE_THRESHOLD, leading == intent,
      if reached != 0 then reached else MAX_INTERACTIONS + 1, leading, p.beliefs[leading], p.beliefs,
      Entropy(lg, p.beliefs), Entropy(lg, Uniform(4)) - Entropy(lg, p.beliefs), p.expectedGain, p.observedGain,
      p.totalCost, |p.obs|, denied, p.actionCounts)
  }

  lemma ConclusionOk(w: Scenario, step: nat, p: Progress, denied: nat, reached: nat, wrong: bool)
    requires ProgressOk(w, p) && LoopOk(w.settings, w.intent, step, p, denied, reached, wrong)
    requires step == MAX_INTERACTIONS + 1 || Top(p.beliefs) >= CONFIDENCE_THRESHOLD
    ensures EpisodeOk(w, Conclude(w.lg, w.intent, p, denied, reached, wrong), p.obs)
  {
    EmptyRun();
  }

  // ---- what every episode guarantees ----

  lemma {:induction false} LikelihoodsPositive(obs: seq<Observation>)
    requires ObservationsOk(obs)
    ensures forall i | 0 <= i < |obs| :: AllPositive(Likelihoods(obs)[i]) && NonNegative(Likelihoods(obs)[i])
  {
    forall i | 0 <= i < |obs| ensures AllPositive(Likelihoods(obs)[i]) {
      ProbesOk(obs[i].probe);
    }
  }

  /** The belief the loop builds step by step is the batch posterior of everything it observed. */
  lemma EpisodeBeliefIsBatch(obs: seq<Observation>)
    requires ObservationsOk(obs)
    ensures BeliefAfter(obs) == Batch(Uniform(4), Likelihoods(obs))
    ensures IsDistribution(BeliefAfter(obs))
  {
    UniformIsDistribution(4);
    LikelihoodsPositive(obs);
    PositiveLikelihoodsKeepMass(Uniform(4), Likelihoods(obs));
    SequentialIsBatch(Uniform(4), Likelihoods(obs));
    NormalizeIsDistribution(Product(Uniform(4), Likelihoods(obs)));
  }

  lemma LikelihoodsSplit(l: seq<Observation>, o: Observation, r: seq<Observation>)
    requires ObservationsOk(l + [o] + r)
    ensures ObservationsOk(l + r) && o.probe < |PROBES| && o.outcome < 3
    ensures multiset(Likelihoods(l + [o] + r)) == multiset{Likelihood(o)} + multiset(Likelihoods(l + r))
  {
    PartsOk(l, o, r);
    assert [o][0] == o && Likelihoods([o]) == [Likelihood(o)];
    LikelihoodsConcat(l, [o]);
    LikelihoodsConcat(l + [o], r);
    LikelihoodsConcat(l, r);
  }

  lemma PartsOk(l: seq<Observation>, o: Observation, r: seq<Observation>)
    requires ObservationsOk(l + [o] + r)
    ensures ObservationsOk(l) && ObservationsOk([o]) && ObservationsOk(r)
    ensures ObservationsOk(l + [o]) && ObservationsOk(l + r)
  {
    var s := l + [o] + r;
    assert s[|l|] == o;
    assert forall i | 0 <= i < |l| :: l[i] == s[i];
    assert forall i | 0 <= i < |r| :: r[i] == s[|l| + 1 + i];
  }

  lemma {:induction false} LikelihoodsConcat(a: seq<Observation>, b: seq<Observation>)
    requires ObservationsOk(a) && ObservationsOk(b) && ObservationsOk(a + b)
    ensures Likelihoods(a + b) == Likelihoods(a) + Likelihoods(b)
  {
    if b == [] {
      assert a + b == a;
    } else {
      var m := |b| - 1;
      assert (a + b)[..|a + b| - 1] == a + b[..m] && (a + b)[|a + b| - 1] == b[m];
      LikelihoodsConcat(a, b[..m]);
    }
  }

  lemma PermutationOk(obs: seq<Observation>, ps: seq<Observation>)
    requires ObservationsOk(obs) && multiset(obs) == multiset(ps)
    ensures ObservationsOk(ps)
  {
    forall i | 0 <= i < |ps| ensures ps[i].probe < |PROBES| && ps[i].outcome < 3 {
      assert ps[i] in multiset(obs);
    }
  }

  lemma {:induction false} LikelihoodsPermutation(obs: seq<Observation>, ps: seq<Observation>)
    requires ObservationsOk(obs) && ObservationsOk(ps) && multiset(obs) == multiset(ps)
    ensures multiset(Likelihoods(obs)) == multiset(Likelihoods(ps))
    decreases |obs|
  {
    assert |multiset(obs)| == |obs| && |multiset(ps)| == |ps|;
    if obs != [] {
      var o, t := obs[0], obs[1..];
      var l, r := PermutationTail(obs, ps);
      assert obs == [] + [o] + t && [] + t == t;
      LikelihoodsSplit([], o, t);
      LikelihoodsSplit(l, o, r);
      LikelihoodsPermutation(t, l + r);
    }
  }

  /** Any reordering of the observations of an episode gives the same final belief. */
  lemma ObservationOrderDoesNotMatter(obs: seq<Observation>, ps: seq<Observation>)
    requires ObservationsOk(obs) && multiset(obs) == multiset(ps)
    ensures ObservationsOk(ps) && BeliefAfter(obs) == BeliefAfter(ps)
  {
    PermutationOk(obs, ps);
    LikelihoodsPermutation(obs, ps);
    UniformIsDistribution(4);
    LikelihoodsPositive(obs);
    PositiveLikelihoodsKeepMass(Uniform(4), Likelihoods(obs));
    ObservationOrderIrrelevant(Uniform(4), Likelihoods(obs), Likelihoods(ps));
  }

  function SumCounts(c: seq<nat>): nat { if c == [] then 0 else c[0] + SumCounts(c[1..]) }

  function WeightedCost(c: seq<nat>, ps: seq<Probe>): real
    requires |c| == |ps|
  {
    if c == [] then 0.0 else c[0] as real * ps[0].cost + WeightedCost(c[1..], ps[1..])
  }

  ghost function Counts(obs: seq<Observation>, n: nat): (c: seq<nat>)
    ensures |c| == n && forall i | 0 <= i < n :: c[i] == CountProbe(obs, i)
  {
    if n == 0 then [] else Counts(obs, n - 1) + [CountProbe(obs, n - 1)]
  }

  lemma {:induction false} BumpCounts(c: seq<nat>, ps: seq<Probe>, k: nat)
    requires k < |c| == |ps|
    ensures SumCounts(c[k := c[k] + 1]) == SumCounts(c) + 1
    ensures WeightedCost(c[k := c[k] + 1], ps) == WeightedCost(c, ps) + ps[k].cost
  {
    if k == 0 {
      assert c[0 := c[0] + 1][1..] == c[1..];
      assert (c[0] + 1) as real * ps[0].cost == c[0] as real * ps[0].cost + ps[0].cost;
    } else {
      assert c[k := c[k] + 1][1..] == c[1..][k - 1 := c[1..][k - 1] + 1];
      BumpCounts(c[1..], ps[1..], k - 1);
    }
  }

  lemma {:induction false} ZeroCounts(c: seq<nat>, ps: seq<Probe>)
    requires |c| == |ps| && forall i | 0 <= i < |c| :: c[i] == 0
    ensures SumCounts(c) == 0 && WeightedCost(c, ps) == 0.0
  {
    if c != [] { ZeroCounts(c[1..], ps[1..]); }
  }

  lemma {:induction false} CountsAddUp(obs: seq<Observation>, counts: seq<nat>, cost: real)
    requires ObservationsOk(obs) && Counted(obs, counts, cost)
    ensures SumCounts(counts) == |obs| && cost == WeightedCost(counts, PROBES)
    decreases |obs|
  {
    if obs == [] {
      ZeroCounts(counts, PROBES);
    } else {
      var init, k := obs[..|obs| - 1], obs[|obs| - 1].probe;
      var before := counts[k := counts[k] - 1];
      CountsAddUp(init, before, cost - PROBES[k].cost);
      BumpCounts(before, PROBES, k);
      assert before[k := before[k] + 1] == counts;
    }
  }

  /** Per-episode accounting: the gate decides alike at every step, a fully denied episode ends with the uniform
      prior it began with, permitted plus denied steps never exceed eight, the action counts total the permitted
      steps and price them, the observed gain is the entropy reduction, and exactly one of success, wrong
      confidence and abstention holds. */
  lemma EpisodeAccounting(w: Scenario, e: EpisodeResult, obs: seq<Observation>)
    requires EpisodeOk(w, e, obs)
    ensures 1 <= e.permitted + e.denied <= MAX_INTERACTIONS && (e.permitted == 0 || e.denied == 0)
    ensures e.denied > 0 ==> e.finalDistribution == Uniform(4) && e.observedGain == 0.0
    ensures SumCounts(e.actionCounts) == e.permitted && e.totalCost == WeightedCost(e.actionCounts, PROBES)
    ensures (if e.success then 1 else 0) + (if e.wrongConfidence then 1 else 0) + (if !e.confident then 1 else 0) == 1
    ensures IsDistribution(e.finalDistribution) && 0.0 <= e.topProbability <= 1.0
    ensures e.expectedGain == ExpectedGain(w.lg, obs) >= 0.0
  {
    EmptyRun();
    ExpectedGainNonNegative(w.lg, obs);
    CountsAddUp(obs, e.actionCounts, e.totalCost);
    EpisodeBeliefIsBatch(obs);
    DistributionEntry(e.finalDistribution, e.leading);
  }

  // ---- aggregating episodes ----

  datatype PolicyReport = PolicyReport(
    correctConfidence: real, correctFinal: real, wrongConfidence: real, abstention: real, meanInteractions: real,
    meanSuccessful: Option<real>, meanFinalEntropy: real, meanReduction: real, meanExpectedGain: real,
    meanObservedGain: real, meanCost: real, brier: real, ece: real, permits: nat, denials: nat,
    actionShares: seq<real>, utility: real)

  function CountIf(es: seq<EpisodeResult>, q: EpisodeResult -> bool): nat {
    if es == [] then 0 else CountIf(es[..|es| - 1], q) + if q(es[|es| - 1]) then 1 else 0
  }

  predicate Succeeded(e: EpisodeResult) { e.success }
  predicate WronglyConfident(e: EpisodeResult) { e.wrongConfidence }
  predicate Abstained(e: EpisodeResult) { !e.confident }
  predicate FinallyCorrect(e: EpisodeResult) { e.correctFinal }

  function Interactions(e: EpisodeResult): real { e.interactions as real }
  function FinalEntropy(e: EpisodeResult): real { e.finalEntropy }
  function Reduction(e: EpisodeResult): real { e.entropyReduction }
  function Expected(e: EpisodeResult): real { e.expectedGain }
  function Observed(e: EpisodeResult): real { e.observedGain }
  function Cost(e: EpisodeResult): real { e.totalCost }

  /** Squared distance of the first `n` entries from the indicator of the hidden intent. */
  function Distance(d: Vector, intent: nat, n: nat): real
    requires n <= |d|
  {
    if n == 0 then 0.0
    else
      var miss := d[n - 1] - if n - 1 == intent then 1.0 else 0.0;
      Distance(d, intent, n - 1) + Mul(miss, miss)
  }

  function Brier(e: EpisodeResult): real { Distance(e.finalDistribution, e.intent, |e.finalDistribution|) }

  function MeanOver(es: seq<EpisodeResult>, f: EpisodeResult -> real): real
    requires es != []
  {
    Div(Total(es, f), |es| as real)
  }

  function Successes(es: seq<EpisodeResult>): (r: seq<EpisodeResult>)
    ensures |r| == CountIf(es, Succeeded) && forall e | e in r :: e in es && e.success
  {
    if es == [] then []
    else Successes(es[..|es| - 1]) + if es[|es| - 1].success then [es[|es| - 1]] else []
  }

  function CalibrationRows(es: seq<EpisodeResult>): (r: seq<Sample>)
    ensures |r| == |es| && forall i | 0 <= i < |es| :: r[i] == Sample(es[i].topProbability, es[i].correctFinal)
  {
    seq(|es|, i requires 0 <= i < |es| => Sample(es[i].topProbability, es[i].correctFinal))
  }

  function SumPermits(es: seq<EpisodeResult>): nat {
    if es == [] then 0 else SumPermits(es[..|es| - 1]) + es[|es| - 1].permitted
  }

  function SumDenials(es: seq<EpisodeResult>): nat {
    if es == [] then 0 else SumDenials(es[..|es| - 1]) + es[|es| - 1].denied
  }

  /** How often the episodes served one probe. */
  function ActionTotal(es: seq<EpisodeResult>, p: nat): nat
    requires p < |PROBES| && ActionsListed(es)
  {
    if es == [] then 0 else ActionTotal(es[..|es| - 1], p) + es[|es| - 1].actionCounts[p]
  }

  predicate ActionsListed(es: seq<EpisodeResult>) {
    forall i | 0 <= i < |es| :: |es[i].actionCounts| == |PROBES|
  }

  function SumActions(es: seq<EpisodeResult>): (r: seq<nat>)
    requires ActionsListed(es)
    ensures |r| == |PROBES| && forall p | 0 <= p < |PROBES| :: r[p] == ActionTotal(es, p)
  {
    seq(|PROBES|, p requires 0 <= p < |PROBES| => ActionTotal(es, p))
  }

  /** The loop over the episodes: the Brier sum and the action counts. */
  method Accumulate(es: seq<EpisodeResult>) returns (brier: real, actionCounts: seq<nat>)
    requires ActionsListed(es)
    ensures brier == Total(es, Brier) && actionCounts == SumActions(es)
  {
    brier, actionCounts := 0.0, seq(|PROBES|, p => 0);
    for i := 0 to |es|
      invariant brier == Total(es[..i], Brier) && actionCounts == SumActions(es[..i])
    {
      assert es[..i + 1] == es[..i] + [es[i]] && es[..i + 1][..i] == es[..i];
      TotalSnoc(es[..i], es[i], Brier);
      brier := brier + Brier(es[i]);
      actionCounts := AddActions(actionCounts, es[i].actionCounts);
    }
    assert es[..|es|] == es;
  }

  method AddActions(counts: seq<nat>, more: seq<nat>) returns (r: seq<nat>)
    requires |counts| == |more|
    ensures |r| == |counts| && forall p | 0 <= p < |r| :: r[p] == counts[p] + more[p]
  {
    r := counts;
    for p := 0 to |counts|
      invariant |r| == |counts| && forall q | 0 <= q < |r| :: r[q] == counts[q] + if q < p then more[q] else 0
    {
      r := r[p := r[p] + more[p]];
    }
  }

  /** The share of each probe in the actions; all zero when nothing was permitted. */
  function ActionShares(counts: seq<nat>): (r: seq<real>)
    ensures |r| == |counts|
  {
    var total := SumCounts(counts);
    seq(|counts|, p requires 0 <= p < |counts| => if total > 0 then Div(counts[p] as real, total as real) else 0.0)
  }

  function Utility(success: real, interactions: real, cost: real, wrong: real): real {
    success - 0.10 * (interactions / (MAX_INTERACTIONS + 1) as real) - 0.012 * cost - 2.0 * wrong
  }

  /** Rates and means are over the number of episodes, except the mean of successful interactions, which is over the
      successful ones if there are any. */
  ghost predicate IsReport(es: seq<EpisodeResult>, r: PolicyReport)
    requires es != [] && ActionsListed(es)
  {
    var n := |es| as real;
    && r.correctConfidence == Div(CountIf(es, Succeeded) as real, n)
    && r.correctFinal == Div(CountIf(es, FinallyCorrect) as real, n)
    && r.wrongConfidence == Div(CountIf(es, WronglyConfident) as real, n)
    && r.abstention == Div(CountIf(es, Abstained) as real, n)
    && r.meanInteractions == MeanOver(es, Interactions)
    && r.meanSuccessful == (if Successes(es) == [] then None else Some(MeanOver(Successes(es), Interactions)))
    && r.meanFinalEntropy == MeanOver(es, FinalEntropy) && r.meanReduction == MeanOver(es, Reduction)
    && r.meanExpectedGain == MeanOver(es, Expected) && r.meanObservedGain == MeanOver(es, Observed)
    && r.meanCost == MeanOver(es, Cost) && r.brier == MeanOver(es, Brier)
    && r.ece == Ece(CalibrationRows(es), |es|)
    && r.permits == SumPermits(es) && r.denials == SumDenials(es)
    && r.actionShares == ActionShares(SumActions(es))
    && r.utility == Utility(r.correctConfidence, r.meanInteractions, r.meanCost, r.wrongConfidence)
  }

  /** None is the ZeroDivisionError of an empty list. */
  method PolicyMetrics(es: seq<EpisodeResult>) returns (r: Option<PolicyReport>)
    requires ActionsListed(es)
    ensures r.None? <==> es == []
    ensures r.Some? ==> IsReport(es, r.value)
  {
    var brier, actionCounts := Accumulate(es);
    var ece, bins := Reliability(CalibrationRows(es), |es|);
    if es == [] {
      return None;
    }
    var n := |es| as real;
    var successRate := Div(CountIf(es, Succeeded) as real, n);
    var wrongRate := Div(CountIf(es, WronglyConfident) as real, n);
    var meanInteractions, meanCost := MeanOver(es, Interactions), MeanOver(es, Cost);
    r := Some(PolicyReport(
      successRate, Div(CountIf(es, FinallyCorrect) as real, n), wrongRate, Div(CountIf(es, Abstained) as real, n),
      meanInteractions, if Successes(es) == [] then None else Some(MeanOver(Successes(es), Interactions)),
      MeanOver(es, FinalEntropy), MeanOver(es, Reduction), MeanOver(es, Expected), MeanOver(es, Observed), meanCost,
      Div(brier, n), ece, SumPermits(es), SumDenials(es), ActionShares(actionCounts),
      Utility(successRate, meanInteractions, meanCost, wrongRate)));
  }

  /** An episode result as `Episode` returns it. */
  ghost predicate Genuine(e: EpisodeResult) {
    exists w: Scenario, obs: seq<Observation> :: EpisodeOk(w, e, obs)
  }

  /** What the aggregation needs to know of an episode. */
  ghost predicate Accounted(e: EpisodeResult) {
    && (if e.success then 1 else 0) + (if e.wrongConfidence then 1 else 0) + (if !e.confident then 1 else 0) == 1
    && |e.actionCounts| == |PROBES| && SumCounts(e.actionCounts) == e.permitted
    && 0.0 <= e.topProbability <= 1.0 && 0.0 <= Brier(e) <= 2.0
    && 1 <= e.interactions <= MAX_INTERACTIONS + 1 && (e.success ==> e.interactions <= MAX_INTERACTIONS)
    && e.observedGain == e.entropyReduction && (e.success ==> e.correctFinal)
  }

  ghost predicate AllGenuine(es: seq<EpisodeResult>) { forall i | 0 <= i < |es| :: Genuine(es[i]) }

  ghost predicate AllAccounted(es: seq<EpisodeResult>) { forall i | 0 <= i < |es| :: Accounted(es[i]) }

  lemma AccountedEverywhere(es: seq<EpisodeResult>)
    requires AllGenuine(es)
    ensures AllAccounted(es)
  {
    forall i | 0 <= i < |es| ensures Accounted(es[i]) { GenuineIsAccounted(es[i]); }
  }

  lemma GenuineIsAccounted(e: EpisodeResult)
    requires Genuine(e)
    ensures Accounted(e)
  {
    var w: Scenario, obs: seq<Observation> :| EpisodeOk(w, e, obs);
    EpisodeAccounting(w, e, obs);
    InteractionBounds(w, e, obs);
    BrierOfDistribution(e);
  }

  lemma BrierOfDistribution(e: EpisodeResult)
    requires IsDistribution(e.finalDistribution)
    ensures 0.0 <= Brier(e) <= 2.0
  {
    var d := e.finalDistribution;
    BrierBounds(d, e.intent, |d|);
    assert d[..|d|] == d;
  }

  lemma InteractionBounds(w: Scenario, e: EpisodeResult, obs: seq<Observation>)
    requires EpisodeOk(w, e, obs)
    ensures 1 <= e.interactions <= MAX_INTERACTIONS + 1 && (e.success ==> e.interactions <= MAX_INTERACTIONS)
    ensures |e.actionCounts| == |PROBES| && e.observedGain == e.entropyReduction && (e.success ==> e.correctFinal)
  {
    EmptyRun();
  }

  /** The Brier distance of a distribution from any single hypothesis is between 0 and 2. */
  lemma {:induction false} BrierBounds(d: Vector, intent: nat, n: nat)
    requires NonNegative(d) && Total(d, Same) <= 1.0 && n <= |d|
    ensures 0.0 <= Distance(d, intent, n) <= Total(d[..n], Same) + if intent < n then 1.0 else 0.0
  {
    if n == 0 {
    } else {
      BrierBounds(d, intent, n - 1);
      TotalNonNegative(d);
      assert d[..n] == d[..n - 1] + [d[n - 1]];
      TotalSnoc(d[..n - 1], d[n - 1], Same);
      MissBounds(d[n - 1], if n - 1 == intent then 1.0 else 0.0);
    }
  }

  lemma MissBounds(x: real, y: real)
    requires 0.0 <= x <= 1.0 && (y == 0.0 || y == 1.0)
    ensures 0.0 <= Mul(x - y, x - y) <= x + y
  {
    if x > 0.0 { ProductPositive(x, 1.0 - x); }
    assert x * (1.0 - x) >= 0.0;
    assert (x - 1.0) * (x - 1.0) == 1.0 - x - x * (1.0 - x);
  }

  lemma {:induction false} OutcomesPartition(es: seq<EpisodeResult>)
    requires AllAccounted(es)
    ensures CountIf(es, Succeeded) + CountIf(es, WronglyConfident) + CountIf(es, Abstained) == |es|
  {
    if es != [] {
      OutcomesPartition(es[..|es| - 1]);
      assert Accounted(es[|es| - 1]);
    }
  }

  lemma {:induction false} SumCountsAdd(a: seq<nat>, b: seq<nat>, c: seq<nat>)
    requires |a| == |b| == |c| && forall p | 0 <= p < |a| :: c[p] == a[p] + b[p]
    ensures SumCounts(c) == SumCounts(a) + SumCounts(b)
  {
    if a != [] { SumCountsAdd(a[1..], b[1..], c[1..]); }
  }

  lemma {:induction false} ActionsArePermits(es: seq<EpisodeResult>)
    requires AllAccounted(es)
    ensures ActionsListed(es) && SumCounts(SumActions(es)) == SumPermits(es)
  {
    assert forall i | 0 <= i < |es| :: Accounted(es[i]);
    if es == [] {
      ZeroCounts(SumActions(es), PROBES);
    } else {
      ActionsArePermits(es[..|es| - 1]);
      assert Accounted(es[|es| - 1]);
      SumCountsAdd(SumActions(es[..|es| - 1]), es[|es| - 1].actionCounts, SumActions(es));
    }
  }

  lemma {:induction false} TotalBetween(es: seq<EpisodeResult>, f: EpisodeResult -> real, lo: real, hi: real)
    requires forall e | e in es :: lo <= f(e) <= hi
    ensures Mul(lo, |es| as real) <= Total(es, f) <= Mul(hi, |es| as real)
  {
    if es == [] {
      assert Mul(lo, 0.0) == 0.0 == Mul(hi, 0.0);
    } else {
      assert es[0] in es && |es| as real == |es[1..]| as real + 1.0;
      TotalBetween(es[1..], f, lo, hi);
      Distribute(lo, |es[1..]| as real, 1.0);
      Distribute(hi, |es[1..]| as real, 1.0);
    }
  }

  lemma MeanBetween(es: seq<EpisodeResult>, f: EpisodeResult -> real, lo: real, hi: real)
    requires es != [] && forall e | e in es :: lo <= f(e) <= hi
    ensures lo <= MeanOver(es, f) <= hi
  {
    TotalBetween(es, f, lo, hi);
    TimesQuotient(Total(es, f), |es| as real);
    QuotientBetween(MeanOver(es, f), |es| as real, lo, hi);
  }

  lemma QuotientBetween(q: real, n: real, lo: real, hi: real)
    requires n > 0.0 && Mul(lo, n) <= Mul(q, n) <= Mul(hi, n)
    ensures lo <= q <= hi
  {
  }

  /** The means of every report over genuine episodes: interactions lie in 1..9, those of the successful episodes in
      1..8, and there are some exactly when the success rate is positive; the observed gains are the entropy
      reductions; the Brier score is at most 2; confident successes are finally correct. */
  lemma PolicyMeans(es: seq<EpisodeResult>, r: PolicyReport)
    requires es != [] && AllGenuine(es) && ActionsListed(es) && IsReport(es, r)
    ensures 1.0 <= r.meanInteractions <= (MAX_INTERACTIONS + 1) as real
    ensures r.meanSuccessful.Some? <==> r.correctConfidence > 0.0
    ensures r.meanSuccessful.Some? ==> 1.0 <= r.meanSuccessful.value <= MAX_INTERACTIONS as real
    ensures r.meanObservedGain == r.meanReduction && 0.0 <= r.brier <= 2.0
    ensures r.correctConfidence <= r.correctFinal
  {
    AccountedEverywhere(es);
    MeansOfAccounted(es);
    FinallyCorrectCounts(es);
    RatesCompare(CountIf(es, Succeeded), CountIf(es, FinallyCorrect), |es|);
  }

  lemma MeansOfAccounted(es: seq<EpisodeResult>)
    requires es != [] && AllAccounted(es)
    ensures 1.0 <= MeanOver(es, Interactions) <= (MAX_INTERACTIONS + 1) as real
    ensures Successes(es) != [] ==> 1.0 <= MeanOver(Successes(es), Interactions) <= MAX_INTERACTIONS as real
    ensures MeanOver(es, Observed) == MeanOver(es, Reduction)
    ensures 0.0 <= MeanOver(es, Brier) <= 2.0
  {
    assert forall e | e in es :: Accounted(e);
    MeanBetween(es, Interactions, 1.0, (MAX_INTERACTIONS + 1) as real);
    MeanBetween(es, Brier, 0.0, 2.0);
    TotalSame(es, Observed, Reduction);
    if Successes(es) != [] { MeanBetween(Successes(es), Interactions, 1.0, MAX_INTERACTIONS as real); }
  }

  lemma {:induction false} FinallyCorrectCounts(es: seq<EpisodeResult>)
    requires AllAccounted(es)
    ensures CountIf(es, Succeeded) <= CountIf(es, FinallyCorrect)
  {
    if es != [] {
      FinallyCorrectCounts(es[..|es| - 1]);
      assert Accounted(es[|es| - 1]);
    }
  }

  lemma RatesCompare(a: nat, b: nat, n: nat)
    requires a <= b && n > 0
    ensures Div(a as real, n as real) <= Div(b as real, n as real)
    ensures Div(a as real, n as real) > 0.0 <==> a > 0
  {
    QuotientAtLeast(b as real, n as real, Div(a as real, n as real));
    assert Div(0.0, n as real) == 0.0;
  }

  /** The reported shares of the probes sum to 1 exactly when some action was permitted, and to 0 otherwise. */
  lemma SharesSum(counts: seq<nat>)
    ensures Total(ActionShares(counts), Same) == if SumCounts(counts) > 0 then 1.0 else 0.0
  {
    if SumCounts(counts) > 0 {
      PartialShares(counts, ActionShares(counts), SumCounts(counts));
      QuotientAtLeast(SumCounts(counts) as real, SumCounts(counts) as real, 1.0);
    } else {
      TotalUniform(|counts|, ActionShares(counts), 0.0);
    }
  }

  lemma {:induction false} PartialShares(counts: seq<nat>, shares: seq<real>, total: nat)
    requires total > 0 && |shares| == |counts|
    requires forall p | 0 <= p < |counts| :: shares[p] == Div(counts[p] as real, total as real)
    ensures Total(shares, Same) == Div(SumCounts(counts) as real, total as real)
  {
    if counts == [] {
      assert Div(0.0, total as real) == 0.0;
    } else {
      PartialShares(counts[1..], shares[1..], total);
      QuotientAdds(counts[0] as real, SumCounts(counts[1..]) as real, total as real);
    }
  }

  /** For any non-empty list of episodes, of any policies and settings: the correct-confidence, wrong-confidence and
      abstention rates sum to 1, the served actions total the safety permits and their shares sum to 1 if there is
      one, and the calibration error is at least the gap between final accuracy and mean confidence and at most 1. */
  lemma PolicyRates(es: seq<EpisodeResult>, r: PolicyReport)
    requires es != [] && AllGenuine(es) && ActionsListed(es) && IsReport(es, r)
    ensures r.correctConfidence + r.wrongConfidence + r.abstention == 1.0
    ensures SumCounts(SumActions(es)) == r.permits
    ensures Total(r.actionShares, Same) == if r.permits > 0 then 1.0 else 0.0
    ensures Calibrated(CalibrationRows(es), |es|)
  {
    AccountedEverywhere(es);
    OutcomesPartition(es);
    OutcomeRates(es);
    ActionRates(es);
    PolicyCalibration(es);
  }

  lemma OutcomeRates(es: seq<EpisodeResult>)
    requires es != [] && CountIf(es, Succeeded) + CountIf(es, WronglyConfident) + CountIf(es, Abstained) == |es|
    ensures var n := |es| as real;
      Div(CountIf(es, Succeeded) as real, n) + Div(CountIf(es, WronglyConfident) as real, n)
      + Div(CountIf(es, Abstained) as real, n) == 1.0
  {
    ThreeRates(CountIf(es, Succeeded), CountIf(es, WronglyConfident), CountIf(es, Abstained), |es|);
  }

  lemma ActionRates(es: seq<EpisodeResult>)
    requires AllAccounted(es)
    ensures ActionsListed(es) && SumCounts(SumActions(es)) == SumPermits(es)
    ensures Total(ActionShares(SumActions(es)), Same) == if SumPermits(es) > 0 then 1.0 else 0.0
  {
    ActionsArePermits(es);
    SharesSum(SumActions(es));
  }

  lemma PolicyCalibration(es: seq<EpisodeResult>)
    requires es != [] && AllAccounted(es)
    ensures Calibrated(CalibrationRows(es), |es|)
  {
    var rows := CalibrationRows(es);
    forall i | 0 <= i < |es| ensures 0.0 <= rows[i].confidence <= 1.0 { assert Accounted(es[i]); }
    EceBounds(rows, |es|);
  }

  lemma ThreeRates(a: nat, b: nat, c: nat, n: nat)
    requires a + b + c == n && n > 0
    ensures Div(a as real, n as real) + Div(b as real, n as real) + Div(c as real, n as real) == 1.0
  {
    QuotientAdds(a as real, b as real, n as real);
    QuotientAdds(a as real + b as real, c as real, n as real);
    QuotientAtLeast(n as real, n as real, 1.0);
  }
}
