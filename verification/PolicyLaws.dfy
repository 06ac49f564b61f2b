/** The safety gate, and the policy report over a list of episodes, in terms of the action and the episodes. */
module PolicyLaws {
  import opened Numbers
  import opened Bayes
  import opened Calibration
  import opened Steering
  import CalibrationLaws

  // ---- the gate ----

  ghost predicate Harmless(s: Settings, a: ProposedAction) {
    && a.namespace == s.authorizedNamespace && a.decoyOnly && |a.target| >= 6 && a.target[..6] == "decoy-"
    && !a.networkEgress && a.syntheticDataOnly && a.reversible
    && 1 <= a.memoryMb <= s.maxMemoryMb && 0.0 < a.cpuCores <= s.maxCpuCores && 1 <= a.ttlSeconds <= s.maxTtlSeconds
  }

  /** The rules an action breaks. */
  ghost predicate Breaks(s: Settings, a: ProposedAction, rule: string) {
    || (rule == "authorized_namespace" && a.namespace != s.authorizedNamespace)
    || (rule == "decoy_target" && !(a.decoyOnly && |a.target| >= 6 && a.target[..6] == "decoy-"))
    || (rule == "no_network_egress" && a.networkEgress)
    || (rule == "synthetic_data" && !a.syntheticDataOnly)
    || (rule == "reversible" && !a.reversible)
    || (rule == "memory_ceiling" && !(1 <= a.memoryMb <= s.maxMemoryMb))
    || (rule == "cpu_ceiling" && !(0.0 < a.cpuCores <= s.maxCpuCores))
    || (rule == "ttl_ceiling" && !(1 <= a.ttlSeconds <= s.maxTtlSeconds))
  }

  lemma {:induction false} FailedAreNamed(cs: seq<SafetyCheck>, rule: string)
    ensures rule in FailedRules(cs) <==> exists i | 0 <= i < |cs| :: !cs[i].passed && cs[i].rule == rule
  {
    if cs != [] {
      FailedAreNamed(cs[1..], rule);
      if exists i | 0 <= i < |cs| :: !cs[i].passed && cs[i].rule == rule {
        var i :| 0 <= i < |cs| && !cs[i].passed && cs[i].rule == rule;
        if i > 0 { assert cs[1..][i - 1] == cs[i]; }
      }
    }
  }

  /** An action is permitted exactly if it is harmless in all eight respects; the failed rules are those it breaks. */
  lemma GateIsLawful(s: Settings, a: ProposedAction)
    ensures Permits(s, a) <==> Harmless(s, a)
    ensures forall rule :: rule in FailedRules(Checks(s, a)) <==> Breaks(s, a, rule)
  {
    var cs := Checks(s, a);
    DecoyPrefix(a.target);
    assert Permits(s, a) <==>
      cs[0].passed && cs[1].passed && cs[2].passed && cs[3].passed
      && cs[4].passed && cs[5].passed && cs[6].passed && cs[7].passed;
    forall rule ensures rule in FailedRules(cs) <==> Breaks(s, a, rule) {
      FailedAreNamed(cs, rule);
      RulesByPlace(s, a, rule);
    }
  }

  lemma DecoyPrefix(target: string)
    ensures "decoy-" <= target <==> |target| >= 6 && target[..6] == "decoy-"
  {
  }

  lemma RulesByPlace(s: Settings, a: ProposedAction, rule: string)
    ensures (exists i | 0 <= i < 8 :: !Checks(s, a)[i].passed && Checks(s, a)[i].rule == rule) <==> Breaks(s, a, rule)
  {
    var cs := Checks(s, a);
    DecoyPrefix(a.target);
    assert (exists i | 0 <= i < 8 :: !cs[i].passed && cs[i].rule == rule) <==>
      FailsAt(cs, 0, rule) || FailsAt(cs, 1, rule) || FailsAt(cs, 2, rule) || FailsAt(cs, 3, rule)
      || FailsAt(cs, 4, rule) || FailsAt(cs, 5, rule) || FailsAt(cs, 6, rule) || FailsAt(cs, 7, rule);
  }

  ghost predicate FailsAt(cs: seq<SafetyCheck>, i: nat, rule: string) {
    i < |cs| && !cs[i].passed && cs[i].rule == rule
  }

  // ---- columns of episodes ----

  function Steps(e: EpisodeResult): real { e.interactions as real }
  function StepsToSuccess(e: EpisodeResult): real { if e.success then e.interactions as real else 0.0 }
  function EntropyLeft(e: EpisodeResult): real { e.finalEntropy }
  function EntropyRemoved(e: EpisodeResult): real { e.entropyReduction }
  function GainExpected(e: EpisodeResult): real { e.expectedGain }
  function GainObserved(e: EpisodeResult): real { e.observedGain }
  function Spent(e: EpisodeResult): real { e.totalCost }
  function StepsPermitted(e: EpisodeResult): real { e.permitted as real }
  function StepsDenied(e: EpisodeResult): real { e.denied as real }

  /** The squared miss of one hypothesis. */
  function Miss(e: EpisodeResult, h: nat): real
    requires h < |e.finalDistribution|
  {
    var p := e.finalDistribution[h];
    if h == e.intent then Mul(p - 1.0, p - 1.0) else Mul(p, p)
  }

  /** The squared misses of the four hypotheses. */
  function SquaredMisses(e: EpisodeResult): real {
    if |e.finalDistribution| == 4 then Miss(e, 0) + Miss(e, 1) + Miss(e, 2) + Miss(e, 3) else 0.0
  }

  lemma BrierIsSquaredMisses(e: EpisodeResult)
    requires |e.finalDistribution| == 4
    ensures Brier(e) == SquaredMisses(e)
  {
    var d := e.finalDistribution;
    assert Distance(d, e.intent, 1) == Miss(e, 0);
    assert Distance(d, e.intent, 2) == Miss(e, 0) + Miss(e, 1);
    assert Distance(d, e.intent, 3) == Miss(e, 0) + Miss(e, 1) + Miss(e, 2);
  }

  ghost predicate FourEach(es: seq<EpisodeResult>) { forall e | e in es :: |e.finalDistribution| == 4 }

  lemma MeanIsRatio(es: seq<EpisodeResult>, f: EpisodeResult -> real, total: real, n: nat)
    requires es != [] && total == Total(es, f) && n == |es|
    ensures Ratio(MeanOver(es, f), total, n as real)
  {
    QuotientIsRatio(total, n as real);
  }

  lemma MeanIs(es: seq<EpisodeResult>, f: EpisodeResult -> real, g: EpisodeResult -> real)
    requires es != [] && forall e | e in es :: f(e) == g(e)
    ensures Ratio(MeanOver(es, f), Total(es, g), |es| as real)
  {
    TotalSame(es, f, g);
    MeanIsRatio(es, f, Total(es, g), |es|);
  }

  lemma {:induction false} CountedByPlace(es: seq<EpisodeResult>, q: EpisodeResult -> bool)
    ensures CountIf(es, q) == |Where(es, q)|
  {
    if es == [] {
      WhereNone(q);
    } else {
      var n := |es| - 1;
      CountedByPlace(es[..n], q);
      WhereSnoc(es[..n], es[n], q);
      assert es == es[..n] + [es[n]];
    }
  }

  function Won(): EpisodeResult -> bool { (e: EpisodeResult) => e.success }
  function Right(): EpisodeResult -> bool { (e: EpisodeResult) => e.correctFinal }
  function Misled(): EpisodeResult -> bool { (e: EpisodeResult) => e.wrongConfidence }
  function Unsure(): EpisodeResult -> bool { (e: EpisodeResult) => !e.confident }

  lemma RateIs(es: seq<EpisodeResult>, f: EpisodeResult -> bool, g: EpisodeResult -> bool)
    requires es != [] && forall e :: f(e) == g(e)
    ensures Ratio(Div(CountIf(es, f) as real, |es| as real), |Where(es, g)| as real, |es| as real)
  {
    CountedByPlace(es, f);
    assert Where(es, f) == Where(es, g);
    TimesQuotient(CountIf(es, f) as real, |es| as real);
  }

  // ---- the report ----

  ghost predicate Rates(es: seq<EpisodeResult>, r: PolicyReport) {
    && Ratio(r.correctConfidence, |Where(es, Won())| as real, |es| as real)
    && Ratio(r.correctFinal, |Where(es, Right())| as real, |es| as real)
    && Ratio(r.wrongConfidence, |Where(es, Misled())| as real, |es| as real)
    && Ratio(r.abstention, |Where(es, Unsure())| as real, |es| as real)
  }

  ghost predicate Means(es: seq<EpisodeResult>, r: PolicyReport) {
    && Ratio(r.meanInteractions, Total(es, Steps), |es| as real)
    && Ratio(r.meanFinalEntropy, Total(es, EntropyLeft), |es| as real)
    && Ratio(r.meanReduction, Total(es, EntropyRemoved), |es| as real)
    && Ratio(r.meanExpectedGain, Total(es, GainExpected), |es| as real)
    && Ratio(r.meanObservedGain, Total(es, GainObserved), |es| as real)
    && Ratio(r.meanCost, Total(es, Spent), |es| as real)
    && Ratio(r.brier, Total(es, SquaredMisses), |es| as real)
  }

  ghost predicate Sums(es: seq<EpisodeResult>, r: PolicyReport) {
    && r.permits as real == Total(es, StepsPermitted) && r.denials as real == Total(es, StepsDenied)
    && (r.meanSuccessful.None? <==> Where(es, Won()) == {})
    && (r.meanSuccessful.Some? ==>
          Ratio(r.meanSuccessful.value, Total(es, StepsToSuccess), |Where(es, Won())| as real))
  }

  /** Success counts, steps and costs count against, wrong confidence counts against twice. */
  ghost predicate Worth(r: PolicyReport) {
    90.0 * r.utility ==
      90.0 * r.correctConfidence - r.meanInteractions - 1.08 * r.meanCost - 180.0 * r.wrongConfidence
  }

  ghost predicate PolicyLaw(es: seq<EpisodeResult>, r: PolicyReport) {
    Rates(es, r) && Means(es, r) && Sums(es, r) && Worth(r) && CalibrationError(es, r.ece)
  }

  /** The error of the leading probabilities against whether the leading hypothesis was right. */
  ghost predicate CalibrationError(es: seq<EpisodeResult>, ece: real) {
    exists s: seq<Sample> ::
      && |s| == |es| && (forall i | 0 <= i < |es| :: s[i] == Sample(es[i].topProbability, es[i].correctFinal))
      && Average(ece, if |es| == 0 then 0.0 else CalibrationLaws.AbsoluteGaps(s, 10), |es| as real)
  }

  lemma {:induction false} PermitsAddUp(es: seq<EpisodeResult>)
    ensures SumPermits(es) as real == Total(es, StepsPermitted)
    ensures SumDenials(es) as real == Total(es, StepsDenied)
  {
    if es != [] {
      var n := |es| - 1;
      PermitsAddUp(es[..n]);
      TotalSnoc(es[..n], es[n], StepsPermitted);
      TotalSnoc(es[..n], es[n], StepsDenied);
      assert es == es[..n] + [es[n]];
    }
  }

  lemma {:induction false} SuccessesAddUp(es: seq<EpisodeResult>)
    ensures Total(Successes(es), Interactions) == Total(es, StepsToSuccess)
  {
    if es != [] {
      var n := |es| - 1;
      SuccessesAddUp(es[..n]);
      assert es == es[..n] + [es[n]];
      OneEpisodeMore(es[..n], es[n], Successes(es[..n]));
    }
  }

  lemma OneEpisodeMore(init: seq<EpisodeResult>, e: EpisodeResult, won: seq<EpisodeResult>)
    requires Total(won, Interactions) == Total(init, StepsToSuccess)
    ensures Total(won + if e.success then [e] else [], Interactions) == Total(init + [e], StepsToSuccess)
  {
    TotalSnoc(init, e, StepsToSuccess);
    if e.success { TotalSnoc(won, e, Interactions); } else { assert won + [] == won; }
  }

  lemma SumsAreLawful(es: seq<EpisodeResult>, r: PolicyReport)
    requires es != [] && ActionsListed(es) && IsReport(es, r)
    ensures Sums(es, r)
  {
    PermitsAddUp(es);
    SuccessesByPlace(es);
    if Successes(es) != [] { SuccessMean(es); }
  }

  lemma SuccessesByPlace(es: seq<EpisodeResult>)
    ensures |Successes(es)| == |Where(es, Won())|
  {
    CountedByPlace(es, Succeeded);
    assert Where(es, Succeeded) == Where(es, Won());
  }

  lemma SuccessMean(es: seq<EpisodeResult>)
    requires Successes(es) != []
    ensures Ratio(MeanOver(Successes(es), Interactions), Total(es, StepsToSuccess), |Where(es, Won())| as real)
  {
    SuccessesByPlace(es);
    SuccessesAddUp(es);
    MeanIsRatio(Successes(es), Interactions, Total(es, StepsToSuccess), |Where(es, Won())|);
  }

  lemma RatesAreLawful(es: seq<EpisodeResult>, r: PolicyReport)
    requires es != [] && ActionsListed(es) && IsReport(es, r)
    ensures Rates(es, r)
  {
    RateIs(es, Succeeded, Won());
    RateIs(es, FinallyCorrect, Right());
    RateIs(es, WronglyConfident, Misled());
    RateIs(es, Abstained, Unsure());
  }

  lemma MeansAreLawful(es: seq<EpisodeResult>, r: PolicyReport)
    requires es != [] && ActionsListed(es) && IsReport(es, r) && FourEach(es)
    ensures Means(es, r)
  {
    MeanIs(es, Interactions, Steps);
    MeanIs(es, FinalEntropy, EntropyLeft);
    MeanIs(es, Reduction, EntropyRemoved);
    MeanIs(es, Expected, GainExpected);
    MeanIs(es, Observed, GainObserved);
    MeanIs(es, Cost, Spent);
    forall e | e in es ensures Brier(e) == SquaredMisses(e) { BrierIsSquaredMisses(e); }
    MeanIs(es, Brier, SquaredMisses);
  }

  /** Every figure of the report, from the episodes. */
  lemma ReportIsLawful(es: seq<EpisodeResult>, r: PolicyReport)
    requires es != [] && ActionsListed(es) && IsReport(es, r) && FourEach(es)
    ensures PolicyLaw(es, r)
  {
    RatesAreLawful(es, r);
    MeansAreLawful(es, r);
    SumsAreLawful(es, r);
    ErrorIsLawful(es);
    WorthOf(r);
  }

  lemma ErrorIsLawful(es: seq<EpisodeResult>)
    ensures CalibrationError(es, Ece(CalibrationRows(es), |es|))
  {
    CalibrationLaws.ReliabilityIsLawful(CalibrationRows(es), |es|);
  }

  lemma WorthOf(r: PolicyReport)
    requires r.utility == Utility(r.correctConfidence, r.meanInteractions, r.meanCost, r.wrongConfidence)
    ensures Worth(r)
  {
  }

  // ---- the actions ----

  ghost function TimesServed(p: nat): EpisodeResult -> real {
    (e: EpisodeResult) => if p < |e.actionCounts| then e.actionCounts[p] as real else 0.0
  }

  lemma {:induction false} ActionsAddUp(es: seq<EpisodeResult>, p: nat)
    requires p < 4 && ActionsListed(es)
    ensures ActionTotal(es, p) as real == Total(es, TimesServed(p))
  {
    if es != [] {
      var n := |es| - 1;
      ActionsAddUp(es[..n], p);
      TotalSnoc(es[..n], es[n], TimesServed(p));
      assert es == es[..n] + [es[n]];
    }
  }

  /** The share of a probe times all served actions is how often it was served. */
  lemma SharesAreLawful(es: seq<EpisodeResult>, r: PolicyReport, p: nat)
    requires es != [] && ActionsListed(es) && IsReport(es, r) && p < 4
    ensures |r.actionShares| == 4 && ShareLaw(es, p, r.actionShares[p])
  {
    ActionsShared(es, p);
  }

  ghost predicate ShareLaw(es: seq<EpisodeResult>, p: nat, share: real) {
    var all := Total(es, TimesServed(0)) + Total(es, TimesServed(1)) + Total(es, TimesServed(2))
      + Total(es, TimesServed(3));
    if all == 0.0 then share == 0.0 else Mul(share, all) == Total(es, TimesServed(p))
  }

  lemma ActionsShared(es: seq<EpisodeResult>, p: nat)
    requires ActionsListed(es) && p < 4
    ensures ShareLaw(es, p, ActionShares(SumActions(es))[p])
  {
    var counts := SumActions(es);
    ActionsAddUp(es, 0);
    ActionsAddUp(es, 1);
    ActionsAddUp(es, 2);
    ActionsAddUp(es, 3);
    SumOfFour(counts);
    ShareOfActions(counts, p);
  }

  lemma ShareOfActions(counts: seq<nat>, p: nat)
    requires p < |counts|
    ensures if SumCounts(counts) == 0 then ActionShares(counts)[p] == 0.0
      else Mul(ActionShares(counts)[p], SumCounts(counts) as real) == counts[p] as real
  {
    if SumCounts(counts) > 0 { TimesQuotient(counts[p] as real, SumCounts(counts) as real); }
  }

  lemma SumOfFour(c: seq<nat>)
    requires |c| == 4
    ensures SumCounts(c) == c[0] + c[1] + c[2] + c[3]
  {
    assert c[1..][1..][1..][1..] == [];
    assert SumCounts(c[1..][1..][1..]) == c[3];
    assert SumCounts(c[1..][1..]) == c[2] + c[3];
  }
}
