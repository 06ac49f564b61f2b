/** What normalisation and the timeline update do to each hypothesis. */
module BeliefLaws {
  import opened Numbers
  import opened Bayes

  function Positive(x: real): real { if x <= 0.0 then 0.0 else x }

  /** The entries of `r` stand in the proportion of the positive parts of `w`, and are all equal if there are none. */
  ghost predicate InProportion(r: Vector, w: Vector) {
    && |r| == |w|
    && if Total(w, Positive) > 0.0 then forall i | 0 <= i < |w| :: Mul(r[i], Total(w, Positive)) == Positive(w[i])
       else forall i | 0 <= i < |w| :: Mul(r[i], |w| as real) == 1.0
  }

  lemma NormalizeIsLawful(w: Vector)
    requires w != []
    ensures InProportion(Normalize(w), w)
  {
    TotalSame(w, Plus, Positive);
    if Total(w, Positive) > 0.0 {
      forall i | 0 <= i < |w| ensures Mul(Normalize(w)[i], Total(w, Positive)) == Positive(w[i]) {
        TimesQuotient(Plus(w[i]), Total(w, Plus));
      }
    } else {
      TimesQuotient(1.0, |w| as real);
    }
  }

  /** How likely the event types are under one hypothesis. */
  ghost function Likely(h: nat): map<string, real>
    requires h < 4
  {
    match h
    case 0 => map[
      "network_scan" := 0.80, "ssh_login_failure" := 0.18, "admin_route_probe" := 0.33,
      "synthetic_credential_opened" := 0.05, "decoy_service_pivot" := 0.04, "synthetic_archive_requested" := 0.02]
    case 1 => map[
      "network_scan" := 0.10, "ssh_login_failure" := 0.65, "admin_route_probe" := 0.46,
      "synthetic_credential_opened" := 0.72, "decoy_service_pivot" := 0.13, "synthetic_archive_requested" := 0.06]
    case 2 => map[
      "network_scan" := 0.07, "ssh_login_failure" := 0.14, "admin_route_probe" := 0.15,
      "synthetic_credential_opened" := 0.16, "decoy_service_pivot" := 0.75, "synthetic_archive_requested" := 0.15]
    case 3 => map[
      "network_scan" := 0.03, "ssh_login_failure" := 0.03, "admin_route_probe" := 0.06,
      "synthetic_credential_opened" := 0.07, "decoy_service_pivot" := 0.08, "synthetic_archive_requested" := 0.77]
  }

  ghost predicate Recognised(eventType: string) { forall h | 0 <= h < 4 :: eventType in Likely(h) }

  lemma LikelihoodIsLikely(eventType: string, h: nat)
    requires h < 4
    ensures EventLikelihood(eventType).Some? <==> eventType in Likely(h)
    ensures EventLikelihood(eventType).Some? ==> EventLikelihood(eventType).value[h] == Likely(h)[eventType]
  {
  }

  /** A recognised event weighs each hypothesis, at a belief of at least a billionth, by how likely it makes the event;
      any other event changes nothing but the scale. */
  ghost predicate UpdateLaw(prior: Vector, eventType: string, r: Vector)
    requires |prior| == 4
  {
    if Recognised(eventType) then exists w: Vector :: |w| == 4 && Weighed(prior, eventType, w) && InProportion(r, w)
    else InProportion(r, prior)
  }

  ghost predicate Weighed(prior: Vector, eventType: string, w: Vector)
    requires |prior| == 4 == |w| && Recognised(eventType)
  {
    forall h | 0 <= h < 4 ::
      w[h] == Mul(if prior[h] < 0.000000001 then 0.000000001 else prior[h], Likely(h)[eventType])
  }

  lemma UpdateIsLawful(exp: real -> real, ln: real -> real, prior: Vector, eventType: string)
    requires IsExpLog(exp, ln) && |prior| == 4
    ensures UpdateLaw(prior, eventType, UpdateBeliefs(exp, ln, prior, eventType))
  {
    LogFormIsProductForm(exp, ln, prior, eventType);
    forall h | 0 <= h < 4
      ensures EventLikelihood(eventType).Some? <==> eventType in Likely(h)
      ensures EventLikelihood(eventType).Some? ==> EventLikelihood(eventType).value[h] == Likely(h)[eventType]
    {
      LikelihoodIsLikely(eventType, h);
    }
    if EventLikelihood(eventType).Some? {
      var w := Times(Floored(prior), EventLikelihood(eventType).value);
      NormalizeIsLawful(w);
      assert Weighed(prior, eventType, w);
    } else {
      NormalizeIsLawful(prior);
      assert eventType !in Likely(0);
    }
  }
}
