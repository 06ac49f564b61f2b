# AEGIS: verified model of the analysis and accountability core

AEGIS is a local deception and threat-analysis workbench. This project models, in Dafny, the parts of it whose
correctness is algorithmic, and proves what they are for:

- **Campaign clustering** (`Order`, `Numbers`, `Graph`, `DisjointSets`, `Components`, `GuardGates`, `GuardTheorems`,
  `ClusterMetrics`, `MetricTheorems`, `MetricLaws`): a mutable union-find with path compression, union by size and
  explicit group sets; plain and guarded component builders; and the B-cubed, pairwise and purity scores of a
  clustering.
- **Evidence linking** (`Similarity`, `Linker`, `LinkLaws`): two independent longest-common-subsequence programs, the
  multi-family linker with its diversity gate, and the case comparison.
- **Steering** (`Bayes`, `BeliefLaws`, `Information`, `Steering`, `EpisodeLaws`, `PolicyLaws`, `Calibration`,
  `CalibrationLaws`): posterior updates, expected information gain, the verify-before-observe episode loop behind the
  safety gate, the policy report, and calibration reports.
- **Ledgers and the command protocol** (`Chain`, `Ledgers`, `LedgerLaws`, `PostProtocol`, `ProtocolLaws`): hash-linked
  journals under concurrent appenders, their verifiers, and the accept / execute / seal protocol of the POST handler.
- **Imports and governance** (`Gateway`, `GatewayLaws`, `Registry`, `RegistrationLaws`, `Governance`,
  `GovernanceLaws`): the deduplicating sensor import and its ledger, the artifact registry with lineage, and the
  promotion decisions the service can reach.

Code that changes state in place is a class or a method with loops, proved equal to a specification function or
predicate; the theorems are lemmas about those specifications. The modules named `...Laws` and `GuardGates` then say
what those specifications come to in terms of the inputs alone: which gate decides an edge, which families match, what
an observation does to a belief, which field of a request lands in which column. They describe each result with the
inputs, sets of positions and cross-multiplied quotients, so a specification that swapped two values or skipped a check
would contradict them.

Numbers that the program keeps in floating point are `real`. Logarithms, exponentials, SHA-256, HMAC, clocks, random
sources, Python's text functions and the environment's choices are parameters. The laws a theorem needs of them stand
in its `requires`: `lg(xy) = lg x + lg y` and `lg x <= k (x - 1)` for the logarithm, `exp` turning sums into products,
and for hashes only that the records at hand do not collide and do not hash to the genesis value.

Where the code and its own words differ, the model follows the code:

- `clustering_metrics` says that clusters must cover each session exactly once, but only compares the sets of names.
  Overlapping clusters pass; `MetricTheorems.OverlapDefeatsPurity` gives one with purity 2, and
  `MetricTheorems.CoverageGuardExact` says exactly when the check suffices.
- Timeline updates on stored beliefs commute except where the 1e-9 floor intervenes between two recognised events;
  `Bayes.TimelineEventsCommute` gives the exact condition for all priors and all event types, unrecognised ones too.
- Step-by-step Bayes restarts from the uniform belief when an observation contradicts everything believed;
  `Bayes.SequentialIsBatchExactly` says when it still agrees with one batch update and `Bayes.OrdersAgreeExactly` when
  two orders agree. The shipped probes have strictly positive likelihoods, so for episodes all of them always agree
  (`Steering.EpisodeBeliefIsBatch`, `Steering.ObservationOrderDoesNotMatter`).
- A gateway commit loses accounting when it raises part-way, or when its 64-bit import id is already taken and the
  report is dropped in silence; `Gateway.EveryRunConservesExactly` says exactly when the ledger still accounts for every
  row, and `Gateway.RowIdClashWitness` and `Gateway.ImportIdClashWitness` show both ways it does not.
- Case evidence is appended without a lock; `Ledgers.RacingEventsFork` shows what two racing appends do and
  `Ledgers.EvidenceRunVerifiesExactly` says exactly which interleavings over many cases leave a table whose cases all
  verify.

## Model

| member | source | states |
|---|---|---|
| Order.SortIsStable | aegis/trace_graph_research.py:190 | `sorted` keeps the input order of elements whose keys tie. |
| Order.StringLeIsDictionary | aegis/trace_graph_research.py:183 | The order of names is dictionary order: a prefix first, otherwise the first differing character decides. |
| Order.CanonicalUnique | aegis/trace_graph_research.py:179-183 | A family of groups has at most one canonical listing (members increasing, groups by first member), so the output of `clusters` is determined by the partition alone. |
| Order.CanonicalLength | aegis/trace_graph_research.py:179-183 | The canonical listing has exactly one entry per group. |
| Order.SortedGroupsAreCanonical | aegis/trace_graph_research.py:179-183 | Sorting the sorted groups by (first member, size) yields the canonical listing. |
| Numbers.MedianForcesSupport | aegis/trace_graph_research.py:219-221 | For any scores, a median at or above the threshold forces at least half of them to reach it. |
| Numbers.StatisticsPermutation | aegis/trace_graph_research.py:214-221 | Mean, support and median do not depend on the order of the scores. |
| Numbers.MedianIsMiddle | aegis/trace_graph_research.py:221 | The median is the mean of the values that rank in the middle, each of which as many scores stay below as stay above, and nothing else is. |
| Graph.MergeAllIsReachability | aegis/trace_graph_research.py:190-192 | Merging along all edges puts two members in one class exactly when a walk over the edges joins them. |
| Graph.MergeAllCount | aegis/trace_graph_research.py:169-177 | `n` edges leave at least (members - n) classes. |
| Graph.CountForcesForest | aegis/trace_graph_research.py:169-177 | If every edge lowered the class count, removing any one of them disconnects its endpoints: the edges are a forest. |
| DisjointSets.ViewIsPartition | aegis/trace_graph_research.py:155-158 | Under the representation invariant the groups partition the members. |
| DisjointSets.GroupsAreClasses | aegis/trace_graph_research.py:155-183 | The keys of `groups` are exactly the roots and its values exactly the classes. |
| DisjointSets.CompressKeeps | aegis/trace_graph_research.py:160-164 | Path compression keeps the invariant and every member's class. |
| DisjointSets.UnionStateMerges | aegis/trace_graph_research.py:169-177 | `union` keeps the invariant and merges exactly the two classes; roots agree exactly when classes do. |
| DisjointSets.DepthIsLogarithmic | aegis/trace_graph_research.py:160-177 | Some n steps from any member reach its root with 2^n at most the size of its group: the recursion of `find` is logarithmic. |
| DisjointSets.UnionFind.constructor | aegis/trace_graph_research.py:156-158 | Every member starts alone. |
| DisjointSets.UnionFind.Find | aegis/trace_graph_research.py:160-164 | Returns the root, compresses exactly the walked path, changes nobody's class, and terminates on every valid forest. |
| DisjointSets.UnionFind.Members | aegis/trace_graph_research.py:166-167 | Returns the whole class of a member and changes no class. |
| DisjointSets.UnionFind.Union | aegis/trace_graph_research.py:169-177 | The classes become the merge of the old ones; True exactly when the two differed. |
| DisjointSets.UnionFind.Clusters | aegis/trace_graph_research.py:179-183 | Returns the canonical listing of the classes. |
| Components.OrderedIsStableByProbabilityAndKey | aegis/trace_graph_research.py:190 | Edges are processed by falling probability, then key, ties in input order. |
| Components.EdgesByStrengthAndEnds | aegis/trace_graph_research.py:208 | One edge comes before another exactly when it is more probable, or as probable with its ends, in dictionary order, first. |
| Components.ConnectedComponents | aegis/trace_graph_research.py:186-193 | Fails exactly when a qualifying edge has an unknown endpoint; otherwise returns the canonical list of the closure classes. |
| Components.ClosureIsReachability | aegis/trace_graph_research.py:186-193 | The closure classes partition the members and are exactly the reflexive-symmetric-transitive closure of edges at or above the threshold. |
| Components.EdgeOrderIsIrrelevant | aegis/trace_graph_research.py:190-192 | Any rearrangement or repetition of the edges gives the same list. |
| Components.HigherThresholdRefines | aegis/trace_graph_research.py:191 | Raising the threshold only splits classes and introduces no failure. |
| Components.ScoresAreOrderFree | aegis/trace_graph_research.py:214-221 | The gate statistics do not depend on the order in which the two groups are enumerated. |
| Components.EvaluateEdge | aegis/trace_graph_research.py:214-246 | The decision for an edge equals the verdict specified on the two groups as sets; what that verdict is, gate by gate, is `GuardGates.VerdictRecords`. |
| Components.ConsiderEdge | aegis/trace_graph_research.py:211-262 | One iteration: same class means no change; otherwise the verdict is recorded when it merges or the edge is a bridge stress, and merged when it says so (when it does: `GuardGates.GuardDecidesExactly`). |
| Components.GuardedComponents | aegis/trace_graph_research.py:196-263 | Fails exactly on an unknown endpoint of a qualifying edge; otherwise returns the canonical clusters and the audit trail of the specified run, each step of which is decided as `GuardGates.GuardDecidesExactly` says. |
| GuardGates.GuardDecidesExactly | aegis/trace_graph_research.py:204-263 | For every input and every edge in processing order: below the threshold or inside one group nothing happens; between two groups the edge merges exactly when the size cap and three families hold and, with one cross pair, the seed probability, with more, at least the required share of cross pairs reaches the threshold, their scores sum to 0.04 above it each and their median reaches it; it is recorded exactly when it merges or is a stress bridge, with those statistics and the first gate that refused. |
| GuardGates.VerdictRecords | aegis/trace_graph_research.py:214-246 | The decision on two groups, from any listing of their cross pairs: support, mean, size, verdict and reason. |
| GuardGates.MergesNeedMajority | aegis/trace_graph_research.py:223-237 | No merge of more than two single members rests on fewer than half of its cross pairs, so one bridge never joins two cohorts with three or more. |
| GuardGates.LookupIsPairScore | aegis/trace_graph_research.py:205-218 | A cross pair scores the probability of the last edge that joins it, in either direction, and 0 without one. |
| GuardTheorems.AuditTrailIsSpanningForest | aegis/trace_graph_research.py:247-263 | The clusters are exactly the connected components of the edges recorded as MERGE, those edges are acyclic, and clusters plus merges equal members. |
| GuardTheorems.ClustersAreSeededAndCapped | aegis/trace_graph_research.py:222-246 | Every cluster respects the size cap (when it is at least 1) and, with two or more members, contains a MERGE edge at or above the seed threshold with three families; every merge is explained by an input edge. |
| GuardTheorems.GuardRefinesClosure | aegis/trace_graph_research.py:186-263 | Every guarded cluster lies inside one plain component at the same threshold. |
| GuardTheorems.WeakSupportIsRedundant | aegis/trace_graph_research.py:228-237 | Any two minimum supports of at most one half give the same clusters and the same audit trail. |
| GuardTheorems.GridRowsCoincide | aegis/trace_graph_research.py:344-353 | The 0.35 and 0.45 support rows of the selection grid are the same experiment. |
| GuardTheorems.GuardIgnoresEdgeOrder | aegis/trace_graph_research.py:204-208 | With distinct edge keys, any permutation of the edges gives the same clusters and trail. |
| ClusterMetrics.LabelsMeaning | aegis/trace_graph_research.py:73-78 | A member is labelled by the last cluster that holds it, and unlabelled exactly when none does. |
| ClusterMetrics.ClusterLabels | aegis/trace_graph_research.py:73-78 | The labelling loop computes that labelling. |
| ClusterMetrics.GroupBy | aegis/trace_graph_research.py:89-94 | Inverts a labelling: each label's group is exactly its carriers. |
| ClusterMetrics.CountPairs | aegis/trace_graph_research.py:112-120 | The four counters of the pair loop are the four cells of the pair confusion. |
| ClusterMetrics.ConfusionTotal | aegis/trace_graph_research.py:112-120 | The four cells add up to the number of pairs. |
| ClusterMetrics.Choose2Closed | aegis/trace_graph_research.py:114 | The number of pairs is n(n-1)/2. |
| ClusterMetrics.PairsZero | aegis/trace_graph_research.py:114-120 | A cell is zero exactly when no pair falls into it. |
| ClusterMetrics.MaxCount | aegis/trace_graph_research.py:128-134 | Returns the largest number of members of one campaign in a cluster. |
| ClusterMetrics.ClusteringMetrics | aegis/trace_graph_research.py:81-152 | Raises ValueError exactly when the covered names differ from the truth, ZeroDivisionError exactly on the empty truth, and otherwise reports B-cubed, pairwise, purity and split scores as specified. |
| MetricTheorems.ScoresAgree | aegis/trace_graph_research.py:96-152 | For every truth and every partition: no false pair iff B-cubed precision is 1 iff purity is 1; no missed pair iff B-cubed recall is 1 iff no campaign is split; the cells total n(n-1)/2; B-cubed precision is at most purity, which is at most 1. |
| MetricLaws.PairsAreLawful | aegis/trace_graph_research.py:112-120 | tp, fp, fn and tn are each half the number of ordered pairs of different sessions with, respectively, one campaign and one cluster, only one cluster, only one campaign, neither. |
| MetricLaws.BcubedIsLawful | aegis/trace_graph_research.py:96-105 | Precision and recall average, over the sessions, what the cluster and the campaign of a session share, of the cluster and of the campaign. |
| MetricLaws.PurityIsLawful | aegis/trace_graph_research.py:128-134 | Purity times the sessions is the sum over the clusters of the largest number of places that one campaign holds. |
| MetricLaws.SplitsAreLawful | aegis/trace_graph_research.py:135-138 | The split campaigns are those with two sessions in different clusters. |
| MetricLaws.CoverageIsLawful | aegis/trace_graph_research.py:84-87 | The clusters are scored exactly when the names they hold are those of the truth. |
| MetricTheorems.BcubedIsOne | aegis/trace_graph_research.py:96-105 | A B-cubed average is at most 1, and 1 exactly when each group carries one label. |
| MetricTheorems.SplitFree | aegis/trace_graph_research.py:135-138 | No split campaign exactly when each campaign carries one predicted label. |
| MetricTheorems.CoverageGuardExact | aegis/trace_graph_research.py:84-87 | When the name sets agree, the clusters partition the truth if and only if their sizes add up to it. |
| MetricTheorems.OverlapDefeatsPurity | aegis/trace_graph_research.py:86-87 | A concrete overlapping input passes the coverage check and counts one member twice in the purity numerator. |
| Similarity.LcsIsOptimal | aegis/trace.py:220-233 | The common specification of both programs is the length of a longest common subsequence: one of that length exists and none is longer. |
| Similarity.ScoreLaws | aegis/trace.py:220-233 | The similarity is symmetric, lies in [0, 1], and is 1 exactly for equal non-empty sequences. |
| Similarity.ScoreIsLongest | aegis/trace.py:220-233 | For any longest common subsequence, its length is the score times the longer length; the score is 0 exactly when nothing is common. |
| Similarity.RollingRowSimilarity | aegis/trace.py:220-233 | The rolling-row program computes longest common subsequence over maximum length. |
| Similarity.MatrixSimilarity | aegis/investigation.py:118-130 | The full-matrix program computes the same value on all inputs. |
| Linker.JaccardLaws | aegis/trace.py:215-217 | Overlap is symmetric, in [0, 1], and 1 exactly for equal non-empty sets. |
| Linker.ExtractProfile | aegis/trace.py:165-212 | The event loop collects exactly the tags of the events: for each family its payload fields, a value or a list of values each, normalised, bounded to 160 characters and never a raw address; for behaviour also the technique, the event type, the first target family named in the target, and the first twelve routes; and the event types in order. |
| Linker.FieldTagsAreReferences | aegis/trace.py:137-149 | Every field tag of a profile is the field name with a non-empty normalised reference of bounded length that is not an address. |
| LinkLaws.ProfileIsRead | aegis/trace.py:165-212 | A tag is in a family of the profile exactly when some event gives it: a payload field of that family carrying, alone or in a list, a short text that is no address; for behaviour the technique, the event type, the first target family named, or one of twelve routes. |
| Linker.ComputeRawScore | aegis/trace.py:243-298 | The weighting loop computes the specified evidence score, bonus, penalty and matched and divergent families, which are those of `LinkLaws.ScoreIsLawful`. |
| Linker.RawSymmetric | aegis/trace.py:243-298 | The whole score is symmetric in the two profiles. |
| Linker.RawInRange | aegis/trace.py:283-289 | The evidence score is a convex combination in [0, 1], the raw score lies in [0, 1], the bonus in [0, 0.10]. |
| LinkLaws.FamilyDecided | aegis/trace.py:250-267 | A family is covered exactly when both profiles carry its tags, matched exactly when their overlap, for behaviour blended 0.65 to 0.35 with event order, reaches 0.28, and divergent exactly when nothing is shared. |
| LinkLaws.ScoreIsLawful | aegis/trace.py:250-298 | The evidence score is the weighted mean likeness of the covered families; bonus and penalty follow from the number of matched and the kind of divergent ones; the raw score is their sum cut to [0, 1]. |
| Linker.SelfScoreIsOne | aegis/trace.py:165-298 | A profile built from at least one event scores 1.0 against itself. |
| Linker.Compare | aegis/trace.py:306-346 | The comparison equals the specified link: calibrated probability, gate, rounding, grade, as spelled out in `LinkLaws.LinkIsLawful`. |
| Linker.RoundKeepsBound | aegis/trace.py:312-316 | A cap that is a multiple of the rounding unit survives rounding. |
| Linker.DiversityGate | aegis/trace.py:306-323 | Fewer than two matched families cap confidence at 0.49 and force LOW; exactly two cap it at 0.69 and exclude HIGH; HIGH means three families and confidence of 0.75; confidence is in [0, 1]; the link is symmetric. That the counted families are those in which the profiles share evidence is `LinkLaws.HighNeedsThreeSharedFamilies`. |
| LinkLaws.LinkIsLawful | aegis/trace.py:300-323 | Confidence is the logistic of the rounded raw score, capped by the number of matched families, rounded; the grade follows from confidence and that number. |
| LinkLaws.HighNeedsThreeSharedFamilies | aegis/trace.py:306-323 | HIGH needs three families in which the profiles share evidence; two carry at most 0.69, fewer at most 0.49 and LOW; a family other than behaviour without a common tag never counts. |
| Linker.CompareCases | aegis/investigation.py:52-63 | The case comparison computes the specified weighted sum. |
| Linker.CaseConfidenceLaws | aegis/investigation.py:52-63 | Before rounding it is symmetric, in [0, 1], and 1 exactly when all four features are present and agree. |
| LinkLaws.CaseLinkIsLawful | aegis/investigation.py:52-62 | Confidence weighs the shares of common techniques, targets and, where both cases have some, fingerprints, and the order of events, 45, 15, 15 and 25 in 100. |
| Bayes.NormalizeIsDistribution | aegis/belief.py:74-78 | Normalising any values, negative or empty of mass too, yields a distribution. |
| Bayes.NormalizeScale | aegis/belief.py:74-78 | A positive factor does not change the normalised belief. |
| BeliefLaws.NormalizeIsLawful | aegis/belief.py:74-78 | Each entry times the positive mass is its own positive part; without positive mass all entries are equal. |
| BeliefLaws.UpdateIsLawful | aegis/belief.py:58-71 | A recognised event weighs every hypothesis, at a belief of at least 1e-9, by how likely it makes that event, and normalises; any other only normalises. |
| Bayes.SequentialIsBatch | aegis/steering_research.py:128-136 | Folding `posterior` over jointly possible observations equals one normalisation of prior times all likelihoods. |
| Bayes.ObservationOrderIrrelevant | aegis/steering_research.py:128-136 | Any permutation of jointly possible observations gives the same belief. |
| Bayes.PositiveLikelihoodsKeepMass | aegis/steering_research.py:128-136 | Strictly positive likelihoods make every list of observations jointly possible. |
| Bayes.SequentialRestarts | aegis/steering_research.py:128-136 | For all observations, contradictory or not, the belief is the batch belief of those after the last contradiction, from the uniform prior if there was one. |
| Bayes.SequentialIsBatchExactly | aegis/steering_research.py:128-136 | Sequential and batch agree if and only if no observation contradicted the belief so far or the evidence after the last contradiction is the same for every hypothesis. |
| Bayes.OrdersAgreeExactly | aegis/steering_research.py:128-136 | Two orders of the same observations give one belief if and only if the observations are jointly possible or what follows the last contradiction is proportional in both orders. |
| Bayes.ContradictoryObservationsDependOnOrder | aegis/steering_research.py:128-136 | With zero likelihoods the order can matter: over the four hypotheses and the uniform prior, two reports for one hypothesis and one for another end in certainty or in the uniform belief. |
| Bayes.LogFormIsProductForm | aegis/belief.py:58-71 | The max-shifted log form of `update_beliefs` equals the direct product form for every prior and event type. |
| Bayes.EventsCommute | aegis/belief.py:58-71 | Two recognised timeline events commute if and only if the floor clamps the same hypotheses after either and does so in proportion to the likelihoods, which the prior and the two likelihoods decide. |
| Bayes.TimelineEventsCommute | aegis/belief.py:58-78 | For every prior and every two event types, recognised or not, the exact condition under which the updates commute; with an unrecognised event they always do on a stored (normalised) belief. |
| Bayes.UnclampedEventsCommute | aegis/belief.py:63-71 | They commute whenever neither first update drops a belief below 1e-9. |
| Bayes.FloorBreaksCommutation | aegis/belief.py:65 | A concrete stored belief, summing to 1, on which two updates do not commute. |
| Information.Gibbs | aegis/steering_research.py:124-150 | Gibbs' inequality for arbitrary non-negative vectors, from the two laws of the logarithm. |
| Information.EntropyBounds | aegis/belief.py:84-85 | Entropy lies between 0 and the logarithm of the number of hypotheses. |
| Information.ConfidenceInRange | aegis/belief.py:81-86 | The confidence of `summarize` is in [0, 1] for every stored belief. |
| Information.EntropyExtremes | aegis/belief.py:84 | The uniform belief over n hypotheses has entropy log n, certainty has 0. |
| Information.ConfidenceIsMissingEntropy | aegis/belief.py:84-86 | Confidence is the part of the two bits that is missing: 0 for the uniform belief, 1 for certainty. |
| Information.ExpectedInformationGain | aegis/steering_research.py:139-150 | The loop over outcomes computes the clamped gain. |
| Information.GainIsNonNegative | aegis/steering_research.py:139-150 | For every prior and every likelihood table whose rows sum to 1 the gain before the clamp lies between 0 and the entropy of the prior. |
| Information.GainIsMutual | aegis/steering_research.py:139-150 | For every prior and likelihood table the gain is the entropy of the outcome minus what remains of it when the hypothesis is known. |
| Calibration.Reliability | aegis/research.py:245-267 | The bin loop computes the calibration error and the ten bins as specified. |
| Calibration.BinsPartitionSamples | aegis/research.py:247-255 | The bin counts add up to the sample count if and only if every confidence is in [0, 1]. |
| Calibration.EceBounds | aegis/research.py:256-260 | For any samples, abs(accuracy - mean confidence) <= ECE <= 1. |
| CalibrationLaws.ReliabilityIsLawful | aegis/research.py:245-260 | The error times the samples is the sum over ten tenths of the unit interval of the absolute difference between hits and confidences; each bin counts and averages its tenth. |
| Calibration.IntentMetrics | aegis/research.py:206-278 | Each confusion cell counts its (truth, predicted) samples, the matrix totals the samples, its trace is the correct count, and the error and bins are those of the predicted confidences. |
| Calibration.IntentCalibration | aegis/research.py:206-267 | With predicted distributions every sample lands in exactly one bin and the error is bounded by the accuracy gap and 1. |
| CalibrationLaws.IntentIsLawful | aegis/research.py:213-223 | Each confusion cell counts the samples of its class for which its prediction is the first of largest probability; each record is that probability and whether it was right. |
| Calibration.BinaryMetrics | aegis/trace_research.py:240-295 | Fails with an IndexError exactly when a probability without a label falls into a bin; otherwise tp, fp, tn, fn are the four counts of the zipped pairs at the threshold, and the calibration error and bins compare probability with link rate. |
| Calibration.OutsideEveryBin | aegis/trace_research.py:255-269 | Probabilities outside [0, 1] change no bin, so a surplus that raises nothing does not enter the report. |
| Calibration.CellsPartition | aegis/trace_research.py:244-249 | The four counts partition the scored pairs. |
| CalibrationLaws.BinaryIsLawful | aegis/trace_research.py:244-279 | tp, fp, tn and fn count the pairs of each label at or above and below the threshold; error and bins compare every probability with its own label. |
| Calibration.BinaryCalibration | aegis/trace_research.py:240-295 | The same bounds with the empirical link rate in place of accuracy. |
| Steering.GateVerdictIsConstant | aegis/safety.py:26-44 | For the actions of the loop the verdict depends on the settings only: PERMIT exactly when the ceilings admit the fixed resources, and exactly when no rule is listed as failed. |
| PolicyLaws.GateIsLawful | aegis/safety.py:26-44 | An action is permitted exactly when all eight conditions hold, and the failed rules are exactly those it breaks. |
| Steering.ProbeIsTable | aegis/steering_research.py:44-93 | Every probe is a normalised, strictly positive likelihood table. |
| Steering.ProbeGainIsUnclamped | aegis/steering_research.py:139-150 | For every probe and belief the clamp at 0 never acts. |
| Steering.SelectProbe | aegis/steering_research.py:157-182 | Returns the policy's choice: fixed, drawn, the leading hypothesis' probe, or one of maximal rank; and the gain of every probe. |
| Steering.BestRank | aegis/steering_research.py:171-179 | The scan returns a probe of maximal (gain - 0.035 cost, gain, -cost, id). |
| EpisodeLaws.BestProbeIsUnique | aegis/steering_research.py:171-179 | The served probe is the one whose gain less 0.035 of its cost is greater than that of every other, or as great with more gain; there is exactly one. |
| Steering.SampleOutcome | aegis/steering_research.py:185-205 | Returns the first outcome whose cumulative flattened probability reaches the draw, else the last. |
| Steering.DrawAlwaysLands | aegis/steering_research.py:185-205 | The flattened column of every hidden intent and family sums to 1, so a draw of at most 1 always reaches its outcome. |
| Steering.Episode | aegis/steering_research.py:231-339 | For every seed, policy and Settings the result describes exactly the trajectory of its scenario: at each step the probe the policy chooses for the belief, the outcome that the step's draw selects from the flattened likelihoods, the posterior; with the counts, cost, expected gain (the sum over the served probes), telescoped observed gain, stopping, success and wrong confidence. Each step follows `EpisodeLaws.EpisodeFollowsLaw`. |
| Steering.Interact | aegis/steering_research.py:254-310 | One step: a denied step changes nothing but the denial count; a permitted one appends the step's observation and keeps all accumulators exact, the expected gain included; the belief it reaches is that of `EpisodeLaws.UpdateFollowsOutcome`. |
| Steering.Observe | aegis/steering_research.py:275-290 | A permitted interaction observes the outcome of its own step's draw and brings every accumulator up to date; the draw and the update are those of `EpisodeLaws.EpisodeFollowsLaw`. |
| Steering.EpisodeAccounting | aegis/steering_research.py:231-339 | Permitted plus denied is between 1 and 8 and one of them is zero; counts sum to permitted; cost is the count-weighted sum of probe costs; expected gain is the non-negative sum over the served probes; a denied episode keeps the uniform belief; exactly one of success, wrong confidence, abstention. |
| EpisodeLaws.EpisodeFollowsLaw | aegis/steering_research.py:231-339 | Every episode starts at 0.25 each; each step serves the policy's probe, draws the outcome from the flattened response of the hidden intent, reweights every hypothesis by the probability it gave to that outcome and adds the expected gain; counts and cost are those of the served probes. |
| EpisodeLaws.EpisodeEndsLawfully | aegis/steering_research.py:307-339 | An episode succeeds exactly when the hidden intent is believed to 0.86, errs exactly when another one is, and abstains otherwise; it takes its number of steps or counts as 9; it is served until a belief settles or eight times, and never when the ceilings forbid it; the entropy removed is what was observed. |
| EpisodeLaws.UpdateFollowsOutcome | aegis/steering_research.py:128-136 | After any history, probe and outcome: posterior times the probability of the outcome is prior times the response to it, for every hypothesis. |
| EpisodeLaws.ObservedGainMeetsExpectation | aegis/steering_research.py:139-150 | The entropy removed by each outcome, averaged with the outcomes' probabilities, is the expected gain of the served probe, after any history. |
| Steering.EpisodeBeliefIsBatch | aegis/steering_research.py:289 | The belief built step by step is the batch posterior of everything observed, each observation counting by the probability of its outcome (`EpisodeLaws.UpdateFollowsOutcome`). |
| Steering.ObservationOrderDoesNotMatter | aegis/steering_research.py:289 | Any permutation of an episode's observations gives the same belief. |
| Steering.PolicyMetrics | aegis/steering_research.py:353-416 | Fails exactly on an empty list, with a ZeroDivisionError; otherwise reports the rates, means, totals, Brier score, calibration error, probe shares and utility of the episodes. |
| PolicyLaws.ReportIsLawful | aegis/steering_research.py:353-416 | Over any episodes on four hypotheses: every rate counts its episodes, every mean averages its own column, the successful mean the successes alone, the Brier score the squared misses; permits and denials add up; utility is the stated combination. |
| PolicyLaws.SharesAreLawful | aegis/steering_research.py:358-404 | The share of a probe times all actions is how often it was served; all 0 without actions. |
| Steering.PolicyRates | aegis/steering_research.py:382-416 | In every report over genuine episodes the three outcome rates sum to 1, the actions total the permits, their shares sum to 1 if there is any, and the calibration error is bounded. |
| Steering.PolicyMeans | aegis/steering_research.py:380-403 | In every such report mean interactions lie in 1..9, those of the successes in 1..8 and exist exactly when the success rate is positive, mean observed gain is mean entropy reduction, the Brier score lies in [0, 2], and the final-correctness rate is at least the success rate. |
| Chain.AppendExact | aegis/audit.py:105-148 | Appending keeps a verified chain verified if and only if the row is sound and carries the current head. |
| Chain.VerifyEarly | aegis/evidence.py:22-43 | The early-exit scan reports the least bad position, or none exactly when the chain is valid. |
| Chain.VerifyAll | aegis/registry.py:396-440 | The full scan judges every row exactly and is valid exactly when the chain is. |
| Chain.HeadCommits | aegis/audit.py:187-241 | Two verified ledgers with the same head are identical in length and in every row. |
| Chain.HashesDistinct | aegis/store.py:156 | All record hashes of a verified chain differ. |
| Chain.AppendIsUnique | aegis/store.py:156 | An honest append never meets its own hash in the table, so the UNIQUE constraint does not reject it. |
| Chain.MutualExclusion | aegis/audit.py:101-104 | At most one appender is inside a transaction, and with the in-process lock at most one is past it. |
| Chain.StepKeepsOk | aegis/audit.py:101-155 | Each lock, begin, read, insert, commit or rollback step keeps the invariant and never alters committed rows. |
| Chain.EveryRunVerifies | aegis/audit.py:101-155 | In every run of any number of appenders every committed state verifies. |
| Chain.AloneAppends | aegis/audit.py:101-149 | On an idle ledger a sound row that carries the head and whose hash is new is committed by some run of its appender alone, which ends idle again. |
| Chain.StepAddsOne | aegis/audit.py:101-155 | A step adds nothing or the one row that its appender inserted, which is sound and carries the head. |
| Chain.IdleIsOk | aegis/audit.py:101-104 | Runs may start with idle appenders on any ledger that verifies, the empty one included, and on no other. |
| Chain.UnlockedAppendersFork | aegis/store.py:245-267 | Two appenders that both read the head first: the same row twice is refused by the UNIQUE hash and the ledger verifies; a different second row is accepted and it no longer does. |
| Chain.UnlockedRunVerifiesExactly | aegis/store.py:245-267 | Any run of unlocked appends leaves a ledger that verifies if and only if no accepted append was stale, that is, built on a head that another insert had replaced. |
| Ledgers.AuditJournal.Append | aegis/audit.py:83-155 | Fails without a key or on a malformed digest, otherwise appends exactly the chained record or rolls back; a collision-free committed append succeeds and keeps the journal valid. |
| LedgerLaws.AppendIsLawful | aegis/audit.py:97-148 | The appended row holds every field of the entry cut to its length, role, verb and decision in capitals, the digest in small letters, no entitlement exactly when none was given, and is sound at the end of the journal. |
| LedgerLaws.DigestsAreHexadecimal | aegis/audit.py:99-100 | The accepted digests are 64 hexadecimal digits in either case. |
| Ledgers.AuditJournal.Verify | aegis/audit.py:187-241 | Valid exactly when the key is present and the chain holds; otherwise names the least bad row. |
| LedgerLaws.AuditVerdictsAreLawful | aegis/audit.py:208-228 | A row is good exactly when it stores the keyed hash of its columns, its text says the same, it names the installed key, and it links to the hash before it, the first row to 64 zeros. |
| Ledgers.AuditHeadCommits | aegis/audit.py:187-241 | The head of a verified audit journal determines the journal. |
| Ledgers.VerifyRecords | aegis/evidence.py:22-43 | Valid exactly when the case chain holds; otherwise counts the verified prefix and points at the first bad record. |
| LedgerLaws.EvidenceVerdictsAreLawful | aegis/evidence.py:22-43 | An event is good exactly when it links to the hash before it, the first one to 64 zeros, and its hash is that of the event with its link. |
| Ledgers.EvidenceHeadCommits | aegis/evidence.py:18-43 | The head of a verified case chain determines its events. |
| Ledgers.EvidenceStore.AppendEvent | aegis/store.py:245-274 | A sequential append extends exactly the chain of its own case, dates the case by the event and keeps every case valid; it fails exactly on an unknown case or a stored hash and then changes nothing; without a collision a known case never fails. |
| LedgerLaws.LinkedIsLawful | aegis/store.py:245-267 | The stored row carries the event itself and is good at the end of its case. |
| LedgerLaws.CaseRowsAreItsRows | aegis/store.py:247-249 | The chain of a case holds exactly the table rows with its id, each once and in order. |
| Ledgers.NextHashIsNew | aegis/store.py:51 | In a table whose cases all verify, across all cases, the hash of the next event is not stored yet. |
| Ledgers.RacingEventsFork | aegis/store.py:245-267 | Two racing appends to one case: different events are both accepted and the case no longer verifies, equal events are stored once and it does. |
| Ledgers.EvidenceRunVerifiesExactly | aegis/store.py:245-267 | For a table written by any interleaving of unlocked appends to any cases, under one UNIQUE hash column: all cases verify if and only if no accepted append was stale in its own case. |
| Ledgers.EvidenceStore.Reset | aegis/store.py:205-209 | Resetting empties the cases, events and certificates and leaves a valid store. |
| Ledgers.EvidenceStore.VerifyCase | aegis/store.py:502-504 | Returns exactly the verdict, verified count, head and failing position of the first 10000 events of a case. |
| LedgerLaws.ShownIsPrefix | aegis/store.py:502-504 | The examined rows are the first ten thousand of the case. |
| Ledgers.PromotionHeadCommits | aegis/registry.py:384-440 | The head of a verified promotion ledger determines every column of every row. |
| Ledgers.CrossCheck | aegis/registry.py:396-440 | The full scan and the early-exit scan agree in verdict, and the scan's first negative row is the early position. |
| LedgerLaws.PromotionVerdictsAreLawful | aegis/registry.py:396-440 | A decision is good exactly when its text parses and agrees with the six columns, its hash and attestation are those of the text, it names the key, and it links to the hash before it. |
| Ledgers.AuditRunsVerify | aegis/audit.py:101-155 | In every interleaving every committed audit state verifies and extends the earlier ones. |
| Ledgers.PromotionRunsVerify | aegis/registry.py:330-372 | The same for the promotion ledger, which takes BEGIN IMMEDIATE only. |
| PostProtocol.StepKeepsOk | aegis/server.py:127-230 | Every step of every handler keeps the protocol invariant. |
| PostProtocol.ReceiptsAreWellFormed | aegis/server.py:127-278 | In every interleaving a command's receipts are none, one denial, ACCEPTED, or ACCEPTED with COMPLETED or FAILED, COMPLETED exactly below status 400; unauthenticated receipts are exactly host and session denials. |
| PostProtocol.CallsFollowAcceptance | aegis/server.py:184-230 | A service is called at most once per command, only for an admitted request, and only after its own ACCEPTED is durable; an admitted request is one that passes all six checks (`ProtocolLaws.CallsPassedEveryCheck`). |
| PostProtocol.ResponsesAreBacked | aegis/server.py:302-312 | After ACCEPTED any response other than `audit_completion_failed` has a durable terminal receipt of the same status; a denial is backed by the receipt of the first failing check, spelled out in `ProtocolLaws.EveryCommandIsLawful`; a crashed route leaves exactly ACCEPTED. |
| PostProtocol.PostHandler.SendJson | aegis/server.py:302-312 | A pending completion is sealed first; if that fails the answer becomes a 500 and nothing is recorded. |
| PostProtocol.PostHandler.DenyPost | aegis/server.py:260-278 | A denial is answered only after it is recorded, otherwise the answer is 503. |
| PostProtocol.PostHandler.DoPost | aegis/server.py:127-230 | The handler object answers, records and calls exactly as the request and the environment determine: first failing check, accept, service, seal; check by check in `ProtocolLaws.OutcomeIsLawful`. |
| PostProtocol.OutcomeIsAlone | aegis/server.py:127-230 | That outcome is where the concurrent step program ends when one handler runs alone, and `ProtocolLaws.OutcomeIsLawful` gives it for every request. |
| ProtocolLaws.EveryCommandIsLawful | aegis/server.py:127-312 | In every interleaving the receipts of a command are none, the denial of its first false check in handler order with that check's reason, status, authentication flag and digest, or an acceptance and at most one completion; its answer is the one they back. |
| ProtocolLaws.EveryReceiptIsEarned | aegis/server.py:127-278 | Every recorded denial names the first false check of its own request; every acceptance and completion belongs to a request all of whose checks are true. |
| ProtocolLaws.FailedChecksNeverCall | aegis/server.py:132-195 | A request with any false check is never accepted, completed or called. |
| ProtocolLaws.CallsPassedEveryCheck | aegis/server.py:184-230 | A called command has a working audit journal, host, token, role, license and body, a known route, its own acceptance durable before the call, and no second call. |
| ProtocolLaws.OutcomeIsLawful | aegis/server.py:127-312 | The ending, receipts and call of a handler that runs alone, from the checks, the route and the two append results. |
| Gateway.InsertExact | aegis/store.py:349-379 | A telemetry insert raises exactly when another observation owns the shortened row id, is counted exactly when its digest is new, and otherwise changes nothing. |
| Gateway.CompletesExactly | aegis/sensor_gateway.py:351-354 | A batch completes if and only if each of its digests is stored by then or comes with an unused shortened row id, in terms of the stored rows and the batch alone. |
| Gateway.InsertsUpToClash | aegis/sensor_gateway.py:351-354 | The loop stores exactly what precedes the first clash, and completes exactly when there is none. |
| Gateway.InsertAllExact | aegis/sensor_gateway.py:351-354 | A completed batch inserts exactly its distinct digests not yet stored, after which all are stored. |
| Gateway.GatewayStore.AppendTelemetry | aegis/store.py:349-379 | The table grows by the observation exactly when its digest and its shortened row id are both new; the call raises exactly when the row id belongs to another digest; after a success the digest is stored. |
| Gateway.GatewayStore.SaveGatewayImport | aegis/store.py:450-470 | A report is appended exactly when neither its id nor its manifest is stored, and is dropped otherwise; afterwards one of them is. |
| Gateway.Process | aegis/sensor_gateway.py:316-388 | Refuses exactly invalid batches; a refusal or a preview changes nothing; a commit, completed or not, leaves the tables the specified operation leaves, raises exactly on an insert failure, and reports inserted and deduplicated counts; accepted and rejected add up to received. |
| GatewayLaws.CommitIsLawful | aegis/sensor_gateway.py:325-388 | A commit appends, in order, the normal forms whose digest is new to the table and to the batch before them, up to the first whose row id is taken; if there is none and neither report key is taken, one report is added with the number of rows that went in. |
| GatewayLaws.AcceptedAreNormalForms | aegis/sensor_gateway.py:326-347 | The accepted observations are the normal forms of exactly the records that have one, in order. |
| Gateway.ImportConservesExactly | aegis/sensor_gateway.py:351-388 | A commit on balanced tables keeps the ledger total equal to the gateway rows if and only if its report is saved or everything that goes in was stored already: no assumption on identifiers. |
| Gateway.EveryRunConservesExactly | aegis/sensor_gateway.py:316-388 | Over every run, with commits that raise and identifiers that clash, the inserted counts total the gateway-sourced rows if and only if no commit stored something new without a report, which the tables and the batch decide before the call; otherwise they fall short. |
| Gateway.EveryRunConserves | aegis/sensor_gateway.py:316-388 | In particular they agree when every commit of the run completes and no two different batches of the run share an identifier, repeated batches, local collections and resets included. |
| Gateway.RecommitInsertsNothing | aegis/sensor_gateway.py:351-388 | Committing a reported batch again at any later time completes, inserts 0 and changes nothing. |
| Gateway.FailedCallLosesAccounting | aegis/store.py:377-378 | A commit that meets a clash leaves the ledger short by exactly the new digests before it; nothing is lost if and only if these were stored already. |
| Gateway.RowIdClashWitness | aegis/store.py:353-378 | On empty tables, two records with different digests and one shortened row id: the commit raises and leaves one uncounted row. |
| Gateway.ImportIdClashWitness | aegis/store.py:450-470 | Two batches with one shortened import id: the second commit completes, its report is dropped and its row stays uncounted. |
| Registry.AttestationBindsRecord | aegis/registry.py:205-244 | Two verified artifacts with one id agree in all but status and time; with one attestation they are equal. |
| Registry.TamperingShows | aegis/registry.py:205-244 | Changing any column of a verified artifact makes it fail verification. |
| Registry.Validate | aegis/registry.py:114-132 | An accepted request has an allowed type and status, a canonical descriptor with its digest, and only registered parents; which requests are accepted and what is read from each field is `RegistrationLaws.ValidateReads`. |
| Registry.RegisterKeeps | aegis/registry.py:104-189 | One registration, against however old a view, adds at most one verified row with older parents, and succeeds exactly when the request validates; the row, column by column, is `RegistrationLaws.RegistrationIsLawful`. |
| RegistrationLaws.RegistrationIsLawful | aegis/registry.py:104-189 | A registration is refused exactly when the request breaks a rule; a new row has the type lowered, name, version, status raised, descriptor, the stripped parents without repeats in first-occurrence order, the time, the id of that identity and the attestation of it all; a row found verifies and, unless ids collide, has the same type, name, version, descriptor digest and parents. |
| RegistrationLaws.ValidateReads | aegis/registry.py:114-141 | A request is accepted exactly when its texts are clean and short enough, type and status known, the descriptor canonical within 64 KiB and every parent stored; the identity is read off its own fields. |
| Registry.SameIdentityIsIdempotent | aegis/registry.py:142-149 | Registering an identity again returns the row stored first and changes nothing. |
| Registry.StatusIsNotIdentity | aegis/registry.py:134-149 | This holds even when another status is asked for. |
| Registry.LineageIsAcyclic | aegis/registry.py:129-132 | No artifact is its own ancestor and no line of descent is longer than the registry. |
| Registry.EveryRunVerifies | aegis/registry.py:104-189 | Over every interleaving of registrations the registry stays valid and rows are never altered. |
| Registry.VerifyRegistry | aegis/registry.py:246-254 | Judges every artifact and returns the number of those that verify; valid exactly when all do, which holds for every honest registry. |
| Governance.DecisionExact | aegis/registry.py:256-313 | In an honest registry: eligible if and only if the candidate qualifies and all four release conditions hold, held if and only if it qualifies and one is missing, rejected if and only if it does not qualify. |
| GovernanceLaws.DecisionIsLawful | aegis/registry.py:272-313 | The decision and the eleven named checks behind it, from the stored row, its descriptor and the release evidence. |
| GovernanceLaws.VerdictExists | aegis/registry.py:268-287 | A stored candidate gets a verdict exactly when a named champion is stored and both counts convert to integers. |
| Governance.EvaluateKeeps | aegis/registry.py:299-373 | An evaluation keeps the promotion ledger a verified chain and adds exactly its verdict, or nothing on error. |
| Governance.GovernanceService.RegisterArtifact | aegis/registry.py:104-189 | The method is the specified registration, keeps an honest registry honest, and on one stores and returns every field as the request gives it. |
| Governance.GovernanceService.AppendDecision | aegis/registry.py:315-373 | An error leaves the ledger as it was; a success adds one row with a known decision, a registered candidate and the head it found, meets no UNIQUE clash, and keeps the ledger a verified chain. |
| GovernanceLaws.AppendIsLawful | aegis/registry.py:322-373 | A decision is refused for its text, its name, an unknown candidate or a clash, in this order; otherwise one row with exactly its fields is added, good at the end of the ledger. |
| Governance.GovernanceService.EnsureGovernanceRegistry | aegis/service.py:586-749 | Registers the ten artifacts in order up to the first failure, decides once on an empty ledger, caches the identities; a valid store stays valid and only grows, and after a success it holds a decision. |
| GovernanceLaws.BootstrapIsLawful | aegis/service.py:586-749 | The ten artifacts are registered in order with their types, statuses and parents; the candidate is the third and the champion the second; an empty ledger gets one decision, about those two. |
| Governance.GovernanceService.EvaluateGovernanceCandidate | aegis/service.py:559-577 | Of a request only the candidate id is read; the store stays valid and only grows. |
| GovernanceLaws.ServiceReadsTheCandidate | aegis/service.py:559-577 | The evaluation is about the artifact the request names, or the bootstrap's candidate, against the bootstrap's champion, and only if it is a model. |
| Governance.NoRunReleases | aegis/service.py:559-577 | No run of bootstraps, restarts, registrations and API evaluations, whatever callers send, ever records ELIGIBLE_FOR_SIGNED_RELEASE; registry and ledger stay valid and only grow, and cached identities come with a decision. |
| Governance.RestartChangesNothing | aegis/service.py:586-749 | A restart with the same experiments registers nothing, decides nothing and finds the same identities. |

## Left out

- Floating-point rounding and display rounding are not modelled; arithmetic is on `real`. Exceptions are the places where a cap must survive rounding (`Linker.DiversityGate`) and the rounded raw score that feeds the probability.
- SHA-256, HMAC, canonical JSON, key files, clocks, uuid and token generation are parameters or fixed functions of an installation. Theorems that need collision freedom ask it of the records or batches concerned and no others; shortened row and import identifiers may clash.
- Chain.HashesDistinct: asks that the rows at hand do not collide; HMAC and SHA-256 do not guarantee it absolutely.
- Governance.NoRunReleases: asks that Python's `strip` and `upper` leave the fixed upper-case decision names and actor names alone.
- Steering.PolicyMetrics: leaves out `interaction_ci95`, whose half-width is a square root, and the display rounding.
- Ledgers.EvidenceStore.AppendEvent: states a sequential append, because the source takes no lock around it; what unlocked appends to one case do is in `Ledgers.EvidenceRunVerifiesExactly`.
- Ledgers.EvidenceStore.VerifyCase: covers the first 10000 events, as the source does.
- Beliefs are vectors over the four hypotheses: an absent key is 0.0, and mass under other keys, which `normalize` would count, is not modelled.
- Policy names are a datatype, so the unsupported-policy error of `select_probe` has no counterpart; draws and picks are arbitrary functions of the step.
- Labels, explanations, reports, `shared_values`, F1 scores, pairwise precision and recall, merge and split rates, per-class precision and recall, log losses, confidence intervals and the Brier scores of `aegis/research.py` and `aegis/trace_research.py` are single expressions over the modelled counts.
- The `sequence` columns are row positions, and SQLite tables are sequences; triggers and UNIQUE constraints appear as the operations the model does not have and as insert failures.
- In `PostProtocol` the journal keeps what the protocol determines of a record; its chaining is in `Ledgers`. Command ids are fresh, and license, role, host and token verdicts are arbitrary booleans per request.
- Gateway normalisers, the size limit and the raw-address check are one deterministic function that accepts or rejects.
- Audit fields are upper- and lower-cased in ASCII. In profiles and in the registry, Python's `strip`, `lower`, `upper` and the address parser are parameters; the first and last time of a profile, which no score reads, are left out.
- JSON values inside artifact descriptors keep nested arrays and objects as text; a descriptor read back equals the one written.
- HTTP plumbing, static files, the desktop shell, the hardware simulator, synthetic corpora, model fitting, grid-search winners and every property of one seed's numbers.
