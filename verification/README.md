# Verification of the decision engine, the stack graph and the transaction logs

A Dafny 4.11 model of the deterministic core of SIRA with proofs about every input and every run.
`dafny verify dfyconfig.toml` checks all of it.

**Decision graph** (`python/decision_engine`). Candidate records are recalled and deduplicated under
identity aliases, the evidence behind each decision-material field is assessed, dependencies are
closed by depth-first search, gates are evaluated in a logic with unknown and conflict, plans get
exact intervals for preference, risk, cost, coverage and age, eligible plans are ranked, and the
ranking is tested against every way the intervals could turn out. A search over removed private
facts looks for the smallest counterfactual.

**Proof bridge** (`python/proof`). Trial verdicts are turned into an input of the decision graph. The
central theorem runs the whole graph on that input and shows which adapter it names: the first, by what
the plans are charged, that passed every active gate, and none when there is none. Another says exactly
when this is the cheapest adapter.

**Stack graph** (`python/stackfile`). Snapshots are validated graphs without hard dependency cycles;
patches are interpreted on copies of their nodes and edges; chains of applied patches keep the
lifecycle of every product instance.

**Logs and rules** (`python/persistence`, `python/domain/rules.py`). The keyed transition log of purchase
intents, the event log of missions, and the three-valued rule grammar.

## How it is organised

| file | content |
|---|---|
| Outcomes, Ordering, Digraph | exceptions and loops over them; sorting, string order and sorted sets; walks, cycles and ranks |
| Domain, GraphModels, ExactRatio, Bounds, RankStability | value objects, ratios, interval aggregation, ordering keys and stability |
| Aliases, Recall, Evidence, Gates, Dimensions, Closure, Materials, Bundling, Engine | the stages of the decision graph |
| RecallLoops, GraphLoops | the same stages as loops and classes that update state in place, each calling the next, proved equal to the stage functions |
| Guarantees, Ranking, Exceptions, Counterfactual | theorems about whole evaluations |
| RecallRecords, Averages, Priorities, Matching, GateReasons, Satisfactions, BundleFields, Statuses, Packs, Removals, GateChanges | what the stages compute, in terms of facts, values, weights and evidence rather than of their own functions |
| Failures, Duplicates, MergedCoverage, Pending, SharedIds | when gates fail, and where evaluations do other than one might think: merged evidence, pending plans, plans that share an identifier |
| LonePlans, SplitRecords, Market | plans of records that need no other, and evaluations that show these cases |
| Bridge, PlainRecall, Trials, TrialRecall, TrialPlans, TrialOutcome, TrialWinner | the proof bridge and its refinement, stage by stage |
| TrialPrices, TrialCollisions, TrialCheapest, Manifest, Campaigns | prices, adapters whose identifiers collide, exactly when the cheapest adapter wins, and whole campaigns |
| Stackfile, StackPatches, StackLives | stack graph, cycle search, patches and lifecycles |
| Rules, RuleAnswers, PurchaseIntents, MissionLog | rule grammar and the two logs |

Code that accumulates in loops is modelled twice: as a function, which the theorems are about, and as
a method with loops (or a class) whose contract equates it with that function.

What the program takes from its platform is a parameter (`Host`, `Hasher`, `Reader`): case folding,
hashing into identifiers, decimal text, reading numbers and dates. A theorem that needs something of
it says so, of the strings at hand: `Trial.Separated` (folding is stable and keeps adapters apart),
`PlanIdsSeparate`.

Ratios are carried by their rational value (`real`); `ExactRatios.Canonical` is what makes that
faithful. Money is in hundredths, instants in microseconds, and tuples built by sorting a set are sets.

## Model

| member | source | states |
|---|---|---|
| `ExactRatios.MakeReduces` | python/decision_engine/bounds.py:42-50 | construction fails exactly on a zero denominator; otherwise it keeps the rational, with positive denominator and gcd 1 |
| `ExactRatios.Canonical` | python/decision_engine/bounds.py:37-59 | two constructed ratios are structurally equal exactly when they are the same rational |
| `Bounds.PreferenceInRange` | python/decision_engine/bounds.py:112-140 | distinct valid criteria always aggregate, to an ordered interval inside [0, 100] |
| `Bounds.WeightsOnlyMatterUpToScale` | python/decision_engine/bounds.py:112-140 | multiplying all weights by a factor leaves the preference interval unchanged |
| `Averages.AllAlike` | python/decision_engine/bounds.py:112-140 | criteria all satisfied to the degree s, at either end, give a preference of one hundred times s |
| `Averages.PreferenceForgetsOrder` | python/decision_engine/bounds.py:112-140 | the order of the criteria does not matter |
| `Averages.RaisingOne` | python/decision_engine/bounds.py:112-140 | raising one criterion's satisfaction by d, at either end, raises the preference by one hundred times d times its weight over the sum of the weights |
| `Bounds.CoverageInRange` | python/decision_engine/bounds.py:165-181 | coverage of distinct valid criteria always aggregates, to an ordered interval inside [0, 1] |
| `Averages.CoverageExact` | python/decision_engine/bounds.py:165-181 | coverage is, at either end, the summed weight of the criteria that count over the summed weight of all |
| `Bounds.AggregateRisk` | python/decision_engine/bounds.py:195-203 | each aggregated risk level is the highest of its components: no component exceeds it and one attains it |
| `Bounds.RiskInRange` | python/decision_engine/bounds.py:185-203 | ordered components give ordered aggregate risk |
| `Bounds.EvidenceAgeInRange` | python/decision_engine/bounds.py:228-252 | evidence observed before the evaluation has an ordered, non-negative age |
| `Bounds.AgeInRange` | python/decision_engine/bounds.py:255-264 | aggregate age is ordered, non-negative and no smaller than any item |
| `Stability.StabilityExact` | python/decision_engine/bounds.py:355-373 | STABLE exactly when the selected plan precedes every competitor under every joint choice inside the bounds; the frontier is exactly the competitors that precede it under some choice; UNDETERMINED exactly when a plan lacks bounds |
| `Stability.MayWinExact` | python/decision_engine/bounds.py:306-346 | a plan can come first of all under some joint choice exactly when its best case precedes every other plan's worst case |
| `Stability.FrontierNeedNotWin` | python/decision_engine/bounds.py:355-373 | three concrete plans: a member of the frontier that comes first of all under no choice, so the frontier is not "may win" |
| `Priorities.SelectedIsBest` | python/decision_engine/bounds.py:306-317 | no rankable plan has a better status than the selected one; none of equal status a higher conservative preference; none also as preferred a lower base risk; none also as risky a lower base cost; then none a higher conservative coverage, a lower upper age, smaller action identifiers, a smaller plan identifier |
| `Priorities.RankedInOrder` | python/decision_engine/graph_v1.py:1227-1228 | the whole ranked list is in this order and holds every plan that can be ranked |
| `Priorities.FrontierInParts` | python/decision_engine/bounds.py:320-373 | with every eligible plan bounded, the frontier holds the selected plan and exactly the rivals whose best case its worst case does not hold up against in the same order of dimensions; STABLE exactly when there are none |
| `Priorities.ResolutionInParts` | python/decision_engine/graph_v1.py:1244-1256 | the resolution frontier holds exactly the pending plans whose best case, once resolved, it does not hold up against |
| `Priorities.UnavailableExact` | python/decision_engine/graph_v1.py:1231-1241 | the plans reported as without bounds are the eligible ones that have none, those with the selected identifier aside |
| `Priorities.SaferIsSecure` | python/decision_engine/bounds.py:320-346 | at equal status and equal, certain preference a plan whose highest risk is below another's lowest is never threatened by it, whatever they cost |
| `Aliases.CanonicalLoop` | python/decision_engine/graph_v1_recall.py:33-41 | the alias loop terminates and computes the resolution function |
| `Aliases.CanonicalExact` | python/decision_engine/graph_v1_recall.py:33-41 | resolution raises exactly when the alias chain never ends; otherwise it is the end of the chain |
| `Aliases.CanonicalIdempotent` | python/decision_engine/graph_v1_recall.py:33-41 | resolving a resolved text changes nothing when aliases are folded |
| `Recall.KeptExact` | python/decision_engine/graph_v1_recall.py:88-120 | a record is kept exactly when it is published and fits category, job and region of the policy, if there is one |
| `RecallRecords.ExclusionExact` | python/decision_engine/graph_v1_recall.py:88-120 | an excluded record is excluded for the first reason that applies: revoked, superseded, category, job, region |
| `Recall.AuthorityFloor` | python/decision_engine/graph_v1_recall.py:57-63 | a merged record has the weakest authority among its duplicates |
| `Recall.Anchor` | python/decision_engine/graph_v1_recall.py:163 | a merged record takes pack and offer from the newest duplicate, the smallest identifier among equally new ones |
| `Recall.MergeKeepsValues` | python/decision_engine/graph_v1_recall.py:66-85 | every value a duplicate states survives merging, with at least its evidence |
| `Recall.MergeAddsNothing` | python/decision_engine/graph_v1_recall.py:66-85 | a merged fact comes from some duplicate and its evidence is exactly the pooled evidence of equal values |
| `Recall.RecallPartition` | python/decision_engine/graph_v1_recall.py:123-205 | record identifiers are shared out between exclusions and identities without loss or repetition; candidates = exclusions + identities + merges |
| `Recall.IdentityListsExactly` | python/decision_engine/graph_v1_recall.py:123-205 | an identity lists a record exactly when the record is kept and its four keys are the identity's |
| `Recall.ShareIdentityExactly` | python/decision_engine/graph_v1_recall.py:44-50 | two kept records share an identity exactly when their four canonical keys agree |
| `Recall.RecallForgetsOrder` | python/decision_engine/graph_v1_recall.py:123-205 | recall does not depend on the order of the candidates |
| `Recall.RecallRaisesOnlyCycles` | python/decision_engine/graph_v1_recall.py:33-205 | recall raises for no reason but an alias cycle |
| `Recall.SharedRepresentative` | python/decision_engine/graph_v1_recall.py:123-205 | records with equal keys have one representative, which carries the facts of both |
| `RecallRecords.MergedRecordExact` | python/decision_engine/graph_v1_recall.py:144-196 | a group's identity lists exactly its records, packs and offers; its representative is available when all are, gathers gates, classifications and requirements of all, and stands for the newest; each further record is reported with how it differs from the first |
| `Duplicates.FieldStateExact` | python/decision_engine/graph_v1.py:197-238 | a field is acceptable exactly when it has one value, some acceptable evidence and none in conflict; stale, and unknown, likewise |
| `Duplicates.FieldStateParts` | python/decision_engine/graph_v1.py:197-238 | its values are those the facts state, its evidence is theirs, and it is undated exactly when some of that evidence was assessed without a time |
| `Duplicates.MergedFieldExact` | python/decision_engine/graph_v1_recall.py:66-85 | a merged record is acceptable on a field exactly when its duplicates state one value, some of their evidence is acceptable and none is in conflict |
| `Duplicates.RecalledFieldExact` | python/decision_engine/graph_v1_recall.py:123-205 | in every recall the same holds of every representative and the candidates kept under its key |
| `Duplicates.ImprovementExact` | python/decision_engine/graph_v1_recall.py:126-128 | merging makes a field acceptable that is not on one duplicate's evidence exactly when the duplicates agree, with acceptable and undisputed evidence, and that duplicate has no acceptable evidence for it |
| `Duplicates.SomeDuplicateAsGood` | python/decision_engine/graph_v1_recall.py:126-128 | on a single field the merged record never does better than its best duplicate |
| `MergedCoverage.CoverageRisesExact` | python/decision_engine/graph_v1_recall.py:126-128 | the plan of a record evaluated with its duplicates has a higher conservative coverage than the plan it has when evaluated alone exactly when the criteria it gains from them outweigh those it loses to them |
| `SplitRecords.DuplicatesCoverMore` | python/decision_engine/graph_v1_recall.py:126-128 | three evaluations: the plan of two duplicates covers more than the plan of either alone |
| `RecallLoops.PoolFacts` | python/decision_engine/graph_v1_recall.py:66-85 | the two dictionaries, filled record by record, give exactly the merged facts |
| `RecallLoops.FileCandidates` | python/decision_engine/graph_v1_recall.py:133-142 | the first loop of recall computes exclusions and groups, or stops at the first alias cycle |
| `RecallLoops.MergeGroups` | python/decision_engine/graph_v1_recall.py:144-196 | the second loop, pooling the facts of each group, computes identities, merges and representatives |
| `RecallLoops.RunRecall` | python/decision_engine/graph_v1_recall.py:123-205 | the whole stage, run as loops, equals the recall function |
| `Evidence.StateExact` | python/decision_engine/graph_v1_recall.py:214-281 | conflict exactly when disputed or revoked; stale exactly when outside the allowance; acceptable exactly when allowed in every respect and within it |
| `Evidence.AcceptableExact` | python/decision_engine/graph_v1_recall.py:214-281 | evidence is acceptable for a field exactly when undisputed, reconstructable, of an allowed class and method, in the required scope, and observed within the allowance; its age is how long ago it was observed over the allowance |
| `Evidence.UnrecordedExact` | python/decision_engine/graph_v1_recall.py:284-335 | evidence without a record is unknown and undated |
| `Evidence.AssessedExactly` | python/decision_engine/graph_v1_recall.py:284-335 | a finished assessment answers for exactly the material evidence and field pairs, each by its own policy and record |
| `RecallLoops.RunAssessment` | python/decision_engine/graph_v1_recall.py:284-335 | collecting pairs and assessing them in order equals the assessment function, first exception included |
| `Gates.FieldStateShape` | python/decision_engine/graph_v1.py:197-238 | acceptable means exactly one value; no value means unknown; several values mean conflict |
| `Gates.RequireMatchExact` | python/decision_engine/graph_v1.py:321-457 | a required match is TRUE exactly when every predicate is supported by every component: one value, acceptable evidence, matching |
| `Gates.BlockOnMatchExact` | python/decision_engine/graph_v1.py:321-457 | a blocking gate blocks exactly when every predicate is supported by every component |
| `Gates.ConflictSurfaces` | python/decision_engine/graph_v1.py:385-396 | a conflict on any component makes a buyer gate that reads the field CONFLICT, whatever its mode |
| `Gates.GateReasonsComplete` | python/decision_engine/graph_v1.py:321-457 | a gate that is not TRUE has a reason, and no reason leaves the plan eligible |
| `Gates.StatusExact` | python/decision_engine/graph_v1.py:486-491 | a plan is eligible exactly when none of its gates has a reason |
| `Gates.StatusPrecedence` | python/decision_engine/graph_v1.py:486-491 | no reason outranks the one that gives the status |
| `Gates.EligibleMeansAllTrue` | python/decision_engine/graph_v1.py:460-491 | every gate of an eligible plan is TRUE |
| `Matching.MatchExact` | python/decision_engine/graph_v1.py:159-188 | a value matches exactly when it satisfies the predicate in the sense of its operator: equal, different, listed, containing all, at most, below, at least or above as numbers, present; it does not match exactly when it does not and the two can be compared |
| `Matching.BuyerSaysExact` | python/decision_engine/graph_v1.py:139-140 | a later statement of the buyer on a field replaces an earlier one, of those not removed |
| `Matching.RequiredExact` | python/decision_engine/graph_v1.py:305-457 | a required match of the buyer is TRUE exactly when on every component every predicate is proven, by one stated value on acceptable and undisputed evidence, and satisfied by that value |
| `Matching.RequiredFails` | python/decision_engine/graph_v1.py:305-457 | it is FALSE exactly when nothing it reads is disputed and on some predicate all components are proven and one states a value that does not satisfy it |
| `Matching.BlockedExact` | python/decision_engine/graph_v1.py:305-457 | a block of the buyer is FALSE exactly when every component shows every predicate |
| `Matching.SellerFails` | python/decision_engine/graph_v1.py:321-457 | a seller's rule is FALSE exactly when, with its evidence in order, the buyer's last word on some required field does not satisfy it, or on all fields of a block does |
| `GateReasons.ReasonsExact` | python/decision_engine/graph_v1.py:328-457 | a gate reports exactly, for each field it reads, a dispute, else stale evidence, else missing evidence; for a seller's rule what its evidence lacks and what the buyer leaves open; and its rule's own reason when it is FALSE |
| `Statuses.ReportInOrder` | python/decision_engine/graph_v1.py:441-457 | each reason once, in the order of precedence and then of codes |
| `Matching.ExecutableShows` | python/decision_engine/graph_v1.py:460-491 | in every evaluation an executable plan shows every predicate of each required match of the buyer that judges it, on every component |
| `Matching.WithinLimit` | python/decision_engine/graph_v1.py:178-185 | so under a required match that a field be at most k every component states a number, one only, and it is at most k |
| `Matching.BudgetHolds` | python/decision_engine/graph_v1.py:1040-1062 | an executable plan for packs costs no more than any limit that a required match sets on the landed total |
| `Matching.CostStated` | python/decision_engine/graph_v1.py:1012-1053 | on the landed total a pack's plan states its cost, on the evidence its records have for it, for its root where it is scored and for every component where it is judged, and nothing else |
| `Statuses.PrimaryIsFirst` | python/decision_engine/graph_v1.py:79-92 | the status is the first, in the listed precedence, that a reason of any gate carries |
| `Statuses.PrimaryReasonExact` | python/decision_engine/graph_v1.py:486-491 | the reason named first carries that status, and of those that do the smallest code |
| `Statuses.OwnStatus` | python/decision_engine/graph_v1.py:255-303 | an unavailable plan is UNAVAILABLE whatever the rules say; where they have nothing against it, a plan with an unmet dependency is ineligible, else one not sealed by its seller advisory, else it is ELIGIBLE |
| `Statuses.ResolutionExact` | python/decision_engine/graph_v1.py:1131-1147 | a plan takes the resolution its gates with reasons permit, joined in order if several, else its action's own |
| `Statuses.LifecycleExact` | python/decision_engine/graph_v1.py:1148-1168 | a plan is EXECUTABLE exactly when eligible with bounds, and waits exactly when CONDITIONAL, STALE_EVIDENCE, INSUFFICIENT_EVIDENCE or ADVISORY_ONLY with a permitted resolution |
| `Failures.FailsExact` | python/decision_engine/graph_v1.py:321-457 | a gate is FALSE exactly when its rule fails: a required match when nothing it reads is in conflict and some predicate has acceptable evidence for every component and a value that does not match (for a seller rule: a buyer's value that does not); a block when its evidence is in order and every predicate holds |
| `Pending.FalseExact` | python/decision_engine/graph_v1.py:429-457 | a FALSE gate reports its rule's own reason; a gate that reports it is FALSE, unless the rule words it as one of the reasons about evidence |
| `Pending.PendingExact` | python/decision_engine/graph_v1.py:1150-1168 | a plan is RESOLUTION_PENDING exactly when a resolution is permitted and the first of all its gates' reasons has a pending status |
| `Pending.PendingWithFalse` | python/decision_engine/graph_v1.py:1150-1168 | in every evaluation a RESOLUTION_PENDING plan has a FALSE gate exactly when a dependency is unmet, its publisher has not sealed it or an applicable rule fails; and one that nothing is permitted to resolve exactly when a dependency is unmet or an applicable rule without a permitted resolution fails |
| `Pending.WaitsThoughFailed` | python/decision_engine/graph_v1.py:1150-1168 | an evaluation of one action of the current stack, RESOLUTION_PENDING for stale evidence although its gate is FALSE and nothing is permitted to resolve it |
| `Removals.RulesExact` | python/decision_engine/graph_v1.py:241-252 | a rule judges a plan exactly when all its source facts are stated and not removed, the action is listed or none is, and a seller's rule is its own seller's; likewise for the criteria that score it |
| `Removals.OutcomeExact` | python/decision_engine/graph_v1.py:518-529 | the observation that counts is the last one on the subject and criterion whose source facts are all stated |
| `GraphLoops.CollectTallies` | python/decision_engine/graph_v1.py:328-427 | truth values and reasons appended predicate by predicate equal the collected tally |
| `GraphLoops.RunGates` | python/decision_engine/graph_v1.py:460-483 | appending gate results in order, the gates every plan has first, equals the gates of the plan or the first exception |
| `Dimensions.NormalizeInRange` | python/decision_engine/graph_v1.py:494-515 | normalized values lie in [0, 1]; only unreadable numbers and unknown operators raise |
| `Satisfactions.NormalizeExact` | python/decision_engine/graph_v1.py:494-504 | a satisfaction is 1 exactly for the expected value, or for a list that holds all expected items, and 0 otherwise |
| `Satisfactions.LowerExact` | python/decision_engine/graph_v1.py:505-514 | where lower is better a number is satisfied as the first point whose bound it does not exceed says, and not at all beyond the last |
| `Satisfactions.FieldScore` | python/decision_engine/graph_v1.py:532-624 | a criterion on a field is satisfied exactly as its one acceptable value is; without one it grants nothing for sure and at best what is declared for the unknown |
| `Satisfactions.OutcomeScore` | python/decision_engine/graph_v1.py:532-597 | a criterion on outcomes is satisfied as observed on acceptable, undisputed evidence, by the neutral prior if nothing was observed, and is unsupported otherwise |
| `Satisfactions.PlanMeans` | python/decision_engine/graph_v1.py:678-713 | preference and coverage of a plan are the weighted means over the criteria that apply to it, of their satisfactions by weight and of whether they are settled or may be by coverage weight |
| `Satisfactions.PlanAge` | python/decision_engine/graph_v1.py:735-747 | a plan is as old, at either end, as the oldest evidence behind its facts or scores |
| `Satisfactions.RiskRuleExact` | python/decision_engine/graph_v1.py:637-666 | a risk rule contributes its bounds where it has no predicate or the acceptable value satisfies it, and what it declares for missing input where there is none |
| `Satisfactions.PlanRisk` | python/decision_engine/graph_v1.py:627-675 | a plan's risk comes from what all rules contribute, and nothing else |
| `Satisfactions.ReasonsExact` | python/decision_engine/graph_v1.py:776-836 | a plan lacks bounds for exactly what a score lacks, no criterion, risk rules that leave its risk open, material evidence without a time, or an unusable cost |
| `Dimensions.UnsupportedGrantsNothing` | python/decision_engine/graph_v1.py:532-624 | a score without acceptable evidence and without a declared prior has conservative satisfaction zero; a prior is never counted as evidence |
| `Dimensions.SupportedSpansValues` | python/decision_engine/graph_v1.py:598-602 | with acceptable evidence the satisfaction interval contains every normalized value |
| `Dimensions.RiskExact` | python/decision_engine/graph_v1.py:627-675 | risk is open exactly when a rule lacks its input, or nothing contributes and the rules may be incomplete; otherwise each level is the highest among the contributions: none exceeds it and one attains it |
| `Dimensions.CostExact` | python/decision_engine/graph_v1.py:750-773 | a cost is usable exactly when fully stated, totals agree with line items, and fees match paying components; it raises exactly on unordered or mixed totals |
| `Dimensions.DimensionsWellFormed` | python/decision_engine/graph_v1.py:532-836 | for every plan, bounds are absent exactly when a reason says why, and present bounds are ordered and in range; only policy errors raise |
| `GraphLoops.ScoreComponents` | python/decision_engine/graph_v1.py:532-624 | the scoring loop equals the scores of the applicable criteria and gathers exactly their reasons |
| `GraphLoops.BoundRisk` | python/decision_engine/graph_v1.py:627-675 | the risk loop equals the aggregated contributions, or the missing inputs, or the default of a complete rule set |
| `Materials.AggregateKeepsOthers` | python/decision_engine/graph_v1.py:849-906 | aggregating preference fields of a bundle leaves the facts on all other fields as the components state them |
| `BundleFields.NumbersCombined` | python/decision_engine/graph_v1.py:874-891 | sum, minimum and maximum of a bundle field are those of the numbers its components state |
| `BundleFields.OthersCombined` | python/decision_engine/graph_v1.py:892-902 | all, any and union of a bundle field are those of its components' flags and lists |
| `BundleFields.LeftApart` | python/decision_engine/graph_v1.py:874-905 | values that cannot be combined the declared way are left apart |
| `BundleFields.BundledField` | python/decision_engine/graph_v1.py:862-906 | where every component states a field once, the bundle states the combined value on the evidence of all, for its root; or, if they cannot be combined, every statement |
| `BundleFields.AggregatedField` | python/decision_engine/graph_v1.py:849-906 | what a bundle states on a preference field is what the last criterion declared on it makes of its components |
| `Materials.LastOfferWins` | python/decision_engine/graph_v1.py:959-969 | an offer identifier is known exactly when some offer has it, and then stands for the last such offer |
| `Packs.OfferExact` | python/decision_engine/graph_v1.py:959-985 | a pack is offered under the text at which the chain of aliases from its folded offer identifier stops, for want of an alias or where it closes |
| `Bundling.CombinedConserves` | python/decision_engine/graph_v1.py:909-953 | the totals of a plan whose components all have usable offers are the sums of all line items and of what offers without items cost, ordered, with one fee per paying component; the only issue is offers that cannot be compared; the cost check passes exactly when nobody itemizes or whoever does not costs nothing |
| `Bundling.MissingOffer` | python/decision_engine/graph_v1.py:909-953 | a component without a known offer is an issue, exactly, and leaves every total unknown |
| `Bundling.BundleComparable` | python/decision_engine/graph_v1.py:909-953 | several offers over one horizon and in one currency make a bundle over that horizon and in that currency |
| `Packs.PackTaken` | python/decision_engine/graph_v1.py:956-1077 | a pack's plan is available exactly when all components are, sealed exactly when all are sealed, under the gates of all their sellers, with the issues of its closure and of its cost |
| `Packs.WeakestAuthority` | python/decision_engine/graph_v1_recall.py:57-63 | packs together have the authority of the weakest among them, in the order sealed, compiled, unsealed |
| `Packs.ExecutablePacks` | python/decision_engine/graph_v1.py:956-1077 | an executable plan for packs has every component available, sealed by its seller and offered, and nothing missing from its closure |
| `Packs.PlansInOrder` | python/decision_engine/graph_v1.py:1118-1120 | plans come by action name, then component, then source |
| `Packs.ActionsExact` | python/decision_engine/graph_v1.py:1126-1130 | a plan's stable identifiers are its action's name in lower case, then its components in order |
| `Closure.ClosureExact` | python/decision_engine/graph_v1.py:977-1003 | for any catalog and root the closure lists exactly the reachable products, each once, the root last; each issue appears exactly when it has a cause; without a cycle dependencies come first |
| `GraphLoops.ClosureSearch.VisitRecord` | python/decision_engine/graph_v1.py:983-1000 | the recursive visit, updating its four collections, takes the state exactly where the search function does |
| `GraphLoops.FindClosure` | python/decision_engine/graph_v1.py:977-1003 | a fresh search gives the closure of its root |
| `GraphLoops.RunAggregation` | python/decision_engine/graph_v1.py:849-906 | extending the facts of a bundle field by field equals the aggregation, first exception included |
| `GraphLoops.RunMaterials` | python/decision_engine/graph_v1.py:956-1077 | filling the offer and product dictionaries, then searching, costing and aggregating root by root, gives the plan materials in order or the first exception |
| `GraphLoops.RunDimensions` | python/decision_engine/graph_v1.py:776-836 | scores, preference, risk, coverage and cost, each by its own loop and in this order, give the dimensions or the first exception |
| `GraphLoops.BuildPlans` | python/decision_engine/graph_v1.py:1103-1193 | materials, then gates and dimensions of each, all by their loops, give the plans in material order, or the first exception |
| `GraphLoops.CollectResolutionFrontier` | python/decision_engine/graph_v1.py:1244-1254 | the loop gathers exactly the resolution frontier |
| `GraphLoops.RankPlans` | python/decision_engine/graph_v1.py:1207-1254 | bounding, ranking and gathering both frontiers in place equals the ranking function |
| `GraphLoops.RunEvaluation` | python/decision_engine/graph_v1.py:1499-1550 | the stages, run as loops that call one another from recall down to risk, equal the evaluation all theorems are about |
| `Guarantees.EvaluationForgetsOrder` | python/decision_engine/graph_v1.py:1499-1550 | the order of the candidate records changes nothing in the evaluation |
| `Guarantees.PlansHaveMaterials` | python/decision_engine/graph_v1.py:1103-1193 | every plan comes from a material and every material gives a plan |
| `Guarantees.ExecutableExact` | python/decision_engine/graph_v1.py:1150-1168 | a plan is EXECUTABLE exactly when no gate has a reason and its bounds are known; all its gates are then TRUE |
| `Guarantees.EligibilityFailsClosed` | python/decision_engine/graph_v1.py:197-491 | in every evaluation an EXECUTABLE plan has, for each applicable required match, every predicate and every component, one value on acceptable evidence that matches |
| `Guarantees.ConflictBlocks` | python/decision_engine/graph_v1.py:1150-1168 | a buyer gate that meets a conflict leaves its plan BLOCKED |
| `Guarantees.DisagreementSurfaces` | python/decision_engine/graph_v1_recall.py:123-205 | two kept duplicates that disagree on a field (other than the landed total) leave every plan with the product and an applicable buyer gate on the field at CONFLICT and BLOCKED |
| `RankGuarantees.PlansWellFormed` | python/decision_engine/graph_v1_models.py:640-665 | in every evaluation every plan's bounds are well formed |
| `RankGuarantees.RankTotal` | python/decision_engine/graph_v1.py:1196-1232 | ranking well-formed plans raises exactly when they do not all have one currency and one horizon, horizons being looked up by plan identifier |
| `SharedIds.IncomparableExact` | python/decision_engine/graph_v1.py:1218-1228 | put in terms of plans: exactly when two plans to be ranked differ in currency or in the horizon their identifiers stand for |
| `RankGuarantees.SelectionExact` | python/decision_engine/graph_v1.py:1207-1240 | a plan is selected exactly when some eligible plan has bounds, and no such plan ranks before the selected one |
| `RankGuarantees.ResolutionFrontierExact` | python/decision_engine/graph_v1.py:1244-1254 | the resolution frontier is exactly the pending plans that, once resolved, could precede the selected plan |
| `RankGuarantees.OrderingFrontierExact` | python/decision_engine/graph_v1.py:1207-1243 | UNDETERMINED exactly when an eligible plan with another identifier lacks bounds; otherwise the ordering frontier is the selected plan and exactly the eligible plans with other identifiers that may precede it |
| `RankGuarantees.StableSelectionExact` | python/decision_engine/graph_v1.py:1207-1243 | with all eligible plans bounded, STABLE exactly when the selected plan precedes every eligible plan with another identifier whatever the dimensions turn out to be |
| `SharedIds.SameComponentsSameId` | python/decision_engine/graph_v1.py:839-846 | plans of one evaluation with the same action and components share their identifier, whoever sells the components |
| `SharedIds.UnthreatenedExact` | python/decision_engine/graph_v1.py:1232 | no other eligible plan at all may precede the selected one exactly when the answer is STABLE and no plan sharing the selected identifier has a best case before the selected plan's worst case |
| `Market.MarketStable` | python/decision_engine/graph_v1.py:1232-1243 | an evaluation of any number of sellers of one product of which nothing is known selects one of their plans and calls it STABLE although every plan may precede it |
| `Market.TwinOverlooked` | python/decision_engine/graph_v1.py:1232-1243 | such an evaluation of two sellers: the selected plan is STABLE and the other seller's may precede it |
| `SharedIds.HorizonsExact` | python/decision_engine/graph_v1.py:1217-1226 | when ranking succeeds and every eligible plan has bounds, the costs compared are over one horizon exactly when eligible plans that share an identifier share a horizon |
| `SharedIds.LastStands` | python/decision_engine/graph_v1.py:1217 | an identifier stands for the horizon of the last eligible plan that carries it |
| `Market.HorizonsMixed` | python/decision_engine/graph_v1.py:1217-1226 | that evaluation of two sellers ranks a cost over thirty days against one over a year |
| `Exceptions.EvaluationRaises` | python/decision_engine/graph_v1.py:1499-1550 | a valid input is refused for a repeated identifier exactly when there is one; besides, an evaluation raises only for an alias cycle, evidence without policy or of the wrong time, unreadable numbers or unknown operators, and incomparable costs |
| `Counterfactual.CombinationsExact` | python/decision_engine/graph_v1.py:1614-1615 | the combinations of a size are exactly the increasing choices of that size |
| `Counterfactual.CombinationsIncrease` | python/decision_engine/graph_v1.py:1614-1615 | combinations are produced in lexicographic order |
| `Counterfactual.TryAll` | python/decision_engine/graph_v1.py:1614-1630 | one size is tried completely: the recorded flips are exactly the combinations that change the selection, in order |
| `Removals.RemovalIsErasure` | python/decision_engine/graph_v1.py:131-144 | evaluating with facts removed gives, in plans, ranking and everything else, what a buyer who never stated them would get |
| `Removals.RemovedHaveNoSay` | python/decision_engine/graph_v1.py:241-252 | no rule, criterion or observation that rests on a removed fact has a say |
| `Removals.SearchMeansErasure` | python/decision_engine/graph_v1.py:1594-1661 | the search names private facts in place without which the buyer would be offered another plan, where no smaller set would do; or no set of them within the limit would |
| `Removals.GenericIsPublic` | python/decision_engine/graph_v1.py:1664-1700 | the generic evaluation is that of a buyer without private facts |
| `GateChanges.ChangedGatesExact` | python/decision_engine/graph_v1.py:1553-1575 | a gate is reported as changed exactly when, for a plan with some actions, the two evaluations end up saying different things of it, or one nothing |
| `Counterfactual.SearchCounterfactuals` | python/decision_engine/graph_v1.py:1594-1661 | the record names the lexicographically first of the smallest flipping sets and lists all others of that size, or no set within the limit flips; an exception is that of some removal within the limit, all smaller ones having run without flipping |
| `Counterfactual.AnswerOrStop` | python/decision_engine/graph_v1.py:1594-1661 | a search cannot both have an answer and stop on an exception |
| `Counterfactual.EvaluateDecisionGraph` | python/decision_engine/graph_v1.py:1664-1711 | base evaluation, evaluation without private facts and search together, or the error of the first of the three that raises |
| `Counterfactual.DecidedOrNot` | python/decision_engine/graph_v1.py:1664-1711 | never both |
| `Counterfactual.UnchangedMeansGeneric` | python/decision_engine/graph_v1.py:1664-1711 | when the search covers all private facts and finds nothing, a buyer without private facts is offered the same plan |
| `Bridge.AssembleInput` | python/proof/decision_bridge.py:35-209 | assembling the input in loops gives exactly the bridge's decision graph input |
| `Bridge.RunBridge` | python/proof/decision_bridge.py:212-242 | assembling, evaluating by loops and reading off the winner equals the outcome all theorems are about |
| `PlainRecall.PlainRecallExact` | python/decision_engine/graph_v1_recall.py:123-205 | without aliases, exclusions and shared keys every record is represented by itself and nothing is merged or excluded |
| `Trials.TrialIdentifiers` | python/proof/decision_bridge.py:35-209 | the bridge's input passes the unique-identifier checks exactly when adapters differ by more than hyphens and underscores and the manifest does not repeat the canary |
| `TrialRecall.TrialRecalled` | python/proof/decision_bridge.py:87-129 | where adapters stay apart when folded, recall keeps one record per verdict |
| `TrialRecall.TrialAssessed` | python/proof/decision_bridge.py:136-147 | every piece of trial evidence is acceptable and current |
| `TrialPlans.TrialMaterials` | python/proof/decision_bridge.py:87-147 | there is one plan material per verdict and no other |
| `TrialPlans.ChargedOffer` | python/decision_engine/graph_v1.py:959-969 | a verdict's plan is charged the offer of the last verdict with the same folded offer identifier |
| `TrialOutcome.TrialStatus` | python/proof/decision_bridge.py:148-160 | a verdict's plan is eligible exactly when the verdict passed every active gate |
| `TrialOutcome.TrialMeasured` | python/proof/decision_bridge.py:182-206 | all dimensions of a verdict's plan are known exactly: the preference from its declared price, the cost from the offer it is charged |
| `TrialWinner.SelectsFirst` | python/decision_engine/graph_v1.py:1207-1240 | ranking the verdicts' plans puts a first clear verdict, by what the plans are charged, in front, or ranks nothing |
| `TrialWinner.WinnerExact` | python/proof/decision_bridge.py:212-242 | for any number of verdicts the graph names a winner exactly when some verdict passed every active gate, and it is the first such verdict by price preference, charged price and identifier |
| `TrialWinner.FirstUnique` | python/proof/decision_bridge.py:212-242 | there is only one such verdict |
| `TrialCheapest.AlwaysCheapestExact` | python/proof/decision_bridge.py:212-242 | whatever the gates say the run names the cheapest adapter that passed them, exactly when there are no adapters, or suffixes and folded identifiers keep them apart, the manifest does not repeat the canary, and the charged order keeps the order of declared prices |
| `TrialPrices.DeclaredIsCharged` | python/decision_engine/graph_v1.py:959-969 | every verdict is charged its declared price exactly when verdicts that share a folded offer identifier share a price |
| `TrialPrices.SharedPricesAgree` | python/proof/decision_bridge.py:212-242 | and the charged order then keeps the order of declared prices |
| `TrialCollisions.RefusedExact` | python/proof/decision_bridge.py:87-90 | a run is refused for a repeated identifier exactly when two adapters differ only in hyphens and underscores, or the manifest repeats the canary |
| `TrialCollisions.HyphenRefused` | python/proof/decision_bridge.py:87-90 | such as a-b and a_b |
| `TrialCollisions.DearerNamed` | python/proof/decision_bridge.py:87-129 | two concrete clear adapters, a-B and a_b, whose offers fold together: the one that costs ten times as much is named |
| `TrialCollisions.MergedNeverNamed` | python/decision_engine/graph_v1_recall.py:44-85 | adapters that fold alike are merged, and when they differ in price or in the outcome of an active gate the run never names them |
| `Manifest.CompileManifest` | python/proof/manifest_v0.py:31-98 | complete observations compile to the region and schema gates, plus the egress gate exactly when personal data is present, in rule order; others fail at the first missing part |
| `Manifest.JudgeAll` | python/proof/manifest_v0.py:122-157 | judging adapter by adapter in identifier order, stopping at the first exception |
| `Manifest.EvaluateCampaign` | python/proof/manifest_v0.py:101-182 | binding check, verdicts, then the bridge's run on them |
| `Manifest.EligibleExact` | python/proof/manifest_v0.py:122-157 | a verdict is eligible exactly when the run completed and every expected gate came out true |
| `Campaigns.JudgeExact` | python/proof/manifest_v0.py:122-157 | an adapter can be judged exactly when it has a price and a result that is identified and, where releases are given, of the released artifact and region; it failed exactly the expected gates not reported true, all and to run at all if it did not complete |
| `Campaigns.PriceExact` | python/proof/manifest_v0.py:112-121 | the price is the curated one, or that of the last release of the adapter |
| `Manifest.CampaignExact` | python/proof/manifest_v0.py:101-182 | a judged campaign is decided exactly when some adapter is eligible, and the winner is the first eligible adapter by what the plans are charged |
| `Manifest.CheapestDecided` | python/proof/manifest_v0.py:101-182 | where adapters that share a folded offer identifier share a price, it is the cheapest eligible adapter |
| `Manifest.DroppingGates` | python/proof/manifest_v0.py:101-182 | dropping manifest gates on the same results never loses the decision and never moves the winner back in the charged order; where shared offers share a price it never makes the winner dearer |
| `Stackfile.TargetsExact` | python/stackfile/models.py:272-276 | the search graph has an edge exactly for each hard REQUIRES or REQUIRES_CAPABILITY edge |
| `Stackfile.CycleSearch.constructor` | python/stackfile/models.py:277-278 | a fresh search has nothing under way and nothing finished |
| `Stackfile.CycleSearch.Visit` | python/stackfile/models.py:280-289 | a visit reports only real cycles, and otherwise finishes the node with everything it depends on, dependencies first |
| `Stackfile.CycleSearch.FindCycle` | python/stackfile/models.py:291-292 | the search reports a cycle exactly when the graph has one |
| `Stackfile.ValidateNoHardCycle` | python/stackfile/models.py:269-292 | the check fails exactly on a hard dependency cycle; otherwise a rank falls along every hard dependency |
| `Stackfile.ValidateGraph` | python/stackfile/models.py:239-266 | no error exactly for valid graphs; each error has its cause |
| `StackLives.GraphExact` | python/stackfile/models.py:239-292 | a graph is valid exactly when identifiers and aliases are unique, edges join known nodes, only ACTIVE instances fulfil jobs, and no round of hard REQUIRES or REQUIRES_CAPABILITY edges exists |
| `StackPatches.EffectKeepsSound` | python/stackfile/patches.py:193-295 | every accepted operation keeps node ids, aliases and edge ids unique and leaves no dangling edge |
| `StackPatches.RunKeepsSound` | python/stackfile/patches.py:181-295 | so does any run of operations, accepted or skipped |
| `StackPatches.AddRemoveEdge` | python/stackfile/patches.py:207-269 | adding an edge and removing it restores the graph |
| `StackPatches.AddRemoveNode` | python/stackfile/patches.py:194-295 | adding a node that is no product instance and removing it restores the graph |
| `StackPatches.TransitionOnly` | python/stackfile/patches.py:221-262 | an accepted transition changes the state of its instance along the lifecycle table and nothing else |
| `StackLives.TransitionExact` | python/stackfile/patches.py:221-262 | a transition is accepted exactly from the instance's state, along one of the thirteen listed steps, and to ACTIVE only if validated |
| `StackPatches.LoadInvertsNext` | python/stackfile/patches.py:191-192 | writing a simulated graph out as a snapshot and loading it again gives the same graph |
| `StackPatches.FinalCheck` | python/stackfile/patches.py:297-312 | the final graph check can fail only for an idle instance that fulfils a job or a hard cycle |
| `StackPatches.Simulate` | python/stackfile/patches.py:191-295 | the interpreter's loop over its dictionaries equals the run of the operations, issues included |
| `StackPatches.ValidatePatch` | python/stackfile/patches.py:181-314 | binding issues, operation issues, or the final check decide the outcome, in this order; a valid patch yields the next version |
| `StackLives.BindingExact` | python/stackfile/patches.py:183-189 | a patch is bound to its base exactly by organization, version and hash |
| `StackPatches.ApplyApprovedPatch` | python/stackfile/patches.py:317-351 | only an approved, bound, valid patch is applied, and every such patch is |
| `StackPatches.AppliedWasApproved` | python/stackfile/patches.py:325-345 | a patch that starts as a draft and ends applied has been approved |
| `StackLives.PatchStepExact` | python/stackfile/patches.py:325-345 | a patch takes on a status exactly along the listed steps, and nothing else about it changes |
| `StackPatches.ChainVersions` | python/stackfile/patches.py:181-351 | along any chain every snapshot is valid and the version grows by one per patch |
| `StackPatches.NoPatchTwice` | python/stackfile/patches.py:186-187 | no patch is applied twice |
| `StackPatches.InstancesSurvive` | python/stackfile/patches.py:155-178 | along any chain no product instance disappears, its states follow the lifecycle table, and CANCELLED is final |
| `StackLives.LifecycleExact` | python/stackfile/patches.py:155-178 | a state leads to another exactly when that is further along the course of an instance, or when both are ACTIVE or DEGRADED |
| `StackLives.NeverBack` | python/stackfile/patches.py:155-178 | along any chain an instance never falls back to an earlier stage |
| `StackPatches.ActivationValidated` | python/stackfile/patches.py:249-261 | an instance that becomes ACTIVE along a chain has a deployment-validated activation among the patches |
| `Rules.ResolveField` | python/domain/rules.py:18-31 | the walk along a dotted path finds what the path leads to |
| `Rules.OppositesDisagree` | python/domain/rules.py:102-145 | opposite operators are comparable on the same values and give opposite answers |
| `RuleAnswers.NumbersExact` | python/domain/rules.py:121-128 | where both sides are read as numbers, each of the four comparisons is TRUE exactly when the numbers are in that order and FALSE otherwise |
| `RuleAnswers.DatesExact` | python/domain/rules.py:129-142 | likewise for the four date operators and dates |
| `RuleAnswers.UnreadExact` | python/domain/rules.py:34-54 | such a comparison stays unresolved exactly when a side cannot be read |
| `RuleAnswers.MissingExact` | python/domain/rules.py:88-95 | a missing or null field leaves every condition but existence unresolved, and existence is answered by it |
| `RuleAnswers.EqualityExact` | python/domain/rules.py:63-68 | on plain values equality is TRUE exactly when they are the same, a flag never being a number |
| `RuleAnswers.ListEqualityExact` | python/domain/rules.py:63-68 | on lists of plain values equality is TRUE exactly when they agree item by item |
| `RuleAnswers.MembershipExact` | python/domain/rules.py:108-111 | a plain value is in a list exactly when the list holds the same value |
| `RuleAnswers.ContainsExact` | python/domain/rules.py:112-113 | a text contains exactly what occurs in it, a list what one of its items is taken for |
| `RuleAnswers.ContainsAllExact` | python/domain/rules.py:114-119 | a list contains all of another exactly when it holds each of its items |
| `Rules.ExpressionExact` | python/domain/rules.py:163-179 | all is TRUE exactly when every condition is, FALSE exactly when one is; any is the dual |
| `RuleAnswers.UnresolvedExact` | python/domain/rules.py:163-179 | an expression reports the fields of its unresolved conditions, unless it is TRUE for all or FALSE for any |
| `Rules.ConditionMonotone` | python/domain/rules.py:88-100 | a decided condition stays decided the same way when information is filled in |
| `Rules.ExpressionMonotone` | python/domain/rules.py:163-179 | filling in missing or null leaves never turns TRUE into FALSE or FALSE into TRUE, without EXISTS and on fields that hold no mapping |
| `Rules.ExistenceGrows` | python/domain/rules.py:88-93 | a test for existence moves one way only |
| `Rules.ExistenceNotMonotone` | python/domain/rules.py:88-93 | a concrete context where filling in a field turns EXISTS from FALSE to TRUE |
| `Rules.MappingNotMonotone` | python/domain/rules.py:102-109 | a concrete context where a condition on a whole mapping turns from TRUE to FALSE |
| `PurchaseIntents.AnswerKeepsSourced` | python/persistence/repositories.py:732-802 | every call keeps keys unique per intent, from-states right, statuses equal to the fold of the log, and exactly one outbox event per logged key |
| `PurchaseIntents.RunSourced` | python/persistence/repositories.py:732-802 | so does any run of calls, and the log only grows |
| `PurchaseIntents.ReplayIsNoOp` | python/persistence/repositories.py:752-766 | repeating an accepted call at any later time changes nothing; with another target or payload it is refused |
| `PurchaseIntents.LoggedExactly` | python/persistence/repositories.py:745-801 | a call is logged exactly when field and intent exist, its key is new to the intent and the field is in an allowed state; then that field moves, the transition records the call and the state left, and nothing else changes but the outbox |
| `PurchaseIntents.AnnouncementExact` | python/persistence/repositories.py:789-801 | an announcement names the intent, the field's column and the key |
| `PurchaseIntents.AnnouncedExactly` | python/persistence/repositories.py:789-801 | a newly logged transition gets an outbox event of its own exactly when no transition of the tenant, on any intent, carries its event key |
| `PurchaseIntents.SharedKeyAnnouncedOnce` | python/persistence/repositories.py:1083-1113 | outbox keys are tenant-wide: a second intent moving under a used key is logged but not announced |
| `PurchaseIntents.Repository.TransitionPurchaseIntent` | python/persistence/repositories.py:732-802 | the method's whole effect on intents, log and outbox, keeping the store event-sourced |
| `MissionLog.AnswerKeepsSound` | python/persistence/mission_repository.py:326-377 | every request keeps sequences 1..n per mission and keys unique across the tenant, and leaves earlier events alone |
| `MissionLog.RunSound` | python/persistence/mission_repository.py:326-377 | so does any run of requests |
| `MissionLog.ReplayIsNoOp` | python/persistence/mission_repository.py:338-349 | an accepted request repeated at any later time answers the same event and changes nothing; another payload under the key is refused |
| `MissionLog.AppendedExactly` | python/persistence/mission_repository.py:326-377 | a request of the tenant under a new key, and no other, appends the event it describes, numbered one after the mission's highest |
| `MissionLog.Log.AppendEvent` | python/persistence/mission_repository.py:326-377 | the method's answer and the whole log afterwards |

## Where the code differs from what is said about it

- `graph_v1_recall.py:126-128` says a duplicate can never improve coverage. It can: equal values pool their
  evidence (`SplitRecords.DuplicatesCoverMore`; exactly when, `MergedCoverage.CoverageRisesExact`, and field by
  field `Duplicates.ImprovementExact`). What holds is `Duplicates.SomeDuplicateAsGood`, on a single field, and
  `Guarantees.DisagreementSurfaces`.
- The ordering frontier holds the plans that may precede the selected plan, which is more than the
  plans that may come first (`Stability.FrontierNeedNotWin`, `Stability.MayWinExact`).
- The primary status comes from the reasons of all gates by precedence, not from their truth values, so
  RESOLUTION_PENDING does not mean that every FALSE gate can be resolved (`Pending.WaitsThoughFailed`;
  exactly when one cannot, `Pending.PendingWithFalse`).
- Plan identifiers depend on action and components only, so plans for one product from two sellers share
  one (`SharedIds.SameComponentsSameId`). A plan that shares the selected identifier is left out of the
  stability test (`Market.TwinOverlooked`; exactly when STABLE still means what it says,
  `SharedIds.UnthreatenedExact`), and the last such plan's horizon stands for all, so that costs over different
  horizons are compared (`Market.HorizonsMixed`; exactly when they are not, `SharedIds.HorizonsExact`).
- Distinct adapter identifiers are not enough for the bridge. Those that differ only in hyphens and
  underscores make it refuse the run (`TrialCollisions.RefusedExact`). Those whose offers fold together are
  all charged the last one's offer, so that a dearer adapter can win (`TrialCollisions.DearerNamed`). Those that
  fold together themselves are merged, and never win when they differ in price or in the outcome of an active
  gate, even if one of them is the only one that passed (`TrialCollisions.MergedNeverNamed`). Exactly when the
  cheapest adapter wins whatever the gates say is `TrialCheapest.AlwaysCheapestExact`. The winner is reported
  under its folded identifier.
- Outbox keys are shared by all intents of a tenant (`PurchaseIntents.SharedKeyAnnouncedOnce`; exactly when
  a transition is announced, `PurchaseIntents.AnnouncedExactly`).

## Left out

- Hashing, canonical JSON and case folding: parameters. Merging keys facts by value, which assumes that the value hash separates values.
- Detail texts of reasons, triggered risk identifiers, hard and universe coverage, unresolved and conflict counts, quote and autonomy flags, payload hashes: not part of the model.
- Piecewise preference points are taken in declared order; their sorting at construction is not modelled.
- Bundles with several currencies or horizons take the first stated one, where the program takes an arbitrary set element; such a plan carries an issue and is never ranked.
- What a single bundle field comes to (`CombineValues`), and the totals of a bundle (`CombinedCost`), are functions on values without a loop beside them; so are rank stability and the reruns of a counterfactual search.
- TrialWinner.WinnerExact: takes prices as whole cents, and requires of the adapters at hand that folding is stable on them and keeps them and their plan identifiers apart. Adapters that fold together are the subject of TrialCollisions.
- TrialCollisions.MergedNeverNamed: requires that adapters that fold alike also have seller identifiers that fold alike, as case folding makes sure, and that plan identifiers tell their components apart; so does TrialCheapest.AlwaysCheapestExact. Adapters that fold alike and agree in price and gates are not followed further.
- MergedCoverage.CoverageRisesExact: speaks of plans of a single record and of preferences that do not read the landed total, which the plan states itself.
- Recall.RecallForgetsOrder: claims order-independence of candidates only; offers are keyed by canonical identifier and a later one replaces an earlier one.
- Rules.ExpressionMonotone: not claimed for EXISTS or for fields that hold a mapping, where it is false.
- Decimal values that are not finite, time zones and datetime values with a time of day in rule comparisons.
- Stack snapshots loaded from compact lock files, and evidence references beyond carrying them.
- Other writers of the outbox: the seller service also forms keys that begin with `outbox:`.
- `supersede_*` methods, which change statuses without logging, and the other repositories.
- Database sessions, row locks and concurrent transactions: the two logs are modelled as serial runs.
- DataHub sessions, container campaigns, agent runtime, API and web interface.
- `ranking.py`, `evaluation.py`, `demo.py` and `snowflake_v1.py`: other evaluators beside the decision graph.
