# Spine, verified

Spine keeps a person's long-term memories, decides which of them to inject into a conversation, and learns from
what the person keeps, removes and adds back. This project models the parts of it where a small slip would be
hard to see, and proves what they promise. Each module follows one component of the repository.

- **Geometry and optimisation.** `Simplex` (the projection that keeps feature weights a partition of one),
  `Descent` (projected gradient descent on a squared hinge, in general), `Learner` and `Fitting` (training pairs
  and the loop that fits weights and biases), `ProjectOffsets` (the second descent per project), `Frontier` and
  `ModelPolicy` (choosing a model from a benchmark table).
- **Replay.** `Scoring` (the layered score), `Replay` (the score as a linear form, and as a learning example with a
  residual bias), `Contributions` (the score broken into parts). The three agree with the served score.
- **Selection and allocation.** `Selection` (pins, locks and the greedy token share), `Preparing` (pools, selection
  and the events one prepare writes), `Corpus` and `Balancing` (capping the training corpus by whole gates),
  `Clusters` (components of the link graph), `Labels` (the label an approved memory gets).
- **State machines over whole runs.** `MemoryTable` (compare-and-swap heads with append-only revisions),
  `Lifecycle`, `LifecycleSteps`, `LifecycleSafety` and `QueueService` (the consent queue, splits and Symphony
  resolution), `Decisions` and `DecisionService` (commit and feedback, exactly once).
- **Effects.** `DecisionEffects`, `LifecycleEffects` and `BalancingEffects` say what each operation leaves behind, in
  terms of the rows before and after and without the helpers that compute it.
- **Printers.** `Renderer` (the final block and a decoder for it), `Ulid` (minting and normalising identifiers).

`Vectors`, `Sorting`, `Ordering` and `Outcomes` are shared vocabulary.

## How the model reads the source

Loops are methods with invariants; objects whose methods change rows are classes (`MemoryTable.MemoryStore`,
`QueueService.Database`, `DecisionService.Database`), each method equal to a step of a specification function, a
refused transaction leaving every field as it was. The properties of whole runs are proved about those steps.

- Numbers are exact reals or unbounded integers. Products of reals are written `Mul(x, y)`.
- A transaction is one atomic step; what a unique index or a foreign key refuses is an error of the step.
- UUIDs are integers, compared as the source compares their text or their value (the two orders agree). Revision,
  edge, card and event rows live in lists in order of insertion; their position is their key. Ids that the
  database or `uuid4` would generate are parameters, and a step that would reuse one is refused.
- Axes are given in the order of their names, in which the source applies them.
- A scorer version's rule for `removed:never` is valid when it is in the map of rules, and does not change.

## What turned out different from the documentation or from a first guess

- **Replay of a stored score** is exact when the event's project has offsets or no global weight is negative, and
  only then: without offsets the serving path uses the global weights as they are while replay projects a negative
  vector first (`Replay.RoundTripExactlyWhen`).
- **The thread derivative** multiplies by one minus the where weight even for an example without a where feature.
  It is the slope exactly when that feature is present, that weight is zero, the thread feature is absent, or it
  equals the score beneath it (`Replay.ThreadDerivativeExactlyWhen`). The where derivative is always the slope.
- **`approval_label`** can need three lookups more than there are active labels, not two: truncation can make the
  base and its first qualified label both equal to numbered labels (`Labels.ThreeExtraLookupsHappen`). Two suffice
  for every set of active labels exactly when that does not happen (`Labels.TwoExtraLookupsSufficeExactlyWhen`),
  which the number that each of the two labels ends with decides (`Labels.FoldsOntoNumbered`).
- **`normalize_ulid`** accepts the Kelvin sign for a K, because the pattern ignores case over all of Unicode, and
  upper-casing leaves it outside the alphabet (`Ulid.KelvinIsAccepted`). The result is canonical exactly when the
  text holds no Kelvin sign (`Ulid.NormalizedIsCanonicalExactlyWhen`).
- **Feedback** is refused for a memory with two events in the injection, after any later run exactly when the
  budget cut the memory and it was also shown, as a near miss or as an exit of an autonomous thread
  (`Preparing.FeedbackAmbiguousExactlyWhen`). One memory that reaches tau and does not fit is enough
  (`Preparing.AmbiguousFeedbackHappens`). Counters are claimed for the steps that succeed.

## Model

| member | source | states |
|---|---|---|
| Simplex.ProjectSimplex | src/spine/inject/scorer.py:522-538 | the sort-and-threshold loop, its fallback branch unreachable and its renormalisation the identity, returns the projection |
| Simplex.Rho | src/spine/inject/scorer.py:527-533 | for a nonempty vector the loop always finds a threshold index, the last one that passes the test |
| Simplex.ProjectInSimplex | src/spine/inject/scorer.py:522-538 | the result is nonnegative and sums to one, for every nonempty vector |
| Simplex.ProjectVariational | src/spine/inject/scorer.py:522-538 | the obtuse-angle inequality against every simplex point |
| Simplex.ProjectNearest | src/spine/inject/scorer.py:522-538 | every simplex point is farther away, by at least its squared distance to the result |
| Simplex.ProjectIsTheNearest | src/spine/inject/scorer.py:522-538 | a point is nearest if and only if it is the result |
| Simplex.ProjectFixesExactlySimplex | src/spine/inject/scorer.py:522-538 | a vector is left alone if and only if it lies on the simplex |
| Simplex.Renormalize | src/spine/inject/scorer.py:535-538 | dividing by the total and giving the last entry the rest changes nothing when the total is one |
| Scoring.ApplyAxes | src/spine/inject/axes.py:32-39 | the loop over axes layers each applicable axis over the score below it, in name order |
| Scoring.OneMoreAxis | src/spine/inject/axes.py:23-39 | one more axis moves the score towards the product of its two named features by its weight when both are there, and leaves it alone otherwise |
| Scoring.LocalityLayers | src/spine/inject/scorer.py:541-556 | below the axes the score is the weighted sum of the six features with the location, thread and where layers over it, each only when its feature is there |
| Replay.LinearizedIsNestedBlend | src/spine/learner/model.py:533-574 | the linear weights and constant dotted with any weights equal the nested blend of the layers |
| Replay.ProjectedReads | src/spine/learner/evidence.py:85-119 | the baseline is the recorded score less the layered score and the learned bias of the memory |
| Replay.PredictedReads | src/spine/learner/model.py:382-398 | a predicted score is the layered score under the challenger plus the baseline plus its learned bias |
| Replay.ReplayDifference | src/spine/learner/evidence.py:85-119 | replaying a projected event returns the stored score plus exactly the change of the layered score between the two readings of the weights |
| Replay.RoundTripExactlyWhen | src/spine/learner/model.py:382-398 | every event of a project replays to its stored score if and only if the project has offsets or no global weight is negative |
| Replay.ThreadDerivativeExactlyWhen | src/spine/learner/model.py:643-657 | when, and only when, the derivative is the slope of the score in the thread weight |
| Replay.WhereDerivativeIsSlope | src/spine/learner/model.py:725-741 | the where derivative is the slope of the score in the where weight, always |
| Contributions.ExplainLocalities | src/spine/m2k/service.py:1232-1270 | feature and locality parts, rescaled layer by layer, sum to the localised score |
| Contributions.Explain | src/spine/m2k/service.py:1232-1293 | all parts sum to the scorer's output for any axes, so the reported bias is the stored score minus that output |
| Contributions.StagesExplained | src/spine/m2k/service.py:1253-1285 | each rescaling stage adds exactly its layer to what is explained |
| Contributions.AxisPartsAreNamed | src/spine/m2k/service.py:1272-1285 | every axis part carries the name of an axis that applies |
| Descent.ObjectiveUpper | src/spine/learner/model.py:477-511 | a quadratic upper bound of the objective with the computed Lipschitz constant |
| Descent.ObjectiveLower | src/spine/learner/model.py:477-511 | the objective lies above its tangent planes |
| Descent.StepDescends | src/spine/learner/model.py:180-233 | a projected step of at most one over the Lipschitz constant never raises the objective |
| Descent.StepApproaches | src/spine/learner/model.py:180-233 | such a step brings the iterate nearer to every feasible point by what it gains over that point |
| Descent.FixedPointIsOptimal | src/spine/learner/model.py:180-233 | where the step stands still the objective is least among feasible points |
| Learner.Pairs | src/spine/learner/model.py:450-474 | the loops over gates in id order and rows in event order build the list of pairs |
| Learner.PairsAreTrainingPairs | src/spine/learner/model.py:450-474 | a pair is in the list if and only if one gate holds its positive and its negative row, neither weighs less than the pair and one weighs as much |
| Learner.PairsAreOrdered | src/spine/learner/model.py:450-474 | pairs come by gate id, those of a gate by the event of their positive row |
| Learner.RowDifference | src/spine/learner/model.py:494-501 | a row of the problem dotted with weights and biases is the difference that the source computes |
| Learner.PairResidual | src/spine/learner/model.py:494-505 | the residual of a pair is the margin less the difference of its examples, each its score under the weights plus the bias of its memory |
| Learner.RowNorm | src/spine/learner/model.py:191 | the squared norm of a row is at most the bound the step size uses, features plus two |
| Fitting.ObjectiveAndGradient | src/spine/learner/model.py:477-511 | the accumulation over pairs returns the objective and its gradient, by weight and by memory |
| Fitting.LipschitzBound | src/spine/learner/model.py:180-192 | the accumulated constant is the problem's Lipschitz constant |
| Fitting.StepFrom | src/spine/learner/model.py:206-215 | the projected weights and shifted biases are the next point of the descent |
| Fitting.LargestChange | src/spine/learner/model.py:224-227 | the change is the greatest move of any weight or bias |
| Fitting.MaxAbsIs | src/spine/learner/model.py:224-227 | the greatest move is the size of one entry, and no entry is larger |
| Fitting.NextPointProjects | src/spine/learner/model.py:206-215 | every next point is feasible and a projected step as seen from every feasible point |
| Fitting.FitPairwise | src/spine/learner/model.py:156-233 | refuses exactly other than six weights and a corpus without pairs; otherwise the loop is the descent from the projected incumbent |
| Fitting.StartReads | src/spine/learner/model.py:171-179 | the descent starts at the projected incumbent with all biases at zero |
| Fitting.DescendConverges | src/spine/learner/model.py:196-233 | the whole descent stays feasible, never raises the objective, and after k steps is within the squared start distance over 2k steps of every feasible point |
| Fitting.FitGuarantee | src/spine/learner/model.py:156-233 | the fitted weights lie on the simplex, the objective is no worse than at the start and within the bound of the best |
| ProjectOffsets.OffsetGradient | src/spine/learner/model.py:326-336 | the hinge loop accumulates the gradient of the project's objective |
| ProjectOffsets.OffsetResidual | src/spine/learner/model.py:303-336 | the residual of a pair is the margin less the difference that the shifted weights and the global biases put between its examples |
| ProjectOffsets.FitProjectOffsets | src/spine/learner/model.py:293-350 | offsets exactly for the projects with a training pair, each the end of its own descent from zero |
| ProjectOffsets.OffsetsGuarantee | src/spine/learner/model.py:320-348 | the effective weights stay on the simplex, the project's pairs are fitted no worse than without offsets, within the distance bound of the best |
| ProjectOffsets.FittedOffsetsAreServed | src/spine/inject/scorer.py:194-210 | with all the fitted offsets installed together the configuration is valid; serving and replay both use exactly the fitted weights for each fitted project and the global ones for any other |
| Frontier.Deduplicate | src/spine/model_policy.py:242-248 | one row per coordinate, the least name of its coordinate |
| Frontier.ParetoFrontier | src/spine/model_policy.py:239-263 | strictly rising in both axes, undominated, and covering every row of the table |
| ModelPolicy.LowerConvexHull | src/spine/model_policy.py:278-288 | the stack loop builds the hull |
| ModelPolicy.HullRises | src/spine/model_policy.py:278-288 | the hull is a rising convex part of the frontier |
| ModelPolicy.HullBeats | src/spine/model_policy.py:278-288 | a frontier point off the hull is strictly beaten by a hull vertex at every willingness to pay |
| ModelPolicy.SelectSlope | src/spine/model_policy.py:735-750 | unavailable exactly below two points, otherwise the last peak of utility along the hull |
| ModelPolicy.PeakIsBest | src/spine/model_policy.py:735-762 | that choice maximises utility over all rows, then intelligence, then the least name |
| ModelPolicy.SelectMax | src/spine/model_policy.py:670-674 | no row has more intelligence, none as much at a lower price, none at the same point an earlier name |
| ModelPolicy.SelectFloor | src/spine/model_policy.py:218-226 | unavailable exactly when no row meets the floor, otherwise the first by prices and name among those that do |
| ModelPolicy.ElbowPriceFloor | src/spine/model_policy.py:266-275 | none below three points or without a free first point, otherwise the least positive price, over a nonempty set |
| ModelPolicy.FloorMakesPositive | src/spine/model_policy.py:703-720 | with that floor every log is of a positive price and the price axis has positive span |
| ModelPolicy.SelectElbow | src/spine/model_policy.py:703-732 | from three points on the choice is the first of greatest gap above the chord, free of divisions, when some gap is positive, hence interior, or else the most intelligent |
| ModelPolicy.SelectModel | src/spine/model_policy.py:210-236 | each policy's outcome over the whole table; elbow always succeeds, slope fails only where one row covers the table |
| ModelPolicy.OnePointMeansTop | src/spine/model_policy.py:735-740 | the frontier has one point if and only if one row covers the whole table |
| Selection.Choose | src/spine/inject/scorer.py:403-418 | the budget loop splits the ranking into chosen, unchosen and cut by budget |
| Selection.ScoreAndSelect | src/spine/inject/scorer.py:307-433 | refuses exactly an empty context, a bad partition or a locked memory that is no candidate; otherwise every field of the selection |
| Selection.RanksAreComplete | src/spine/inject/scorer.py:371-394 | pins, locked and regular candidates together are ranked 1 to n, each candidate once |
| Selection.GroupsHold | src/spine/inject/scorer.py:349-380 | the groups hold the pins, the locked regular memories that are no pins, and the other regular ones |
| Selection.GroupsAreOrdered | src/spine/inject/scorer.py:349-380 | pins come by id, the others by falling score and equal scores by id |
| Selection.SelectionFigures | src/spine/inject/scorer.py:396-433 | the budget is the whole tokens of the share or the lesser legacy budget, the near misses lead the unselected, totals add up, and the excess is charged to the pins as far as they cost it |
| Selection.SelectionPartitions | src/spine/inject/scorer.py:403-433 | injected and unselected are the ranking rearranged, regular cost is at most the greater of share and locked cost, and the cuts are the unselected that reach tau |
| Selection.RegularInjectedExactlyWhen | src/spine/inject/scorer.py:407-418 | a regular memory is injected if and only if it reaches tau and fits after the choices ranked above it |
| Selection.RaisingTauKeepsTheRest | src/spine/inject/scorer.py:403-433 | raising tau keeps pins and locked memories and yields the earlier regular choices filtered by the new tau |
| Selection.ValidPartition | src/spine/inject/scorer.py:569-578 | accepts exactly flagged pins, unflagged others and distinct ids |
| Preparing.ValidateCommand | src/spine/inject/service.py:101-120 | accepts exactly lists without repetitions, empty in gate mode, confirmed within current, excluded apart from it |
| Preparing.LoadCandidates | src/spine/inject/service.py:510-553 | every memory of any source once, in id order, with its sources; refused exactly when a current memory is not eligible |
| Preparing.InsertEvents | src/spine/inject/service.py:611-694 | the four loops write the events of the selection, exits only for current memories not recorded yet |
| Preparing.EventsRead | src/spine/inject/service.py:611-694 | the batch event by event: how each memory was shown, its rank, and in autonomous mode whether it was kept, auto-entered or auto-exited |
| Preparing.EventsAreOneEach | src/spine/inject/service.py:611-694 | besides budget cuts no memory has two events in the batch |
| Preparing.CurrentDisposedOnce | src/spine/inject/service.py:630-692 | in autonomous mode a current memory has exactly one event at kept or auto-exited |
| Preparing.TwoEventsExactlyWhen | src/spine/inject/service.py:611-694 | a memory has at most two events in a batch, and two if and only if the budget cut it and it is also a near miss or an exit |
| Preparing.FeedbackAmbiguousExactlyWhen | src/spine/inject/decisions.py:608-633 | after a prepare and any later run, feedback on a known memory is refused as ambiguous if and only if the prepare wrote two events for it |
| Preparing.AmbiguousFeedbackHappens | src/spine/inject/decisions.py:608-633 | a selection of one memory after which every feedback on it is refused |
| Preparing.PrepareOnce | src/spine/inject/service.py:233-310 | a prepare with a valid command, eligible memories and a context cannot fail, its pool is what the searches and the command name, and its batch shows pins as pinned, gives gate events no outcome, disposes of every current memory once and keeps every confirmed one |
| Preparing.DuplicatesNeverMet | src/spine/inject/decisions.py:389-396 | over every run, planning a commit never meets a duplicate memory |
| Decisions.CountersMatchEvents | src/spine/inject/decisions.py:207-356 | over every run, never_kills and citations grow by the events at removed:never and cited, and bias moves by the sum of those never steps |
| Decisions.ReplayNeverActsAgain | src/spine/inject/decisions.py:385-468 | after a commit and any later run, the same command fails or changes nothing |
| Decisions.ReplayAtOnceIsAccepted | src/spine/inject/decisions.py:385-479 | sent again at once, a commit succeeds again and changes nothing |
| Decisions.RunAges | src/spine/inject/decisions.py:295-356 | events keep their identity, never lose an outcome, and keep a removed, cited, auto-exited or cut one for good |
| Decisions.QuarantineComesInTime | src/spine/inject/decisions.py:549-574 | if every version quarantines after at most k never removals, no memory is ever active with k |
| DecisionEffects.CommitWritesEvents | src/spine/inject/decisions.py:385-468 | a commit gives each undecided gate event the outcome its lists ask for and changes no other event |
| DecisionEffects.CommitWritesHead | src/spine/inject/decisions.py:242-269 | an add-back counts an injection now, a removal counts a removal, one for ever also a kill, the step of the version and in time the quarantine; other outcomes leave the head alone |
| DecisionEffects.CommitLeavesHead | src/spine/inject/decisions.py:242-269 | a memory without an undecided event at the gate keeps its head |
| DecisionEffects.CommitRefusesExactlyWhen | src/spine/inject/decisions.py:385-479 | each refusal of a commit, in order, if and only if its cause is there: a memory twice at the gate, choices that do not fit, an outcome that disagrees, a missing memory or version |
| DecisionEffects.FinalReads | src/spine/inject/decisions.py:271-293 | the final block lists exactly the gate events kept, added back or cited after the commit, by rank and memory |
| DecisionEffects.WrongReads | src/spine/inject/decisions.py:278-288 | the memories returned as wrong are exactly those listed so, by rank and memory |
| DecisionEffects.FeedbackNeedsOneEvent | src/spine/inject/decisions.py:608-633 | feedback without an event is not found, with two it is refused |
| DecisionEffects.FeedbackWrites | src/spine/inject/decisions.py:295-356 | which transitions are allowed, and what a removal, a citation and an addition each write and count |
| DecisionEffects.PrepareWrites | src/spine/inject/service.py:582-694 | a prepare appends its batch and counts an injection for what it shows as injected or pinned |
| DecisionService.PlanCommit | src/spine/inject/decisions.py:385-468 | succeeds exactly without duplicates, with valid choices and without conflicts, with the right error otherwise, and plans each gate event |
| DecisionService.BatchPlansAlike | src/spine/inject/decisions.py:366-382 | planning from the locked batch is planning from the whole table |
| DecisionService.InItsTurn | src/spine/inject/decisions.py:242-269 | each head change in memory order is all that the commit does to that memory |
| DecisionService.Database.WriteHeads | src/spine/inject/decisions.py:242-269 | fails exactly when a memory is missing, otherwise the heads are those of the step |
| DecisionService.Database.WriteOutcomes | src/spine/inject/decisions.py:271-272 | every guarded update finds an event without outcome, and the table is that of the step |
| DecisionService.Database.CommitDecision | src/spine/inject/decisions.py:207-293 | the database moves exactly as the commit step says, or stays as it was with that step's error |
| DecisionService.Database.RecordFeedback | src/spine/inject/decisions.py:295-356 | the same for feedback: one event, an allowed transition, one counter |
| MemoryTable.CasKeepsLineage | src/spine/db/memory.py:202-273 | a write keeps every memory's revisions 1 to head, one row each, each the child of the one before, the head equal to the newest |
| MemoryTable.InsertKeepsLineage | src/spine/memory/service.py:1198-1254 | an insertion starts such a chain and disturbs no other |
| MemoryTable.CasWrites | src/spine/db/memory.py:202-273 | after a write every named field has its new value, every other its old one, and one row repeats the new text below its parent |
| MemoryTable.CasAcceptsExactlyWhen | src/spine/db/memory.py:202-273 | a write succeeds if and only if it names a change, finds the expected revision and does not take the label of another active memory of the principal |
| MemoryTable.InsertWrites | src/spine/memory/service.py:1198-1254 | an insertion succeeds exactly on a new id and a free label, and keeps the content it is given |
| MemoryTable.OneParent | src/spine/db/memory.py:248-257 | a head's revision has exactly one parent row, so the lineage error cannot fire |
| MemoryTable.InterleavingsKeepLineage | src/spine/db/memory.py:202-273 | any interleaving of arbitrary writes and insertions, stale and refused ones included, keeps every chain and unique labels, and no write then meets the lineage error |
| MemoryTable.OneWinner | src/spine/db/memory.py:215-245 | after a successful write a second one expecting the same revision conflicts, whatever was written in between |
| MemoryTable.AtMostOneSucceeds | src/spine/db/memory.py:215-245 | along any interleaving, of the writes that expect one revision of one memory at most one succeeds |
| MemoryTable.WritesKeepLabels | src/spine/db/memory.py:202-273 | after any write or insertion no two active memories of a principal share a label |
| MemoryTable.MemoryStore.CasUpdateMemoryUnit | src/spine/db/memory.py:202-273 | the rows change as the specification says, and a stale or refused write changes nothing |
| MemoryTable.MemoryStore.InsertRoot | src/spine/memory/service.py:1198-1254 | the head and its first revision appear together or not at all |
| LifecycleSteps.StepSafe | src/spine/queue/service.py:403-613 | every command keeps lineages, labels, the replacement forest, decisions matching card states, and edges matching approved cards |
| LifecycleSteps.EnactReplacement | src/spine/queue/service.py:952-991 | enacting one merge or supersede target tombstones it and adds an edge that keeps the forest |
| LifecycleSteps.ResolveRoutes | src/spine/symphony/service.py:93-169 | winners become candidates, losers are tombstoned, and nothing else of the run changes status |
| LifecycleEffects.ResolutionWrites | src/spine/symphony/service.py:93-169 | staged memories of the run at the winner or beneath it, after a dot, become candidates with one card each, the others tombstones, and nothing else changes |
| LifecycleEffects.ResolutionRefuses | src/spine/symphony/service.py:93-169 | a misplaced winner, another resolution, another principal, an empty run and a winner without a memory are each refused as such |
| LifecycleSafety.RunsAreSafe | src/spine/queue/service.py:288-613 | over every run the invariant holds, statuses only move forward, rows are only appended, decisions and resolutions are final |
| LifecycleSafety.StatusesMoveForward | src/spine/queue/service.py:288-613 | over every run a tombstone stays one, a quarantined memory is only ever closed, and none returns to waiting |
| LifecycleEffects.EnactAllWrites | src/spine/queue/service.py:952-991 | targets are active memories of the principal; replaced ones are tombstoned, one edge of the right kind is added for each, in order, and no other head changes |
| LifecycleEffects.DecisionIsRecorded | src/spine/queue/service.py:403-506 | a first decision closes its card by its vote and records itself, and touches no other card |
| LifecycleEffects.CandidateDecided | src/spine/queue/service.py:403-506 | a denial tombstones the candidate; an approval enacts its targets and activates it under a free label, its own if free |
| LifecycleEffects.CuratorDecided | src/spine/queue/service.py:509-613 | only an explicit human decision on the named revision, and for each verdict exactly its change |
| LifecycleEffects.BatchWrites | src/spine/queue/service.py:361-401 | a batch decides exactly its pending seed and Symphony cards, alike |
| LifecycleEffects.DraftWrites | src/spine/queue/service.py:638-679 | a draft whose targets are all active fetched neighbours is queued, any other is closed |
| LifecycleEffects.InjectedWrites | src/spine/inject/decisions.py:549-574 | a write of a gate moves the revision and quarantines only an active memory |
| LifecycleEffects.SplitWrites | src/spine/memory/service.py:342-514 | the exact source stays as a tombstone, each child is active under its own title and body, and every two children are related both ways |
| LifecycleEffects.SplitRefuses | src/spine/memory/service.py:342-514 | a split is invalid exactly for fewer than two or more than sixty-four children, long titles, or a title or body twice |
| LifecycleSafety.LineageErrorUnreachable | src/spine/db/memory.py:248-257 | after any run no command can raise the lineage error |
| LifecycleSafety.ReplacementIsAForest | src/spine/queue/service.py:952-991 | replacement has no cycle, every replaced memory is tombstoned and has one replacer |
| LifecycleSafety.ApprovalNeverCollides | src/spine/queue/service.py:463-477 | the label found for an approval is free when the head is activated |
| LifecycleSafety.DecisionsReplay | src/spine/queue/service.py:403-430 | after any later run the same decision changes nothing and is accepted exactly if the text it amended still stands, as it does at first; another one is refused |
| LifecycleSafety.ResolutionsReplay | src/spine/symphony/service.py:228-248 | after any later run the same resolution of a run changes nothing and a different one is refused |
| QueueService.Database.EnactCardTargets | src/spine/queue/service.py:952-991 | the loop over targets is the enactment step |
| QueueService.Database.EnactCurator | src/spine/queue/service.py:509-613 | curator approvals change the database as their step says |
| QueueService.Database.DecideCard | src/spine/queue/service.py:403-506 | a decision is its step, or rolled back whole |
| QueueService.Database.DecideCards | src/spine/queue/service.py:361-401 | a batch decides its pending cards in order, all or none |
| QueueService.Database.AddFamilyOf | src/spine/memory/service.py:342-514 | a split inserts every child and relates every two of them |
| QueueService.Database.ResolveSymphony | src/spine/symphony/service.py:93-169 | the loop over the run's rows is the resolution step, or rolled back whole |
| Labels.NumberedLabelsDiffer | src/spine/memory/service.py:1090-1104 | labels of two different attempts from the second on differ |
| Labels.AttemptReads | src/spine/memory/service.py:1098-1103 | a qualified label is the front of the base without trailing spaces, the separator, the qualifier cut to half the limit, and from the second attempt on the number |
| Labels.ApprovalLabel | src/spine/memory/service.py:1085-1104 | terminates within the number of active labels plus three lookups, with the first unused label, within the limit of 64 |
| Labels.IsNumberedExactlyWhen | src/spine/memory/service.py:1090-1104 | reading the number that a label ends with decides whether it is a numbered label of any attempt |
| Labels.TwoExtraLookupsSuffice | src/spine/memory/service.py:1085-1104 | two extra lookups suffice unless the base and the first qualified label are both numbered labels |
| Labels.FoldedNeedsThree | src/spine/memory/service.py:1085-1104 | where both are, some set of active labels takes exactly three extra lookups |
| Labels.TwoExtraLookupsSufficeExactlyWhen | src/spine/memory/service.py:1085-1104 | two extra lookups suffice for every set of active labels if and only if the two are not both numbered labels |
| Labels.ThreeExtraLookupsHappen | src/spine/memory/service.py:1085-1104 | a base and a qualifier for which two extra lookups do not suffice |
| Corpus.SpreadOut | src/spine/learner/service.py:786-792 | the deque loop takes from the newest and the oldest end in turn |
| Corpus.SpreadTakesBothEnds | src/spine/learner/service.py:786-792 | the first k of a spread are the ceil(k/2) newest and floor(k/2) oldest gates |
| Corpus.OnePass | src/spine/learner/service.py:800-817 | a pass gives each thread whose next gate fits exactly one turn |
| Corpus.RoundRobin | src/spine/learner/service.py:794-818 | terminates within the cap, every state on the way fair, nothing that still fits left over, everything taken when everything fits |
| Balancing.GroupBy | src/spine/learner/service.py:764-778 | the dictionary of lists holds each key's items in order |
| Balancing.RefusalExactlyWhen | src/spine/learner/service.py:768-775 | refused if and only if an injection's rows lie in two threads or outnumber the cap |
| Balancing.BucketsPartition | src/spine/learner/service.py:764-778 | grouping loses nothing and repeats nothing |
| Balancing.NothingLost | src/spine/learner/service.py:764-792 | the queues hold every example exactly once |
| Balancing.WholeGates | src/spine/learner/service.py:803-811 | if one row of an injection is selected, all of its rows are |
| Balancing.BothEndsChosen | src/spine/learner/service.py:780-792 | each thread's chosen gates are its newest and oldest by time, half each |
| Balancing.BalancedCorpus | src/spine/learner/service.py:756-825 | the whole function: refusals, whole gates, fairness at every state, order, everything when within the cap, boundaries of the selected injections |
| BalancingEffects.SelectionOrder | src/spine/learner/service.py:819 | selected rows come by time, injection and event |
| BalancingEffects.GateOrder | src/spine/learner/service.py:776 | the rows of a gate come by time and event |
| BalancingEffects.HistoryReads | src/spine/learner/service.py:780-792 | the history of a thread holds exactly its gates, oldest first by newest row, then by injection |
| BalancingEffects.NewestIs | src/spine/learner/service.py:780-783 | a gate is as new as its newest row |
| BalancingEffects.ThreadsRead | src/spine/learner/service.py:777-797 | the queues are the texts of the rows' threads, ascending, a missing thread under its placeholder |
| BalancingEffects.KeptAre | src/spine/learner/service.py:820-823 | a boundary is kept if and only if a row of its injection is selected |
| BalancingEffects.RefusalNames | src/spine/learner/service.py:768-775 | a refusal names an injection in two threads, or one in one thread with more rows than the cap |
| Clusters.Component | src/spine/curation/diagnostics.py:359-366 | the stack loop terminates with exactly the nodes connected to the start |
| Clusters.FindClusters | src/spine/curation/diagnostics.py:352-372 | exactly the connected components of two or more nodes, each ascending, listed by first member |
| Clusters.ClusteringIsUnique | src/spine/curation/diagnostics.py:352-372 | there is only one such list |
| Clusters.SameGraphSameClusters | src/spine/curation/diagnostics.py:352-372 | order, direction and repetition of links and nodes do not matter |
| Renderer.ChainsArePerCharacter | src/spine/inject/renderer.py:68-81 | the chains of replacements equal escaping character by character |
| Renderer.EscapedIsSafe | src/spine/inject/renderer.py:68-81 | no raw angle bracket, and in attributes no raw quote, tab or line break |
| Renderer.UnescapeUndoes | src/spine/inject/renderer.py:68-81 | escaping is undone by unescaping, for any text |
| Renderer.RenderFinalBlock | src/spine/inject/renderer.py:18-39 | the loop builds the lines of the block in rank order |
| Renderer.BlockWrittenOut | src/spine/inject/renderer.py:6-39 | the block of no card and of one card, line by line |
| Renderer.RankOrder | src/spine/inject/renderer.py:42-49 | cards come by rank and then by memory |
| Renderer.DecodeUndoesRender | src/spine/inject/renderer.py:18-39 | a decoder recovers label, kind, time and body of every card in rank order, whatever text they hold |
| Renderer.SameBlockSameCards | src/spine/inject/renderer.py:18-39 | equal blocks show equal cards in the same order |
| Ulid.MintUlid | src/spine/ids.py:21-30 | the in-place loop writes the 26 base-32 digits of the value |
| Ulid.MintedReads | src/spine/ids.py:21-30 | a minted value holds the low 48 bits of the millisecond above the 80 random bits |
| Ulid.UlidRoundTrip | src/spine/ids.py:21-30 | every 128-bit value is read back, and the first character is 0 to 7 |
| Ulid.DigitsKeepOrder | src/spine/ids.py:21-30 | lexicographic order of the strings is numeric order of the values |
| Ulid.UlidsSortByTime | src/spine/ids.py:21-30 | a later millisecond sorts later whatever the random bits, as section "Sorting" of the ULID specification requires |
| Ulid.MintedIsAccepted | src/spine/ids.py:13-30 | what is minted is canonical and normalised to itself |
| Ulid.AcceptedExactlyWhen | src/spine/ids.py:10-18 | which texts are accepted, character by character, and what each character becomes |
| Ulid.NormalizedIsCanonicalExactlyWhen | src/spine/ids.py:10-18 | a normalised value is canonical if and only if the text held no Kelvin sign, and normalising twice is normalising once |

## Left out

- Rounding: floats, `Decimal` precision, 48-digit logarithms and the REAL column; arithmetic is exact, and log10 is any strictly increasing function on positive prices.
- What produces features, scores and token costs: embeddings, cosine and full-text search, keyword extraction, decays over time, tokenizing.
- `_fit_thread_weight`, `_fit_where_weight`, `_fit_tau` and `_fit_share`: one-dimensional searches after the descent; the objective reported here is the descent's own.
- The comparison of a replayed score with tau, and the replay statistics over a holdout.
- Retries, isolation levels, advisory locks, HTTP routers, request models, workers and migrations.
- Owner edits, imports and backfills in the lifecycle: an owner may set any status, so status order and the forest are claimed for the queue, splits, Symphony and injection steps.
- Validation of proposals' texts, keywords and token counts, and the reading of malformed stored JSON, which the source turns into state errors.
- The review cards shown with a queue item, duplicate search on creation, and the passive classification of seed batches.
- `restore`, which rebuilds a gate from recorded events.
- The fingerprint and the per-thread report of the balanced corpus beyond the number of gates taken.
- Prices, routes and listings of the model catalogue, and the resolver's cache.
- Decisions.CountersMatchEvents: says nothing of injections and removals, which one event can raise more than once.
- Preparing.PrepareOnce: takes the rows that the searches return as given, and does not write the thread stamp or the injection counters; the counters are part of the prepare step in `Decisions`.
- QueueService.Database.EnqueueCard: does not search for duplicates of the drafted memory.
- Clusters.FindClusters: takes links between listed nodes, as its caller builds them; on any other link the source raises a key error.
