# Kubeflow Trainer: a verified model of its controllers and admission webhooks

Kubeflow Trainer's controllers are state machines over a store of Kubernetes objects. This
project models four of its components in Dafny and proves what every run of them keeps. The
store, the persisted status and the lists that the Go code updates in place are fields of
classes; each loop is a method with invariants; each method is proved against a specification
function, and the laws below are proved about those functions over all inputs, all runs or all
histories.

The environment is nondeterministic. Every API call may fail, and a failed write may still have
reached the store. Clocks, random suffixes, search suggestions, plugin results, user edits,
trials finishing and live runtimes changing are parameters or events.

| part | files |
|---|---|
| OptimizationJob controller | `OptimizationTypes`, `Trials`, `BestTrial`, `Parameters`, `Suggestions`, `OptimizationController`, `OptimizationRuns`, `OptimizationProgress`, `OptimizationStaleness`, `OptimizationOutcome`, `OptimizationVerdict`, `OptimizationEffects`, `OptimizationSearch` |
| TrainJob controller | `Conditions`, `TrainJobController`, `TrainJobHistories`, `TrainJobEffects` |
| Runtime snapshot and template merge | `Snapshot`, `TemplateOrder`, `NodeOverlay`, `TemplateOverlay`, `RuntimeValidation`, `ClaimValidation` |
| TrainJob admission and upserts | `PatchTimes`, `DraGate`, `Upsert` |
| Shared | `Common`, `StringOrder` |

## The main results

- **Budget safety.** In every run of reconciles, with any pattern of API failures, interleaved
  with trials starting, finishing and being deleted and foreign TrainJobs coming and going, the
  job owns at most NumTrials trials, at most ParallelTrials of them are active, and each is
  counted exactly once. With stale listings both budgets are exceeded by at most what a listing
  can leave unaccounted for, and that bound is reached.
- **Termination.** Over every run, `2 * (NumTrials - total) + active` drops by one with every
  creation and every finish and rises by two with every deleted trial, and nothing else moves it.
  So creations and finishes number at most `2 * NumTrials` plus two for each deletion; a reconcile
  of an idle job whose calls succeed ends the job or, if a drawn name is free, spawns, and only as
  many such reconciles can leave it running as trials are left to create, plus one for each
  deletion.
- **Verdicts.** Completion, failure and the failure reason are characterised exactly by the trials
  in the store.
- **Terminal states.** Complete and Failed exclude each other and absorb, however stale the
  listings; Complete is earned, and the stored result is then the optimum over all trials; the
  stored result never gets worse while valid trials stay and keep their final value.
- **Effects.** A reconcile that goes on fills every free parallel slot, running trials or not;
  what it stores, what it does about the search service and when it reports an error are stated
  exactly. The same is done for the TrainJob controller: which conditions a saved reconcile takes
  from the runtime, how many objects it sends, when it reports an error.
- **What the search is told.** Over every run, each trial's variables are the template's and those
  of a suggestion fetched for that very trial, its history entry repeats that suggestion, and so
  does the stored result.
- **The best-trial fold** is, in numbers, the optimum of a three-level order and independent of the listing
  order, exactly for the two directions the API admits.
- **Deadline exactness** over suspend and resume histories, permanence of a stored deadline
  failure, and failure within two requeues, with status patches failing at will as long as no
  resumption is pending; a lost patch with one pending moves the start to the next reconcile.
- **Snapshot stability and isolation** over runs in which live runtimes change at will.
- **Template order, node overlay, claim closure.** Patches cannot reorder the template's jobs;
  the typed template and the apply configuration agree after the overlay; overlaying twice is
  overlaying once; claim references stay closed, and which patched templates are closed after the
  overlay is characterised exactly.
- **Patch times** depend on the content history alone; **the DRA gate** holds over histories with
  the gate going on and off; **upserts** refine map update.

## What the proofs found

Each of these is a lemma with the exact condition.

- `ExtractBestResult` depends on the order of the trials for any direction other than Maximize
  and Minimize (the first trial wins), while `BuildSuggestionRequest` treats such a direction as
  minimize. See `BestTrial.OrderIndependence`.
- An ActiveDeadlineSeconds above 9223372036 overflows the 64-bit duration, although the API only
  asks for at least 1; one second beyond that, the job expires at once. See
  `TrainJobHistories.DeadlineWrapsBeyondFit` and `OverflowExpiresAtOnce`.
- When every drawn trial name is already taken, a reconcile spawns nothing and reports no error.
  See `OptimizationProgress.IdleReconcileProgresses`, and
  `OptimizationVerdict.AllNamesTaken` for a job, a namespace and a reconcile that show it.
- A reconcile that finds the runtime unregistered overwrites the DeadlineExceeded reason. See
  `TrainJobHistories.DeadlineNeedsRegistration`.
- A name added by a patch ranks 0, so it lands ahead of every template job but the first. See
  `TemplateOrder.AddedJobsGoFirst`.
- The port match is not transitive: an upsert keeps ports pairwise distinct exactly when the new
  port matches at most one of them. See `Upsert.PortsStayDistinct`.
- A template that sets a prefixed variable of its own breaks the parameter round trip; two values
  for one parameter name break the report. See `Parameters.RoundTrip` and `ReportedParameters`.
- Different OptimizationJobs of one namespace can share one search service: two names longer than
  46 characters that agree on the first 46, or a shorter name and the same name filled up with
  dashes to 46 characters and continued. Names of at most 46 characters never share. See
  `Suggestions.ServiceNames`, `LongNamesCollide` and `ShortNameCollides`.
- Acceptance of a runtime does not carry over to patched templates: a patch can put a claim on a
  container without a Pod-level claim. See `RuntimeValidation.PatchesCanDangle`; the JobSet plugin
  rejects exactly those templates at admission, see `ClaimValidation.PatchedTemplateIsAdmitted`.

Where code and documentation disagree the model follows the code:

- pkg/apis/trainer/v1alpha1/trainjob_types.go:131-133 says the deadline restarts on resume. The
  code restarts it only if a reconcile saved the suspension; a suspension that no saved reconcile
  saw is counted as active time. See `TrainJobHistories.UnseenSuspensionCounts` for every such
  run, and `LostSuspensionMarks` for one in which the job is marked because of it.
- pkg/apis/trainer/v1alpha1/trainjob_types.go:339-343 says the webhook sets a patch's time on each
  create or update. The code keeps a Time the client gives on first admission, and keeps the
  stored Time while the content stays the same.

## Assumptions

- OptimizationJob: listings are fresh where a row does not say otherwise (the source has a TODO
  about stale caches at line 277 of its controller), the spec is fixed, counts fit in 32 bits, only this controller creates TrainJobs
  owned by the job, a TrainJob keeps its name, owner, creation time and variables and stays
  finished once finished. The Deployment and the Service under the job's service name are touched
  for this job only; another job that shares the name, as `Suggestions.ServiceNames` allows, would
  apply and delete them too. Finite metric values are ordered as reals.
- TrainJob: the status plugin may return anything but carries the Suspended condition over and
  does not change its input. Stored condition times are whole seconds, so exactness is at that
  resolution.
- Snapshot: ConfigMap reads are fresh, nobody else writes the ConfigMaps, decoding undoes
  encoding, and a UID belongs to one TrainJob with an immutable name and reference.
- Template merge: strategic merge drops and repeats no name, overrides maps per key and merges
  claims by name, in any order.
- Admission: stored lists of patches have unique managers, as the list's map key demands.

## Model

| member | source | states |
|---|---|---|
| Conditions.SetThenFind | pkg/controller/trainjob_controller.go:253-263 | meta.SetStatusCondition as the controllers use it: the written entry is read back, its transition time moves only when the status flips, no other type is touched |
| Conditions.WrittenCondition | pkg/controller/trainjob_controller.go:253-263 | the same field by field: status, reason and message are the given ones, the time is kept iff the status is; it holds iff the status is True |
| Conditions.SetKeepsOnePerKind | pkg/controller/trainjob_controller.go:253-263 | one entry per condition type is an invariant |
| Conditions.SetTwice | pkg/controller/trainjob_controller.go:253-263 | setting the same condition again is a no-op at any later clock |
| Trials.Classify | pkg/controller/optimizationjob_controller.go:156-182 | the counting loop yields the tally of the owned trials |
| Trials.CountersAreExact | pkg/controller/optimizationjob_controller.go:139-182 | against a fresh listing each counter equals the number of trials of that kind owned by UID in the store |
| Trials.PickPartition | pkg/controller/optimizationjob_controller.go:156-182 | active, succeeded and failed add up to the total, for any list |
| Trials.KindMeaning | pkg/controller/optimizationjob_controller.go:156-181 | active, valid, unmeasured and broken told by the trial's own conditions and last metric |
| Trials.FirstUnmeasured | pkg/controller/optimizationjob_controller.go:168-175 | the trial whose metric is complained about is the first such in the listing |
| BestTrial.GetFinalObjectiveMetric | pkg/util/optimizationjob/optimizationjob.go:73-91 | the backward scan finds the final objective metric |
| BestTrial.FinalObjectiveMeaning | pkg/util/optimizationjob/optimizationjob.go:73-91 | a metric is reported iff it is the last of its name and finite; it is missing iff no metric has the name |
| BestTrial.ExtractBestResult | pkg/util/optimizationjob/optimizationjob.go:93-162 | the loop returns the fold's best trial with its sorted parameters, nothing without an objective or a metric |
| BestTrial.ExtractedIsBest | pkg/util/optimizationjob/optimizationjob.go:93-162 | nothing without a named objective or a number; else the name of a trial no worse than any other, and exactly its prefixed variables sorted by name |
| BestTrial.BestIsOptimum | pkg/util/optimizationjob/optimizationjob.go:103-129 | the fold returns a trial that none beats by metric in the objective's direction, earlier creation, smaller name; none iff no trial has the metric |
| BestTrial.BestInNumbers | pkg/util/optimizationjob/optimizationjob.go:103-129 | in numbers: none iff no trial reports one; else a trial whose number is at least, or for Minimize at most, every other's, then the earlier creation, then no smaller name |
| BestTrial.NoWorseMeaning | pkg/util/optimizationjob/optimizationjob.go:112-128 | the loop's comparison is that numeric order |
| BestTrial.OptimumIsUnique | pkg/util/optimizationjob/optimizationjob.go:112-121 | with distinct names the optimum is unique |
| BestTrial.BestIgnoresOrder | pkg/util/optimizationjob/optimizationjob.go:103-129 | any permutation of trials with distinct names gives the same best trial |
| BestTrial.OrderIndependence | pkg/util/optimizationjob/optimizationjob.go:93-161 | the whole result is the same for every permutation if and only if the direction is Maximize or Minimize |
| BestTrial.OtherDirectionDependsOnOrder | pkg/util/optimizationjob/optimizationjob.go:122-128 | for any other direction two trials show the dependence |
| Parameters.AppendParameters | pkg/controller/optimizationjob_controller.go:420-430 | the template's variables are followed by one prefixed variable per parameter |
| Parameters.TrialVariables | pkg/controller/optimizationjob_controller.go:420-430 | the i-th parameter becomes the variable KUBEFLOW_TRAINER_OPT_ followed by its name, with its value, behind the template's own |
| Parameters.ReadAssignments | pkg/util/optimizationjob/optimizationjob.go:261-275 | the loop decodes the prefixed variables, in order |
| Parameters.DecodedVariables | pkg/util/optimizationjob/optimizationjob.go:261-275 | an assignment is read back iff that variable is among the trial's |
| Parameters.RoundTrip | pkg/controller/optimizationjob_controller.go:404-438 | the assignments encoded into a trial decode unchanged and in order if and only if the template has no prefixed variable |
| Parameters.ReportParameters | pkg/util/optimizationjob/optimizationjob.go:139-159 | collecting, sorting and listing yields the specification's sorted list |
| Parameters.ReportedParameters | pkg/util/optimizationjob/optimizationjob.go:139-159 | the report is sorted by name, and is a permutation of the trial's assignments if and only if no name has two values |
| Parameters.ReportedValueIsLast | pkg/util/optimizationjob/optimizationjob.go:139-159 | names are reported as often as they occur, each with the value of its last occurrence |
| Parameters.ReportedParametersDistinct | pkg/util/optimizationjob/optimizationjob.go:139-159 | with distinct names the report is the assignments in strictly ascending order |
| StringOrder.LessMeaning | pkg/util/optimizationjob/optimizationjob.go:118 | the name order: a proper prefix, or the smaller character at the first difference |
| Suggestions.BuildSuggestionRequest | pkg/util/optimizationjob/optimizationjob.go:164-301 | an error iff the algorithm is unsupported or a finished trial lacks its metric; otherwise one history entry per trial with its assignments and final metric or running state |
| Suggestions.BuildableMeaning | pkg/util/optimizationjob/optimizationjob.go:164-168 | when a request can be built, told by the spec and the trials' own conditions and metrics |
| Suggestions.RecordsMeaning | pkg/util/optimizationjob/optimizationjob.go:248-298 | what a history entry says, told by the trial's own conditions, last metric and variables |
| Suggestions.TrialNames | pkg/util/optimizationjob/optimizationjob.go:60-68 | at most 63 characters, and two trials of a job share a name iff they share the suffix |
| Suggestions.NameShapes | pkg/util/optimizationjob/optimizationjob.go:35-68 | both generated names spelt out: the name, cut to 48 or 46 characters without trailing dashes, the separator or suffix, and the random part |
| Suggestions.ServiceNames | pkg/util/optimizationjob/optimizationjob.go:35-43 | at most 63 characters; two jobs share a service name iff the names are equal, or both exceed 46 characters and agree on the first 46, or one exceeds 46 and up to there is the other, which ends in no dash, followed by dashes |
| Suggestions.LongNamesCollide | pkg/util/optimizationjob/optimizationjob.go:39-41 | different long names with the same first 46 characters share a service |
| Suggestions.ShortNameCollides | pkg/util/optimizationjob/optimizationjob.go:39-41 | so does a short name with its continuation after dashes up to character 46 |
| Suggestions.TrimRightMeaning | pkg/util/optimizationjob/optimizationjob.go:60-68 | only dashes are cut, and all trailing ones |
| OptimizationController.OptimizationJobReconciler.Reconcile | pkg/controller/optimizationjob_controller.go:111-285 | one reconcile, deferred status patch included, takes the store to the specified next state with the specified error for every combination of call outcomes |
| OptimizationController.OptimizationJobReconciler.Judge | pkg/controller/optimizationjob_controller.go:184-243 | best-result tracking and the end-of-job decision |
| OptimizationController.OptimizationJobReconciler.SpawnWithinBudget | pkg/controller/optimizationjob_controller.go:245-282 | service, Created condition and spawn count |
| OptimizationController.OptimizationJobReconciler.CreateTrainJobs | pkg/controller/optimizationjob_controller.go:349-402 | the creation loop, with names already taken skipped and other failures collected |
| OptimizationController.OptimizationJobReconciler.ConstructTrainJob | pkg/controller/optimizationjob_controller.go:404-438 | the new trial: name, owner, template variables then parameters |
| OptimizationController.OptimizationJobReconciler.CreateAlgorithmServiceIfNecessary | pkg/controller/optimizationjob_controller.go:287-325 | store steps and readiness of the search service |
| OptimizationController.OptimizationJobReconciler.CleanupAlgorithmService | pkg/controller/optimizationjob_controller.go:327-347 | store steps of the cleanup |
| OptimizationRuns.TallyIsExact | pkg/controller/optimizationjob_controller.go:156-182 | the tally of a fresh listing equals the store's counts, and they add up to the trials owned by UID |
| OptimizationRuns.ReconcileSpawns | pkg/controller/optimizationjob_controller.go:264-282 | a reconcile leaves every existing TrainJob alone and adds at most the budget of new, active, owned trials |
| OptimizationRuns.ReconcileSpawnsListed | pkg/controller/optimizationjob_controller.go:264-282 | on any listing, a reconcile leaves every existing TrainJob alone and adds at most what that listing leaves of the budgets |
| OptimizationRuns.InitialIsWithinBudget | pkg/controller/optimizationjob_controller.go:264-275 | a namespace without trials of the job is within budget, so every run from there is covered |
| OptimizationRuns.BudgetSafety | pkg/controller/optimizationjob_controller.go:111-285 | over every run: trials at most NumTrials, active at most ParallelTrials, and active + succeeded + failed equals the total |
| OptimizationStaleness.StaleReconcile | pkg/controller/optimizationjob_controller.go:264-282 | on any listing, totals and active trials stay, or are within the budgets plus what the listing does not account for |
| OptimizationStaleness.BudgetSafetyWithLag | pkg/controller/optimizationjob_controller.go:277-282 | over every run whose listings miss at most lag trials, both budgets are exceeded by at most lag |
| OptimizationStaleness.FreshLagsByNothing | pkg/controller/optimizationjob_controller.go:139-182 | a fresh listing misses nothing |
| OptimizationStaleness.StaleListingOverspawns | pkg/controller/optimizationjob_controller.go:277-282 | the bound is reached: on an empty listing a job for one trial adds a trial to a store however full |
| OptimizationProgress.StepMeasure | pkg/controller/optimizationjob_controller.go:264-282 | for any listing, each creation and each finish takes exactly one off 2*(NumTrials - total) + active, each deleted trial gives two back, and nothing else moves it; the number of trials moves by creations less deletions |
| OptimizationProgress.BoundedWork | pkg/controller/optimizationjob_controller.go:264-282 | in every run creations and finishes number at most the starting measure plus two per deleted trial, and creations at most the trials left plus the deleted ones |
| OptimizationProgress.RequestAlwaysBuilds | pkg/controller/optimizationjob_controller.go:196-243 | whatever the listing, a reconcile that reaches the request can build it |
| OptimizationProgress.IdleReconcileProgresses | pkg/controller/optimizationjob_controller.go:196-282 | an unfinished idle job whose calls succeed ends, or has budget and spawns if and only if one of the drawn names is free |
| OptimizationProgress.IdleRunsEnd | pkg/controller/optimizationjob_controller.go:196-282 | from any state within budget, at most as many idle successful reconciles that draw a free name can leave the job running as trials are left to create plus trials deleted |
| OptimizationOutcome.TerminalAbsorbs | pkg/controller/optimizationjob_controller.go:191-194 | after Complete or Failed is stored, no run, on whatever listings, adds a trial, changes a condition or brings the service back |
| OptimizationOutcome.TerminalReconcile | pkg/controller/optimizationjob_controller.go:191-194 | what the reconciler itself does then, on any listing: no trial, no condition, and neither Deployment nor Service applied |
| OptimizationOutcome.TerminalCleansUp | pkg/controller/optimizationjob_controller.go:327-347 | once the deletions of a terminal reconcile go through there is neither Deployment nor Service, now and after any later run, on whatever listings, as long as nobody else applies them |
| OptimizationOutcome.CleanupIsExact | pkg/controller/optimizationjob_controller.go:327-347 | what a terminal reconcile does to Deployment and Service for every outcome of the two deletions |
| OptimizationOutcome.NeverBoth | pkg/controller/optimizationjob_controller.go:191-243 | Complete and Failed are never both true, whatever events happen |
| OptimizationOutcome.CompleteIsEarned | pkg/controller/optimizationjob_controller.go:221-231 | the reconcile that sets Complete saw at least NumTrials trials, all succeeded with a valid metric |
| OptimizationOutcome.TrackedIsOptimum | pkg/controller/optimizationjob_controller.go:184-189 | the tracked result is the optimum over the valid trials of the store, and is kept when there is none |
| OptimizationOutcome.BestNeverWorse | pkg/controller/optimizationjob_controller.go:184-189 | over any run in which valid trials stay and keep their final value, whatever else happens to them and to other trials, the stored result never gets worse in the tie-break order |
| OptimizationOutcome.CompleteIsOptimal | pkg/controller/optimizationjob_controller.go:184-231 | in every state of such a run, Complete means NumTrials valid trials, and the stored result names one that in numbers is no worse than any owned trial |
| OptimizationVerdict.VerdictIsExact | pkg/controller/optimizationjob_controller.go:191-243 | told by the store alone: an unfinished job completes iff no trial is broken, none active and NumTrials exist; it fails iff a trial is broken or, with work left, the algorithm is unsupported; and which reason it gets either way |
| OptimizationVerdict.ReasonExplains | pkg/controller/optimizationjob_controller.go:196-208 | the metric reason is Missing iff the trial reported no metric of that name, else Invalid |
| OptimizationVerdict.AllNamesTaken | pkg/controller/optimizationjob_controller.go:384-388 | a job, a namespace and a reconcile whose calls all succeed, and which spawns nothing, ends nothing and reports no error |
| OptimizationEffects.GoesOnMeaning | pkg/controller/optimizationjob_controller.go:196-243 | an unfinished job goes on iff no trial is broken, work is left or running, and the algorithm is supported |
| OptimizationEffects.SpawnsExactly | pkg/controller/optimizationjob_controller.go:264-282 | a reconcile that goes on and whose calls succeed adds a trial under every free name it draws, as many as both budgets leave, also while trials are running, without error |
| OptimizationEffects.BudgetMeaning | pkg/controller/optimizationjob_controller.go:270-275 | that number is the free parallel slots, but no more than trials are left, and never negative |
| OptimizationEffects.StoredResultIsOptimum | pkg/controller/optimizationjob_controller.go:184-189 | after every reconcile whose patch goes through the stored result is the optimum over the valid trials |
| OptimizationEffects.ServiceComesFirst | pkg/controller/optimizationjob_controller.go:245-262 | Service after Deployment; Created once the Deployment is available; nothing spawned and no condition set before |
| OptimizationEffects.EndingTouchesStatusOnly | pkg/controller/optimizationjob_controller.go:196-243 | a reconcile that ends the job touches neither trials nor search service |
| OptimizationEffects.ErrorIsExact | pkg/controller/optimizationjob_controller.go:111-285 | an error is reported iff a call the reconcile made has failed, call by call |
| OptimizationEffects.TooFewSuggestions | pkg/controller/optimizationjob_controller.go:368-370 | too few suggestions create nothing |
| OptimizationSearch.CreatedCarry | pkg/controller/optimizationjob_controller.go:375-395 | every trial a reconcile adds has the name and time drawn for one of the fetched suggestions and the variables of that suggestion behind the template's; it decodes to it iff the template has no prefixed variable |
| OptimizationSearch.HistoryRepeatsSuggestions | pkg/util/optimizationjob/optimizationjob.go:248-298 | over every run, on whatever listings, each owned trial goes back to a suggestion a reconcile of that run fetched for that name: its variables are the template's and the suggestion's, and its history entry repeats the suggestion iff the template has no prefixed variable |
| OptimizationSearch.ResultRepeatsSuggestion | pkg/util/optimizationjob/optimizationjob.go:135-161 | over every run in which valid trials keep their value, the stored result names a trial drawn for a suggestion and lists that suggestion sorted by name |
| TrainJobController.TrainJobReconciler.Reconcile | pkg/controller/trainjob_controller.go:85-140 | one reconcile takes the stored status and the applied objects to the specified next state, with the specified delay and error |
| TrainJobController.TrainJobReconciler.ReconcileObjects | pkg/controller/trainjob_controller.go:142-170 | objects are applied up to the first failure, none once finished; deletions run regardless |
| TrainJobController.TrainJobReconciler.ReconcileDeadline | pkg/controller/trainjob_controller.go:172-211 | the mark and the delay, with 64-bit wrap-around and saturation |
| TrainJobController.TrainJobReconciler.SetSuspendedCondition | pkg/controller/trainjob_controller.go:233-254 | the Suspended condition's transitions |
| TrainJobController.TrainJobReconciler.SetFailedCondition | pkg/controller/trainjob_controller.go:256-264 | Failed is set with the given reason and message |
| TrainJobController.TrainJobReconciler.SetTrainJobStatus | pkg/controller/trainjob_controller.go:266-283 | the plugin's status replaces everything but a recorded deadline failure |
| TrainJobHistories.SuspendedComputed | pkg/controller/trainjob_controller.go:126-128 | what Suspended becomes for any plugin result, and that the deadline step leaves it alone |
| TrainJobHistories.HistoryIsTold | pkg/controller/trainjob_controller.go:233-254 | in every run the stored Suspended condition tells whether and when a saved reconcile last saw a suspension or a resumption |
| TrainJobHistories.DeadlineIsExact | pkg/controller/trainjob_controller.go:172-202 | after any suspend/resume history a reconcile marks DeadlineExceeded iff the job is not finished, a deadline is set, the job is not suspended, and more than that many seconds passed since the active period began, which must not be the zero time |
| TrainJobHistories.ActiveSinceIsUnique | pkg/controller/trainjob_controller.go:176-180 | the history determines the start of the active period |
| TrainJobHistories.NoSuspensionCounted | pkg/controller/trainjob_controller.go:176-184 | no recorded suspension falls inside the counted interval |
| TrainJobHistories.UnseenSuspensionCounts | pkg/controller/trainjob_controller.go:172-180 | a suspension that begins and ends with no saved reconcile in between leaves the condition, the start and the verdict as they were before it |
| TrainJobHistories.LostSuspensionMarks | pkg/controller/trainjob_controller.go:172-191 | a concrete run: a job suspended from second 10 on and just resumed is marked at second 100 for a 60-second deadline iff the patch that recorded the suspension was lost |
| TrainJobHistories.DeadlineWrapsBeyondFit | pkg/controller/trainjob_controller.go:184-186 | the 64-bit comparison is right at every instant if and only if the deadline fits |
| TrainJobHistories.OverflowExpiresAtOnce | pkg/controller/trainjob_controller.go:184-186 | a deadline one second too large expires at its start |
| TrainJobHistories.DeadlineStays | pkg/controller/trainjob_controller.go:85-170 | a deadline failure survives any plugin status or error; nothing is applied or scheduled |
| TrainJobHistories.DeadlineIsPermanent | pkg/controller/trainjob_controller.go:266-283 | the same over every run with the runtime registered |
| TrainJobHistories.DeadlineNeedsRegistration | pkg/controller/trainjob_controller.go:103-108 | it survives a saved reconcile if and only if the runtime is registered |
| TrainJobHistories.RequeueIsPositive | pkg/controller/trainjob_controller.go:181-210 | a delay is scheduled iff the deadline is watched and not passed; it is positive and ends at the deadline, or one second after it when the reconcile lands on it, or is the longest duration when the deadline is out of its range |
| TrainJobHistories.StartKept | pkg/controller/trainjob_controller.go:176-180 | between reconciles of an unsuspended job the start only loses its fraction of a second and no resumption becomes pending, whether or not patches are lost, unless the lost patch would record a resumption |
| TrainJobHistories.StartMoves | pkg/controller/trainjob_controller.go:233-254 | in that remaining case the resumption stays pending and the start moves to the next reconcile's clock |
| TrainJobHistories.PendingResumption | pkg/controller/trainjob_controller.go:233-254 | over any run of lost patches with a resumption pending, the start is the clock of the reconcile that looks |
| TrainJobHistories.FailedWithinTwoRequeues | pkg/controller/trainjob_controller.go:181-210 | with timers firing on or after their due time the job is marked within two requeues, by deadline plus one second when they are exact; patches may be lost except one that would record a resumption |
| TrainJobHistories.MarkIsStored | pkg/controller/trainjob_controller.go:130-134 | a mark whose patch goes through is a stored deadline failure |
| TrainJobEffects.ManagedByDecides | pkg/controller/trainjob_controller.go:94-97 | a TrainJob that names another controller is left alone; any other that is found is acted on |
| TrainJobEffects.PluginIsAdopted | pkg/controller/trainjob_controller.go:266-283 | a status the runtime returns is the status the step leaves, all but a stored deadline failure |
| TrainJobEffects.StoredStatusIsThePlugins | pkg/controller/trainjob_controller.go:121-134 | what a saved reconcile stores is the runtime's status in every condition but Suspended and Failed, and in Failed too unless a deadline has passed |
| TrainJobEffects.CompletionIsStored | pkg/controller/trainjob_controller.go:121-134 | the stored Complete condition is the runtime's |
| TrainJobEffects.UnsupportedRuntimeFails | pkg/controller/trainjob_controller.go:103-107 | an unregistered runtime fails the TrainJob with its own reason and an error; nothing is sent or scheduled |
| TrainJobEffects.ObjectsAreApplied | pkg/controller/trainjob_controller.go:142-155 | objects are sent one after the other, all unless one fails, none behind one that failed, none once finished |
| TrainJobEffects.ErrorIsExact | pkg/controller/trainjob_controller.go:85-140 | an error is reported iff the runtime is unregistered or a call the reconcile made has failed, call by call |
| Snapshot.RuntimeResolver.GetRuntimeSnapshot | pkg/runtime/core/snapshot.go:41-95 | a runtime is returned iff the ConfigMap is owned by this UID, has the key, decodes, and matches name, kind and group; not-found iff the key is absent |
| Snapshot.RuntimeResolver.CreateRuntimeSnapshot | pkg/runtime/core/snapshot.go:100-136 | what is written, when, and that the runtime gets its kind set in place |
| Snapshot.RuntimeResolver.NewObjects | pkg/runtime/core/trainingruntime.go:90-110 | snapshot first, live runtime and freezing only when none exists; the cluster-scoped twin is the other scope |
| Snapshot.RuntimeResolver.ValidateObjects | pkg/runtime/core/clustertrainingruntime.go:99-123 | validation resolves the same runtime and writes nothing, for both scopes |
| Snapshot.BuildFreezes | pkg/runtime/core/snapshot.go:97-136 | what create wrote passes every check of get, and is the live runtime of that moment |
| Snapshot.WrittenIsFrozen | pkg/runtime/core/snapshot.go:131-133 | also when the apply reported an error but reached the store |
| Snapshot.FirstResolution | pkg/runtime/core/trainingruntime.go:90-110 | with no ConfigMap of that name a build resolves iff its calls succeed and the live runtime of that scope and namespace exists, to that runtime with its kind, and stores it for this UID; a validation resolves to the same live runtime |
| Snapshot.StoredResolution | pkg/runtime/core/snapshot.go:41-95 | with one, both resolve exactly to the runtime it holds if it is this UID's, has the key, decodes and matches the reference, and else to an error, never to the live runtime |
| Snapshot.SnapshotIsStable | pkg/runtime/core/trainingruntime.go:90-115 | after a build resolved, every later build and validation of that UID resolves the same runtime, whatever happened to the live one in between |
| Snapshot.SnapshotIsIsolated | pkg/runtime/core/snapshot.go:52-55 | a TrainJob of the same name with another UID gets an error and leaves the store alone |
| Snapshot.SnapshotStaysIsolated | pkg/runtime/core/snapshot.go:52-55 | the same after any run in which the first TrainJob lives |
| Snapshot.OtherNamesUnaffected | pkg/runtime/core/snapshot.go:43-46 | a TrainJob under any other name is not affected |
| TemplateOrder.MergeRuntimePatches | pkg/runtime/core/trainingruntime.go:255-294 | the patch loop followed by the stable sort; an error of any merge ends it |
| TemplateOrder.PatchesMergeInOrder | pkg/runtime/core/trainingruntime.go:262-285 | the patches that have a JobSet spec are merged one after the other, the first one first, and the first failure fails the whole |
| TemplateOrder.SortIsStable | pkg/runtime/core/trainingruntime.go:287-291 | jobs of equal rank keep their order |
| TemplateOrder.SortSorts | pkg/runtime/core/trainingruntime.go:287-291 | the result is ascending by template index |
| TemplateOrder.SortPermutes | pkg/runtime/core/trainingruntime.go:287-291 | the sort is a permutation |
| TemplateOrder.TemplateOrderIsRestored | pkg/runtime/core/trainingruntime.go:255-294 | for any sequence of merges, whatever names they add, the template's own jobs come out in the template's order |
| TemplateOrder.OrderWithoutAdditions | pkg/runtime/core/trainingruntime.go:255-294 | when no name is added the whole name sequence is the template's |
| TemplateOrder.AddedJobsGoFirst | pkg/runtime/core/trainingruntime.go:287-291 | an added job precedes every template job but the first |
| NodeOverlay.ToApplyConfig | pkg/runtime/core/trainingruntime.go:415-431 | the conversion loop |
| NodeOverlay.ApplyRoundTrip | pkg/runtime/core/trainingruntime.go:415-431 | the conversion loses no limit, request or claim |
| NodeOverlay.ApplyTrainerPodResourceClaims | pkg/runtime/core/trainingruntime.go:352-368 | the upsert loop, a no-op with the gate off |
| NodeOverlay.PodClaimsResolve | pkg/runtime/core/trainingruntime.go:352-368 | a name resolves to a template the TrainJob gives for it, else as before; no name is lost |
| NodeOverlay.MergeTrainerNodeResources | pkg/runtime/core/trainingruntime.go:374-412 | the two sides handed to the merge: overridden runtime claims dropped, the rest kept with their requests |
| TemplateOverlay.MergedClaims | pkg/util/trainingruntime/trainingruntime.go:47-65 | the merged claims are the runtime's not overridden ones and the TrainJob's, counted |
| TemplateOverlay.MergeTwice | pkg/util/trainingruntime/trainingruntime.go:47-65 | merging the same overlay into its own result changes nothing but claim order |
| TemplateOverlay.OverlayOne | pkg/runtime/core/trainingruntime.go:218-242 | which jobs are overlaid, and that only the first node container is |
| TemplateOverlay.NodeResourcesReach | pkg/runtime/core/trainingruntime.go:218-238 | the first node container of a trainer job, or of the MPI launcher run as a node, ends with its limits overridden per key by the TrainJob's limits, and its requests by the requests, in both representations |
| TemplateOverlay.OverlayTouchesOnly | pkg/runtime/core/trainingruntime.go:218-242 | nothing else changes, and nothing at all on other jobs or without a trainer section |
| TemplateOverlay.OverlayFails | pkg/runtime/core/trainingruntime.go:228-234 | the overlay fails iff it has something to give to a node container and that merge fails |
| TemplateOverlay.Template.Overlay | pkg/runtime/core/trainingruntime.go:203-250 | the loop over the replicated jobs overlays every job, keeps template and apply configuration in agreement even when it stops on an error, keeps claims closed, and closes exactly the jobs whose claims are covered |
| TemplateOverlay.OverlayKeepsAgreement | pkg/runtime/core/trainingruntime.go:230-238 | resources of every container are equal in both representations |
| TemplateOverlay.ClaimsStayClosed | pkg/runtime/core/trainingruntime.go:218-242 | if every container and init container claim names a Pod-level claim before, so it does after |
| TemplateOverlay.ClosedExactly | pkg/runtime/core/trainingruntime.go:218-242 | after the overlay references are closed iff every container and init container claim named a Pod-level claim or, on a selected job with the gate on, one of the TrainJob's |
| TemplateOverlay.NodeClaimOrigin | pkg/runtime/core/trainingruntime.go:374-412 | on the node container the claims the TrainJob makes come back without a request, and exactly the other ones stay |
| TemplateOverlay.TrainJobClaimsWin | pkg/runtime/core/trainingruntime.go:352-412 | a claim of the TrainJob is on the node container, never with the runtime's request, and resolves to the TrainJob's template |
| TemplateOverlay.OverlayIsIdempotent | pkg/runtime/core/trainingruntime.go:203-250 | a second overlay changes no limit, request, claim or Pod claim |
| TemplateOverlay.RebuildIsIdempotent | pkg/runtime/core/trainingruntime.go:182-250 | nor does a second build that starts from the template the first one wrote through |
| RuntimeValidation.ValidateReplicatedJobs | pkg/webhooks/trainingruntime_webhook.go:77-139 | exactly the violations are reported, each once; none iff claims are closed, replicas positive and required containers present |
| RuntimeValidation.AcceptableMeaning | pkg/webhooks/trainingruntime_webhook.go:84-136 | acceptance spelt out: closed claims, a replica, and the container each ancestor label requires |
| RuntimeValidation.AcceptedRuntimeIsUsable | pkg/webhooks/trainingruntime_webhook.go:84-105 | with an accepted runtime and no patches to the JobSet spec every overlaid template is closed, and a trainer job has a node container |
| RuntimeValidation.PatchedTemplateIsClosed | pkg/runtime/core/trainingruntime.go:179-242 | whatever patches made of a job, its overlaid template is closed iff every claim of the patched job is declared by its Pod or, where they reach it, by the TrainJob |
| RuntimeValidation.PatchesCanDangle | pkg/runtime/core/trainingruntime.go:179-242 | a job that acceptance lets through and a patch to it after which the template is closed only if the TrainJob claims the name itself |
| ClaimValidation.ValidateMergedClaims | pkg/runtime/framework/plugins/jobset/jobset.go:216-241 | the JobSet plugin's check at admission reports exactly the dangling references of the merged template, each once |
| ClaimValidation.PatchedTemplateIsAdmitted | pkg/runtime/framework/plugins/jobset/jobset.go:216-241 | it reports none iff every claim of the patched job is declared by its Pod or by the TrainJob |
| PatchTimes.TrainJob.Default | pkg/webhooks/trainjob_webhook.go:47-94 | the in-place loops give each patch its specified time, on create and on update |
| PatchTimes.ByManager | pkg/webhooks/trainjob_webhook.go:75-78 | the map holds each manager's last patch |
| PatchTimes.EveryPatchHasATime | pkg/webhooks/trainjob_webhook.go:66-92 | over any history every stored patch has a Time |
| PatchTimes.TimeIsTheOriginTime | pkg/webhooks/trainjob_webhook.go:79-92 | the stored Time is the clock of the last write that changed the content, or the first-admission Time |
| PatchTimes.OriginExists | pkg/webhooks/trainjob_webhook.go:79-92 | each present manager has exactly one such write |
| PatchTimes.ClientTimesAreIgnored | pkg/webhooks/trainjob_webhook.go:79-92 | two histories that differ only in Times sent for present managers store the same objects |
| PatchTimes.ResubmitIsNoOp | pkg/webhooks/trainjob_webhook.go:79-92 | resubmitting the stored object changes nothing, at any clock |
| PatchTimes.DuplicatesDoNotResubmit | pkg/webhooks/trainjob_webhook.go:75-78 | with two patches of one manager it would |
| DraGate.UsesDRA | pkg/webhooks/trainjob_webhook.go:154-185 | true iff some DRA field is set |
| DraGate.UsesDraMeaning | pkg/webhooks/trainjob_webhook.go:154-185 | using DRA is having a claim in the trainer section or in a Pod, container or init container of any patch |
| DraGate.DraFieldPaths | pkg/webhooks/trainjob_webhook.go:188-236 | exactly the DRA fields that are set, each once; empty iff UsesDRA is false |
| DraGate.ValidateCreate | pkg/webhooks/trainjob_webhook.go:112-127 | admitted iff the gate allows it and the runtime accepts; a gate rejection always carries an error and names exactly the set fields |
| DraGate.ValidateUpdate | pkg/webhooks/trainjob_webhook.go:129-147 | the same, rejecting only an update that introduces DRA |
| DraGate.GateHolds | pkg/webhooks/trainjob_webhook.go:112-147 | while the gate stays off, over any history, an object without DRA never comes to use it |
| DraGate.StoredWasAccepted | pkg/webhooks/trainjob_webhook.go:120-146 | over any history what is stored was accepted by its registered runtime |
| DraGate.DraIsIntroducedUnderTheGate | pkg/webhooks/trainjob_webhook.go:129-138 | over any history with the gate going on and off, a stored object that uses DRA goes back to a write admitted with the gate on, and used it ever since |
| Upsert.List.Upsert | pkg/apply/apply.go:87-95 | the in-place search and replace or append |
| Upsert.List.UpsertEach | pkg/apply/apply.go:37-59 | the loop of the name- and path-keyed wrappers |
| Upsert.UpsertAllView | pkg/apply/apply.go:37-95 | the key-to-value view is the old one overridden in order |
| Upsert.UpsertAllUnique | pkg/apply/apply.go:37-95 | unique keys stay unique |
| Upsert.UpsertAllKeepsPositions | pkg/apply/apply.go:87-95 | old entries keep their positions |
| Upsert.UpsertIsIdempotent | pkg/apply/apply.go:37-95 | repeating the upserts is a no-op, for any list |
| Upsert.PortList.UpsertEach | pkg/apply/apply.go:43-47 | the loop over ports |
| Upsert.PortsStayDistinct | pkg/apply/apply.go:69-75 | distinct ports stay distinct if and only if the new one matches at most one entry |
| Upsert.DistinctPortsMeaning | pkg/apply/apply.go:69-75 | distinct ports share no name, and no container port and protocol, TCP being the default |
| Upsert.AllPortsStayDistinct | pkg/apply/apply.go:43-47 | over a list of upserts, distinctness is kept if each new port in turn matches at most one entry |
| Upsert.PortClash | pkg/apply/apply.go:65-75 | a list of ports on which an upsert leaves two entries for one port |

## Left out

- The gRPC client, TLS, HTTP status server, metrics, manager setup and webhook registration.
- The initializers and the generated client and Python code.
- Search-space translation and algorithm settings in the suggestion request (pkg/util/optimizationjob/optimizationjob.go:181-246): a direct field mapping.
- Labels and annotations of trials and templates, event texts, log lines, and the messages of OptimizationJob conditions.
- Construction of the search service's Deployment and Service: only whether they exist is modelled.
- Deletion of the JobSet when the deadline passes, and the objects that plugins delete: only whether those calls fail.
- PodSet counts and the propagation of labels and annotations in newRuntimeInfo.
- Framework plugins: arbitrary functions within the assumptions above, except for the claim check of the JobSet plugin.
- Internals of strategic merge, YAML and JSON, server-side apply and caches: taken as the assumptions above state. A nil and an empty resource map are identified.
- Status patches are whole-status writes; other writers of the same status are not modelled.
- Deprecation warnings, and CRD schema validation other than unique list keys.
- Upsert.AllPortsStayDistinct: one direction only, because a later upsert can replace one of two clashing entries and so restore distinctness.
- TemplateOverlay.OverlayIsIdempotent: claims inside a container are compared as multisets, because the order strategic merge gives them is not specified.
- TrainJobHistories.DeadlineIsExact: for deadlines that fit in 64-bit nanoseconds; DeadlineWrapsBeyondFit shows this is exactly when the comparison is right.
