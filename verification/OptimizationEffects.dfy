/** What one reconcile of an OptimizationJob does when it goes on: how many trials it adds, what it
    stores, what it does about the search service, and when it reports an error. */
module OptimizationEffects {
  import opened Common
  import opened Conditions
  import opened OptimizationTypes
  import opened Suggestions
  import opened Trials
  import opened OptimizationController
  import opened OptimizationRuns
  import opened OptimizationProgress
  import opened OptimizationOutcome
  import opened OptimizationVerdict

  /** The decision the reconcile comes to. */
  function Decided(job: OptimizationJob, w: World, items: seq<TrainJob>, now: Time): (r: Decision)
  {
    Decide(job.spec, TallyOf(items, job.uid, TargetMetric(job.spec)), w.status, now)
  }

  /** An unfinished job goes on if and only if no trial is broken, there is work left or running,
      and the algorithm is supported. */
  lemma GoesOnMeaning(job: OptimizationJob, w: World, items: seq<TrainJob>, now: Time)
    requires WellKept(w.jobs, job) && FreshListing(items, w.jobs, job.name) && !Terminal(w.status)
    ensures Decided(job, w, items, now).Scale? <==>
            && KindOf(w.jobs, job.uid, Broken(TargetMetric(job.spec))) == {} && job.spec.random
            && (|TrialsOf(w.jobs, job.uid)| < job.spec.numTrials || KindOf(w.jobs, job.uid, Active) != {})
  {
    var t := TallyOf(items, job.uid, TargetMetric(job.spec));
    TallyIsExact(job, w, items);
    UnmeasuredOfStore(job, w, items);
    UnmeasuredAreBroken(w.jobs, job.uid, TargetMetric(job.spec));
    DecisionTable(job.spec, t, w.status, now);
    DecisionFacts(job.spec, t, w.status, now);
    hide TallyOf, Decide, WellKept, FreshListing, KindOf, TrialsOf, MetricReason, TargetMetric, Find, NotBoth, TrackBest;
  }

  // ---- how many trials are added ----

  lemma NothingToSpawn(job: OptimizationJob, w: World, t: Tally, st: Status, c: Calls)
    requires ToSpawn(job.spec, t) <= 0 && AllSucceed(c, 0)
    ensures ScaleUp(job, w, t, st, c).world.jobs == w.jobs && !ScaleUp(job, w, t, st, c).err
  {
    hide MarkCreated, Spawn, ToSpawn;
  }

  /** Going on means scaling up. */
  lemma GoingOnScales(job: OptimizationJob, w: World, c: Calls)
    requires c.get == Found && c.listing.Some? && c.patch.Takes()
    requires !Terminal(w.status) && !Terminal(Reconciled(job, w, c).world.status)
    ensures Decided(job, w, c.listing.value, c.now).Scale?
  {
    DecisionWithoutCleanup(job.spec, TallyOf(c.listing.value, job.uid, TargetMetric(job.spec)), w.status, c.now);
    hide TallyOf, Decide, ScaleUp, Terminal, TargetMetric;
  }

  lemma ScalesExactly(job: OptimizationJob, w: World, c: Calls, t: Tally, st: Status, n: nat)
    requires n == (if ToSpawn(job.spec, t) > 0 then ToSpawn(job.spec, t) else 0)
    requires AllSucceed(c, n) && Buildable(job.spec, t.owned)
    ensures ScaleUp(job, w, t, st, c).world.jobs.Keys == w.jobs.Keys + (set i: nat | i < n :: NameAt(job, c, i))
    ensures !ScaleUp(job, w, t, st, c).err
  {
    hide ScaleUp, Buildable, NameAt, CreateMany, ToSpawn;
    if n == 0 {
      NothingToSpawn(job, w, t, st, c);
      assert (set i: nat | i < 0 :: NameAt(job, c, i)) == {};
    } else {
      ScaleUpSucceeds(job, w, t, st, c);
      CreateManyAll(job, w.jobs, c, n);
    }
  }

  /** A reconcile that goes on, and whose calls all succeed, adds a trial under every free name it
      draws, as many as both budgets leave, whether or not trials are running; and no error. */
  lemma SpawnsExactly(job: OptimizationJob, w: World, c: Calls)
    requires WithinBudget(job, w) && Allowed(job, w, Reconcile(c)) && !Terminal(w.status)
    requires AllSucceed(c, Budget(job, w)) && !Terminal(Reconciled(job, w, c).world.status)
    ensures Reconciled(job, w, c).world.jobs.Keys == w.jobs.Keys + (set i: nat | i < Budget(job, w) :: NameAt(job, c, i))
    ensures !Reconciled(job, w, c).err
  {
    var t := TallyOf(c.listing.value, job.uid, TargetMetric(job.spec));
    var d := Decided(job, w, c.listing.value, c.now);
    GoingOnScales(job, w, c);
    hide TallyOf, Decide, ScaleUp, Buildable, NameAt, Terminal, KindOf, TrialsOf, WellKept, AllSucceed;
    assert Reconciled(job, w, c) == ScaleUp(job, w, t, d.status, c) by { AllSucceedFinds(c, Budget(job, w)); }
    hide Reconciled;
    AllSucceedFinds(c, Budget(job, w));
    TallyIsExact(job, w, c.listing.value);
    RequestAlwaysBuilds(job.spec, c.listing.value, job.uid, w.status, c.now);
    ScalesExactly(job, w, c, t, d.status, Budget(job, w));
  }

  lemma AllSucceedFinds(c: Calls, n: nat)
    requires AllSucceed(c, n)
    ensures c.get == Found && c.listing.Some? && c.patch.Takes()
  { }

  /** The budget in numbers: the free parallel slots, but no more than trials are left, and none
      if that is negative. */
  lemma BudgetMeaning(job: OptimizationJob, w: World)
    ensures var free, left := job.spec.parallelTrials - |KindOf(w.jobs, job.uid, Active)|, job.spec.numTrials - |TrialsOf(w.jobs, job.uid)|;
      var b := Budget(job, w);
      b >= 0 && (b > 0 ==> b <= free && b <= left) && (b == free || b == left || (b == 0 && (free < 0 || left < 0)))
  { }

  // ---- what is stored ----

  lemma TrackedIsStored(job: OptimizationJob, w: World, c: Calls)
    requires c.get == Found && c.listing.Some? && c.patch.Takes()
    ensures Reconciled(job, w, c).world.status.result ==
            TrackBest(job.spec, TallyOf(c.listing.value, job.uid, TargetMetric(job.spec)).valid, w.status).result
  {
    var t := TallyOf(c.listing.value, job.uid, TargetMetric(job.spec));
    var d := Decide(job.spec, t, w.status, c.now);
    DecisionFacts(job.spec, t, w.status, c.now);
    MarkCreatedFacts(d.status, c.now);
    hide TallyOf, Decide, TrackBest, MarkCreated, ToSpawn, Spawn, NotBoth, Holds, TargetMetric, Terminal;
  }

  /** New trials are no valid ones. */
  lemma SpawnKeepsValidTrials(job: OptimizationJob, w: World, w': World, max: int)
    requires Spawns(job, w.jobs, w'.jobs, max)
    ensures ValidTrials(job, w') == ValidTrials(job, w)
    ensures forall n :: n in ValidTrials(job, w) ==> n in w'.jobs && w'.jobs[n] == w.jobs[n]
  {
    forall n | n in w'.jobs && n !in w.jobs ensures !IsFinished(w'.jobs[n]) { }
  }

  /** After every reconcile whose patch goes through, the stored result is the optimum over the
      valid trials; with no valid trial it is what it was. */
  lemma StoredResultIsOptimum(job: OptimizationJob, w: World, c: Calls)
    requires WellKept(w.jobs, job) && Allowed(job, w, Reconcile(c)) && HasObjective(job.spec)
    requires c.get == Found && c.listing.Some? && c.patch.Takes()
    ensures var w' := Reconciled(job, w, c).world;
      && ValidTrials(job, w') == ValidTrials(job, w)
      && (ValidTrials(job, w) == {} ==> w'.status.result == w.status.result)
      && (ValidTrials(job, w) != {} ==> ReportsOptimum(job, w') && Reports(job, w'))
  {
    var w' := Reconciled(job, w, c).world;
    var t := TallyOf(c.listing.value, job.uid, TargetMetric(job.spec));
    var mid := w.(status := TrackBest(job.spec, t.valid, w.status));
    TrackedIsStored(job, w, c);
    TrackedIsOptimum(job, w, c.listing.value);
    ReconcileSpawns(job, w, c);
    SpawnKeepsValidTrials(job, w, w', Budget(job, w));
    hide Reconciled, TallyOf, TrackBest, WellKept, FreshListing, Spawns, ValidTrials;
    SameStoreSameTrials(job, w, mid);
    if ValidTrials(job, w) != {} {
      var b := mid.status.result.value.trainJobName;
      forall n | n in ValidTrials(job, w') ensures AtLeast(job, w', b, n) {
        assert AtLeast(job, mid, b, n);
      }
    }
  }

  // ---- the search service ----

  lemma ScaleUpService(job: OptimizationJob, w: World, t: Tally, st: Status, c: Calls)
    ensures var w' := ScaleUp(job, w, t, st, c).world;
      var up := c.applyDeployment.Accepted? && c.applyService.Accepted?;
      && (w'.deployment <==> w.deployment || c.applyDeployment.Takes())
      && (w'.service <==> w.service || (c.applyDeployment.Accepted? && c.applyService.Takes()))
      && (up && c.readiness == Available && c.patch.Takes() ==> w'.status == MarkCreated(st, c.now))
      && (!(up && c.readiness == Available) ==> w'.jobs == w.jobs && (w'.status == w.status || w'.status == st))
  {
    hide MarkCreated, Spawn, ToSpawn;
  }

  lemma MarksCreated(st: Status, now: Time)
    ensures Holds(MarkCreated(st, now).conditions, "Created")
  {
    AnnounceHolds(st, CREATED, "AlgorithmServiceCreated", now);
    hide Announce;
  }

  /** A reconcile that goes on applies the Deployment and, once that is accepted, the Service; once
      the Deployment is available the job is Created; and until then nothing is spawned and no
      condition is set. */
  lemma ServiceComesFirst(job: OptimizationJob, w: World, c: Calls)
    requires c.get == Found && c.listing.Some? && Decided(job, w, c.listing.value, c.now).Scale?
    ensures var w' := Reconciled(job, w, c).world;
      var up := c.applyDeployment.Accepted? && c.applyService.Accepted?;
      && (w'.deployment <==> w.deployment || c.applyDeployment.Takes())
      && (w'.service <==> w.service || (c.applyDeployment.Accepted? && c.applyService.Takes()))
      && (up && c.readiness == Available && c.patch.Takes() ==> Holds(w'.status.conditions, "Created"))
      && (!(up && c.readiness == Available) ==> w'.jobs == w.jobs && w'.status.conditions == w.status.conditions)
  {
    var t := TallyOf(c.listing.value, job.uid, TargetMetric(job.spec));
    var d := Decided(job, w, c.listing.value, c.now);
    DecisionFacts(job.spec, t, w.status, c.now);
    hide TallyOf, Decide, ScaleUp, TargetMetric, NotBoth, TrackBest, Holds, MarkCreated;
    assert Reconciled(job, w, c) == ScaleUp(job, w, t, d.status, c);
    ScaleUpService(job, w, t, d.status, c);
    MarksCreated(d.status, c.now);
  }

  /** A reconcile that ends the job touches neither trials nor search service. */
  lemma EndingTouchesStatusOnly(job: OptimizationJob, w: World, c: Calls)
    requires !Terminal(w.status) && Terminal(Reconciled(job, w, c).world.status)
    ensures Reconciled(job, w, c).world == w.(status := Reconciled(job, w, c).world.status)
  {
    ReconciledStatus(job, w, c);
    if c.get == Found && c.listing.Some? {
      var t := TallyOf(c.listing.value, job.uid, TargetMetric(job.spec));
      DecisionFacts(job.spec, t, w.status, c.now);
      MarkCreatedFacts(Decide(job.spec, t, w.status, c.now).status, c.now);
    }
    hide TallyOf, Decide, ScaleUp, TargetMetric, NotBoth, TrackBest, Holds, MarkCreated;
  }

  // ---- errors ----

  /** Building or storing the i-th trial fails. */
  predicate CreateFails(c: Calls, i: nat)
  {
    c.creation(i).referenceFails || c.creation(i).outcome.Rejected?
  }

  lemma {:induction false} CreateManyFails(job: OptimizationJob, jobs: map<string, TrainJob>, c: Calls, n: nat)
    requires c.suggestions.Some? && n <= |c.suggestions.value|
    ensures CreateMany(job, jobs, c.suggestions.value, c.creation, n).err <==> exists i: nat :: i < n && CreateFails(c, i)
  {
    if n > 0 {
      CreateManyFails(job, jobs, c, n - 1);
      hide NewTrial;
      assert CreateFails(c, n - 1) ==> exists i: nat :: i < n && CreateFails(c, i);
    }
  }

  /** Fetching suggestions or creating n trials from them fails. */
  ghost predicate SpawnFails(c: Calls, n: int)
  {
    n > 0 && (c.suggestions.None? || |c.suggestions.value| < n || exists i: nat :: i < n && CreateFails(c, i))
  }

  /** The reconcile has a new status to store. */
  predicate StatusMoves(job: OptimizationJob, w: World, c: Calls)
  {
    Reconciled(job, w, c.(patch := Accepted)).world.status != w.status
  }

  lemma ScaleUpErrors(job: OptimizationJob, w: World, t: Tally, st: Status, c: Calls)
    requires Buildable(job.spec, t.owned)
    ensures ScaleUp(job, w, t, st, c).err <==>
      || c.applyDeployment.Rejected? || c.applyService.Rejected? || c.readiness == Unreadable
      || (c.readiness == Available && SpawnFails(c, ToSpawn(job.spec, t)))
      || (c.patch.Rejected? && ScaleUp(job, w, t, st, c.(patch := Accepted)).world.status != w.status)
    ensures c.suggestions.None? || |c.suggestions.value| < ToSpawn(job.spec, t) ==> ScaleUp(job, w, t, st, c).world.jobs == w.jobs
  {
    hide MarkCreated, Buildable, CreateMany, CreateFails;
    var n := ToSpawn(job.spec, t);
    if n > 0 && c.suggestions.Some? && n <= |c.suggestions.value| {
      CreateManyFails(job, w.jobs, c, n);
    }
    hide ToSpawn;
  }

  /** An error is reported exactly when a call the reconcile made has failed. */
  lemma ErrorIsExact(job: OptimizationJob, w: World, c: Calls)
    ensures Reconciled(job, w, c).err <==>
      || c.get == FetchError
      || (c.get == Found && (
            || c.listing.None?
            || (c.patch.Rejected? && StatusMoves(job, w, c))
            || (var d := Decided(job, w, c.listing.value, c.now);
                || (d.Cleanup? && (c.deleteDeployment.Rejected? || c.deleteService.Rejected?))
                || (d.Scale? && (
                      || c.applyDeployment.Rejected? || c.applyService.Rejected? || c.readiness == Unreadable
                      || (c.readiness == Available && SpawnFails(c, ListedBudget(job, c))))))))
  {
    if c.get == Found && c.listing.Some? {
      var t := TallyOf(c.listing.value, job.uid, TargetMetric(job.spec));
      var d := Decided(job, w, c.listing.value, c.now);
      if d.Scale? {
        RequestAlwaysBuilds(job.spec, c.listing.value, job.uid, w.status, c.now);
        ScaleUpErrors(job, w, t, d.status, c);
      }
    }
    hide TallyOf, Decide, ScaleUp, Buildable, TargetMetric, ToSpawn, CreateFails;
  }

  /** Too few suggestions, or none, create nothing. */
  lemma TooFewSuggestions(job: OptimizationJob, w: World, c: Calls)
    requires c.suggestions.None? || |c.suggestions.value| < ListedBudget(job, c)
    ensures Reconciled(job, w, c).world.jobs == w.jobs
  {
    ReconciledJobs(job, w, c);
    hide Reconciled, TallyOf, Decide, CreateMany, ToSpawn, TargetMetric;
  }
}
