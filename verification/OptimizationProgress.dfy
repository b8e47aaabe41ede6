/** Termination and progress of the hyper-parameter search. */
module OptimizationProgress {
  import opened Common
  import opened Conditions
  import opened OptimizationTypes
  import opened BestTrial
  import opened Suggestions
  import opened Trials
  import opened OptimizationController
  import opened OptimizationRuns

  /** What is left to do: two steps per trial not yet created, one per active trial. */
  function Measure(job: OptimizationJob, w: World): (r: int)
  {
    2 * (job.spec.numTrials - |TrialsOf(w.jobs, job.uid)|) + |KindOf(w.jobs, job.uid, Active)|
  }

  /** Trials created, trials that stop being active, and trials deleted by one event. */
  function Created(job: OptimizationJob, w: World, e: Event): (r: nat)
  {
    |TrialsOf(Next(job, w, e).jobs, job.uid) - TrialsOf(w.jobs, job.uid)|
  }

  function Ended(job: OptimizationJob, w: World, e: Event): (r: nat)
  {
    |KindOf(w.jobs, job.uid, Active) - KindOf(Next(job, w, e).jobs, job.uid, Active)|
  }

  function Deleted(job: OptimizationJob, w: World, e: Event): (r: nat)
  {
    if e.Delete? then |TrialsOf(w.jobs, job.uid) * {e.name}| else 0
  }

  lemma DifferenceCount(a: set<string>, b: set<string>)
    requires a <= b
    ensures |b - a| == |b| - |a| && |a - b| == 0
  { }

  lemma GrownBy(t: set<string>, t': set<string>, added: set<string>)
    requires t' == t + added && |t'| == |t| + |added|
    ensures |t' - t| == |added| && |t - t'| == 0
  { }

  lemma DeleteCounts(job: OptimizationJob, w: World, n: string)
    ensures var w' := Next(job, w, Delete(n));
      && (WellKept(w.jobs, job) ==> WellKept(w'.jobs, job))
      && TrialsOf(w'.jobs, job.uid) == TrialsOf(w.jobs, job.uid) - TrialsOf(w.jobs, job.uid) * {n}
      && KindOf(w'.jobs, job.uid, Active) <= KindOf(w.jobs, job.uid, Active)
  { }

  /** How one event moves the number of trials and the measure, whatever a reconcile was listed:
      every creation and every finish takes one off the measure, a deleted trial gives two back,
      and nothing else moves it. */
  lemma StepMeasure(job: OptimizationJob, w: World, e: Event)
    requires WellKept(w.jobs, job) && Possible(job, w, e)
    ensures Measure(job, Next(job, w, e)) == Measure(job, w) - Created(job, w, e) - Ended(job, w, e) + 2 * Deleted(job, w, e)
    ensures |TrialsOf(Next(job, w, e).jobs, job.uid)| == |TrialsOf(w.jobs, job.uid)| + Created(job, w, e) - Deleted(job, w, e)
    ensures WellKept(Next(job, w, e).jobs, job)
  {
    hide Measure, Created, Ended, Deleted, Next, TrialsOf, WellKept;
    match e
    case Reconcile(c) => ReconcileMoves(job, w, c);
    case Update(n, tj) => UpdateMoves(job, w, n, tj);
    case Foreign(n, tj) => ForeignMoves(job, w, n, tj);
    case Delete(n) => DeleteMoves(job, w, n);
  }

  /** The statement of StepMeasure for one event. */
  ghost predicate Moves(job: OptimizationJob, w: World, e: Event)
  {
    && Measure(job, Next(job, w, e)) == Measure(job, w) - Created(job, w, e) - Ended(job, w, e) + 2 * Deleted(job, w, e)
    && |TrialsOf(Next(job, w, e).jobs, job.uid)| == |TrialsOf(w.jobs, job.uid)| + Created(job, w, e) - Deleted(job, w, e)
    && WellKept(Next(job, w, e).jobs, job)
  }

  lemma ReconcileMoves(job: OptimizationJob, w: World, c: Calls)
    requires WellKept(w.jobs, job)
    ensures Moves(job, w, Reconcile(c))
  {
    hide Reconciled, TrialsOf, KindOf, WellKept, Spawns, ListedBudget;
    var w' := Next(job, w, Reconcile(c));
    ReconcileSpawnsListed(job, w, c);
    SpawnCounts(job, w.jobs, w'.jobs, ListedBudget(job, c));
    var added := w'.jobs.Keys - w.jobs.Keys;
    GrownBy(TrialsOf(w.jobs, job.uid), TrialsOf(w'.jobs, job.uid), added);
    GrownBy(KindOf(w.jobs, job.uid, Active), KindOf(w'.jobs, job.uid, Active), added);
  }

  lemma UpdateMoves(job: OptimizationJob, w: World, n: string, tj: TrainJob)
    requires WellKept(w.jobs, job) && Allowed(job, w, Update(n, tj))
    ensures Moves(job, w, Update(n, tj))
  {
    hide TrialsOf, KindOf, WellKept, Allowed, IsFinished;
    var w' := Next(job, w, Update(n, tj));
    UpdateCounts(job, w, n, tj);
    assert KindOf(w'.jobs, job.uid, Active) <= KindOf(w.jobs, job.uid, Active);
    DifferenceCount(TrialsOf(w.jobs, job.uid), TrialsOf(w'.jobs, job.uid));
    DifferenceCount(KindOf(w'.jobs, job.uid, Active), KindOf(w.jobs, job.uid, Active));
  }

  lemma ForeignMoves(job: OptimizationJob, w: World, n: string, tj: TrainJob)
    requires WellKept(w.jobs, job) && Allowed(job, w, Foreign(n, tj))
    ensures Moves(job, w, Foreign(n, tj))
  {
    hide TrialsOf, KindOf, WellKept, Allowed;
    var w' := Next(job, w, Foreign(n, tj));
    ForeignKeepsTrials(job, w, n, tj);
    DifferenceCount(TrialsOf(w.jobs, job.uid), TrialsOf(w'.jobs, job.uid));
    DifferenceCount(KindOf(w'.jobs, job.uid, Active), KindOf(w.jobs, job.uid, Active));
  }

  lemma DeleteMoves(job: OptimizationJob, w: World, n: string)
    requires WellKept(w.jobs, job)
    ensures Moves(job, w, Delete(n))
  {
    hide TrialsOf, KindOf, WellKept;
    var w' := Next(job, w, Delete(n));
    var t := TrialsOf(w.jobs, job.uid);
    DeleteCounts(job, w, n);
    DifferenceCount(TrialsOf(w'.jobs, job.uid), t);
    DifferenceCount(t * {n}, t);
    DifferenceCount(KindOf(w'.jobs, job.uid, Active), KindOf(w.jobs, job.uid, Active));
  }

  /** The same, summed over a run. */
  function CreatedIn(job: OptimizationJob, w: World, es: seq<Event>): (r: nat)
    decreases |es|
  {
    if es == [] then 0 else Created(job, w, es[0]) + CreatedIn(job, Next(job, w, es[0]), es[1..])
  }

  function EndedIn(job: OptimizationJob, w: World, es: seq<Event>): (r: nat)
    decreases |es|
  {
    if es == [] then 0 else Ended(job, w, es[0]) + EndedIn(job, Next(job, w, es[0]), es[1..])
  }

  function DeletedIn(job: OptimizationJob, w: World, es: seq<Event>): (r: nat)
    decreases |es|
  {
    if es == [] then 0 else Deleted(job, w, es[0]) + DeletedIn(job, Next(job, w, es[0]), es[1..])
  }

  lemma {:induction false} RunMeasure(job: OptimizationJob, w: World, es: seq<Event>)
    requires WellKept(w.jobs, job) && IsLooseRun(job, w, es)
    ensures Measure(job, After(job, w, es)) ==
            Measure(job, w) - CreatedIn(job, w, es) - EndedIn(job, w, es) + 2 * DeletedIn(job, w, es)
    ensures |TrialsOf(After(job, w, es).jobs, job.uid)| ==
            |TrialsOf(w.jobs, job.uid)| + CreatedIn(job, w, es) - DeletedIn(job, w, es)
    decreases |es|
  {
    hide Measure, Created, Ended, Deleted, Next, WellKept, Possible, TrialsOf;
    if es != [] {
      StepMeasure(job, w, es[0]);
      RunMeasure(job, Next(job, w, es[0]), es[1..]);
    }
  }

  /** In every run the creations and finishes together number at most the starting measure,
      which is 2 * NumTrials from an empty start, plus two for each deleted trial. */
  lemma BoundedWork(job: OptimizationJob, w: World, es: seq<Event>)
    requires WithinBudget(job, w) && IsRun(job, w, es)
    ensures CreatedIn(job, w, es) + EndedIn(job, w, es) <= Measure(job, w) + 2 * DeletedIn(job, w, es)
    ensures CreatedIn(job, w, es) <= job.spec.numTrials - |TrialsOf(w.jobs, job.uid)| + DeletedIn(job, w, es)
    ensures TrialsOf(w.jobs, job.uid) == {} ==> Measure(job, w) == 2 * job.spec.numTrials
  {
    hide Next, WellKept, After, IsRun, IsLooseRun, KindOf, TrialsOf, CreatedIn, EndedIn, DeletedIn;
    RunIsLoose(job, w, es);
    RunMeasure(job, w, es);
    BudgetSafety(job, w, es);
    if TrialsOf(w.jobs, job.uid) == {} {
      ActiveAreTrials(w.jobs, job.uid);
      SubsetCount(KindOf(w.jobs, job.uid, Active), TrialsOf(w.jobs, job.uid));
    }
  }

  lemma ActiveAreTrials(jobs: map<string, TrainJob>, uid: string)
    ensures KindOf(jobs, uid, Active) <= TrialsOf(jobs, uid)
  { }

  // ---- the suggestion request never fails ----

  /** Whatever the listing, a reconcile that reaches the request can build it. */
  lemma RequestAlwaysBuilds(spec: OptimizationSpec, items: seq<TrainJob>, uid: string, st: Status, now: int)
    requires Decide(spec, TallyOf(items, uid, TargetMetric(spec)), st, now).Scale?
    ensures Buildable(spec, TallyOf(items, uid, TargetMetric(spec)).owned)
  {
    hide TrackBest, Announce, Terminal, TargetMetric, Pick, FinalObjective;
    var m, owned := TargetMetric(spec), Pick(items, Owned(uid));
    assert Pick(owned, Broken(m)) == [];
    PickMembers(owned, Broken(m));
    forall i | 0 <= i < |owned| && IsFinished(owned[i]) ensures HasMetric(owned[i], m) {
      assert owned[i] in owned && !Is(Broken(m), owned[i]);
    }
  }

  // ---- an idle reconcile makes progress ----

  function NameAt(job: OptimizationJob, c: Calls, i: nat): (r: string)
  {
    TrialName(job.name, c.creation(i).suffix)
  }

  /** Every API call of the reconcile succeeds, and the service is ready and suggests at
      least n assignments. */
  ghost predicate AllSucceed(c: Calls, n: nat)
  {
    && c.get == Found && c.listing.Some? && c.applyDeployment.Accepted? && c.applyService.Accepted?
    && c.readiness == Available && c.suggestions.Some? && n <= |c.suggestions.value| && c.patch.Accepted?
    && forall i :: 0 <= i < n ==> !c.creation(i).referenceFails && c.creation(i).outcome.Accepted?
  }

  lemma {:induction false} CreateManyAll(job: OptimizationJob, jobs: map<string, TrainJob>, c: Calls, n: nat)
    requires c.suggestions.Some? && n <= |c.suggestions.value|
    requires forall i :: 0 <= i < n ==> !c.creation(i).referenceFails && c.creation(i).outcome.Accepted?
    ensures var r := CreateMany(job, jobs, c.suggestions.value, c.creation, n);
      !r.err && r.jobs.Keys == jobs.Keys + (set i: nat | i < n :: NameAt(job, c, i))
  {
    hide TrialName;
    if n == 0 {
      assert (set i: nat | i < 0 :: NameAt(job, c, i)) == {};
    } else {
      CreateManyAll(job, jobs, c, n - 1);
      assert (set i: nat | i < n :: NameAt(job, c, i)) == (set i: nat | i < n - 1 :: NameAt(job, c, i)) + {NameAt(job, c, n - 1)};
    }
  }

  /** The scale-up of a reconcile whose calls all succeed. */
  lemma ScaleUpSucceeds(job: OptimizationJob, w: World, t: Tally, st: Status, c: Calls)
    requires var n := ToSpawn(job.spec, t); n > 0 && AllSucceed(c, n) && Buildable(job.spec, t.owned)
    ensures var n := ToSpawn(job.spec, t);
      ScaleUp(job, w, t, st, c).world.jobs == CreateMany(job, w.jobs, c.suggestions.value, c.creation, n).jobs &&
      ScaleUp(job, w, t, st, c).err == CreateMany(job, w.jobs, c.suggestions.value, c.creation, n).err
  { }

  lemma DecisionWithoutCleanup(spec: OptimizationSpec, t: Tally, st: Status, now: int)
    requires !Terminal(st)
    ensures var d := Decide(spec, t, st, now);
      && !d.Cleanup?
      && (d.Halt? ==> Terminal(d.status) && d.status != st)
      && (d.Scale? ==> t.active != 0 || t.active + t.succeeded + t.failed < spec.numTrials)
  {
    var best := TrackBest(spec, t.valid, st);
    assert best.conditions == st.conditions;
    hide TrackBest, MetricReason, Announce, Holds;
    AnnounceHolds(best, FAILED, MetricReason(t.unmeasured.GetOr(TrainJob("", None, 0, None, [], None)), TargetMetric(spec)), now);
    AnnounceHolds(best, FAILED, "TrialFailed", now);
    AnnounceHolds(best, FAILED, "UnsupportedSearchAlgorithm", now);
    AnnounceHolds(best, COMPLETE, "OptimizationJobCompleted", now);
  }

  /** Spawned names are new trials, so counting creations is counting free names. */
  lemma SpawnedNames(job: OptimizationJob, w: World, c: Calls, n: nat)
    requires WellKept(w.jobs, job) && Allowed(job, w, Reconcile(c))
    requires Reconciled(job, w, c).world.jobs.Keys == w.jobs.Keys + (set i: nat | i < n :: NameAt(job, c, i))
    ensures Created(job, w, Reconcile(c)) > 0 <==> exists i :: 0 <= i < n && NameAt(job, c, i) !in w.jobs
  {
    hide Reconciled, NameAt, WellKept, TrialsOf, KindOf, Spawns;
    var w' := Next(job, w, Reconcile(c));
    ReconcileSpawns(job, w, c);
    SpawnCounts(job, w.jobs, w'.jobs, Budget(job, w));
    var added := w'.jobs.Keys - w.jobs.Keys;
    GrownBy(TrialsOf(w.jobs, job.uid), TrialsOf(w'.jobs, job.uid), added);
    if i :| 0 <= i < n && NameAt(job, c, i) !in w.jobs {
      assert NameAt(job, c, i) in added;
      assert added != {};
    }
    if added != {} {
      var x :| x in added;
      var i :| 0 <= i < n && NameAt(job, c, i) == x;
    }
  }

  lemma IdleScale(job: OptimizationJob, w: World, t: Tally, d: Decision, c: Calls)
    requires WithinBudget(job, w) && Allowed(job, w, Reconcile(c)) && c.get == Found && c.listing.Some?
    requires t == TallyOf(c.listing.value, job.uid, TargetMetric(job.spec)) && d == Decide(job.spec, t, w.status, c.now) && d.Scale?
    requires ToSpawn(job.spec, t) == Budget(job, w) > 0 && AllSucceed(c, Budget(job, w)) && Buildable(job.spec, t.owned)
    ensures !Reconciled(job, w, c).err
    ensures Created(job, w, Reconcile(c)) > 0 <==> exists i :: 0 <= i < Budget(job, w) && NameAt(job, c, i) !in w.jobs
  {
    hide TallyOf, Decide, ScaleUp, ToSpawn, Buildable, CreateMany, NameAt, WithinBudget, Budget, Created;
    assert Reconciled(job, w, c) == ScaleUp(job, w, t, d.status, c);
    ScaleUpSucceeds(job, w, t, d.status, c);
    CreateManyAll(job, w.jobs, c, Budget(job, w));
    assert WellKept(w.jobs, job) by { WithinBudgetIsWellKept(job, w); }
    SpawnedNames(job, w, c, Budget(job, w));
  }

  lemma WithinBudgetIsWellKept(job: OptimizationJob, w: World)
    requires WithinBudget(job, w)
    ensures WellKept(w.jobs, job)
  { }

  /** A reconcile with no active trial whose API calls succeed either ends the job or spawns,
      and it spawns exactly when one of the drawn names is free. When every name is taken it
      spawns nothing and still reports no error. */
  lemma IdleReconcileProgresses(job: OptimizationJob, w: World, c: Calls)
    requires WithinBudget(job, w) && Allowed(job, w, Reconcile(c)) && !Terminal(w.status)
    requires 1 <= job.spec.parallelTrials && KindOf(w.jobs, job.uid, Active) == {} && AllSucceed(c, Budget(job, w))
    ensures var o := Reconciled(job, w, c);
      Terminal(o.world.status) || (
        && !o.err
        && 0 < Budget(job, w)
        && (Created(job, w, Reconcile(c)) > 0 <==> exists i :: 0 <= i < Budget(job, w) && NameAt(job, c, i) !in w.jobs))
  {
    var t := TallyOf(c.listing.value, job.uid, TargetMetric(job.spec));
    var d := Decide(job.spec, t, w.status, c.now);
    TallyIsExact(job, w, c.listing.value);
    DecisionWithoutCleanup(job.spec, t, w.status, c.now);
    hide TallyOf, Decide, ScaleUp, Buildable, NameAt, Created, Terminal, KindOf, TrialsOf, WellKept;
    if d.Scale? {
      RequestAlwaysBuilds(job.spec, c.listing.value, job.uid, w.status, c.now);
      IdleScale(job, w, t, d, c);
    }
  }

  // ---- only so many idle reconciles can leave the job running ----

  /** A reconcile that finds the job unfinished and idle, whose calls succeed, one of whose drawn
      names is free, and that does not end the job. */
  ghost predicate KeepsGoing(job: OptimizationJob, w: World, e: Event)
  {
    && e.Reconcile? && !Terminal(w.status) && KindOf(w.jobs, job.uid, Active) == {}
    && AllSucceed(e.c, Budget(job, w)) && (exists i :: 0 <= i < Budget(job, w) && NameAt(job, e.c, i) !in w.jobs)
    && !Terminal(Next(job, w, e).status)
  }

  ghost function CountKeepsGoing(job: OptimizationJob, w: World, es: seq<Event>): (r: nat)
    decreases |es|
  {
    if es == [] then 0
    else (if KeepsGoing(job, w, es[0]) then 1 else 0) + CountKeepsGoing(job, Next(job, w, es[0]), es[1..])
  }

  lemma {:induction false} KeepsGoingWorks(job: OptimizationJob, w: World, es: seq<Event>)
    requires WithinBudget(job, w) && IsRun(job, w, es) && 1 <= job.spec.parallelTrials
    ensures CountKeepsGoing(job, w, es) <= CreatedIn(job, w, es)
    decreases |es|
  {
    hide Next, WithinBudget, Allowed, Created;
    if es != [] {
      if KeepsGoing(job, w, es[0]) {
        OneGoesOn(job, w, es[0]);
      }
      StepKeepsBudget(job, w, es[0]);
      KeepsGoingWorks(job, Next(job, w, es[0]), es[1..]);
    }
  }

  lemma OneGoesOn(job: OptimizationJob, w: World, e: Event)
    requires WithinBudget(job, w) && Allowed(job, w, e) && 1 <= job.spec.parallelTrials && KeepsGoing(job, w, e)
    ensures Created(job, w, e) >= 1
  {
    hide Reconciled, WithinBudget, Terminal, KindOf, AllSucceed, NameAt, Budget, Created;
    IdleReconcileProgresses(job, w, e.c);
  }

  /** A job that keeps being reconciled successfully while idle, and draws a free name, ends:
      only as many such reconciles can leave it running as trials are left to create, plus one
      for each trial that is deleted. */
  lemma IdleRunsEnd(job: OptimizationJob, w: World, es: seq<Event>)
    requires WithinBudget(job, w) && IsRun(job, w, es) && 1 <= job.spec.parallelTrials
    ensures CountKeepsGoing(job, w, es) <= job.spec.numTrials - |TrialsOf(w.jobs, job.uid)| + DeletedIn(job, w, es)
  {
    hide IsRun, WithinBudget, CountKeepsGoing, CreatedIn, EndedIn, DeletedIn, Measure, TrialsOf;
    KeepsGoingWorks(job, w, es);
    BoundedWork(job, w, es);
  }
}
