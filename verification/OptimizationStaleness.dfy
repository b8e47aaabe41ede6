/** How far a stale listing can take the controller over its budget. */
module OptimizationStaleness {
  import opened Common
  import opened Conditions
  import opened OptimizationTypes
  import opened Suggestions
  import opened Trials
  import opened OptimizationController
  import opened OptimizationRuns
  import opened OptimizationProgress

  /** How many of the job's trials, and of its active ones, the listing does not account for. */
  function Unseen(job: OptimizationJob, w: World, items: seq<TrainJob>): (r: int)
  {
    var t := TallyOf(items, job.uid, TargetMetric(job.spec));
    |TrialsOf(w.jobs, job.uid)| - (t.active + t.succeeded + t.failed)
  }

  function UnseenActive(job: OptimizationJob, w: World, items: seq<TrainJob>): (r: int)
  {
    |KindOf(w.jobs, job.uid, Active)| - TallyOf(items, job.uid, TargetMetric(job.spec)).active
  }

  /** One reconcile on any listing: it stays where it is, or within the budgets plus what the
      listing does not account for. */
  lemma StaleReconcile(job: OptimizationJob, w: World, c: Calls)
    requires WellKept(w.jobs, job)
    ensures var w' := Next(job, w, Reconcile(c));
      && WellKept(w'.jobs, job)
      && (|TrialsOf(w'.jobs, job.uid)| == |TrialsOf(w.jobs, job.uid)| || (
            c.listing.Some? && |TrialsOf(w'.jobs, job.uid)| <= job.spec.numTrials + Unseen(job, w, c.listing.value)))
      && (|KindOf(w'.jobs, job.uid, Active)| == |KindOf(w.jobs, job.uid, Active)| || (
            c.listing.Some? && |KindOf(w'.jobs, job.uid, Active)| <= job.spec.parallelTrials + UnseenActive(job, w, c.listing.value)))
  {
    hide Reconciled, TallyOf, TrialsOf, KindOf, WellKept, Spawns;
    ReconcileSpawnsListed(job, w, c);
    SpawnCounts(job, w.jobs, Next(job, w, Reconcile(c)).jobs, ListedBudget(job, c));
  }

  /** A run in which no listing leaves more than lag trials, or lag active ones, unaccounted for. */
  ghost predicate IsLaggingRun(job: OptimizationJob, w: World, es: seq<Event>, lag: nat)
    decreases |es|
  {
    es == [] || (
      && Possible(job, w, es[0]) && Lags(job, w, es[0], lag)
      && IsLaggingRun(job, Next(job, w, es[0]), es[1..], lag))
  }

  ghost predicate Lags(job: OptimizationJob, w: World, e: Event, lag: nat)
  {
    e.Reconcile? && e.c.listing.Some? ==> Unseen(job, w, e.c.listing.value) <= lag && UnseenActive(job, w, e.c.listing.value) <= lag
  }

  /** Both budgets, exceeded by at most lag. */
  ghost predicate WithinLag(job: OptimizationJob, w: World, lag: nat)
  {
    && WellKept(w.jobs, job)
    && |TrialsOf(w.jobs, job.uid)| <= job.spec.numTrials + lag
    && |KindOf(w.jobs, job.uid, Active)| <= job.spec.parallelTrials + lag
  }

  lemma StepKeepsLag(job: OptimizationJob, w: World, e: Event, lag: nat)
    requires WithinLag(job, w, lag) && Possible(job, w, e) && Lags(job, w, e, lag)
    ensures WithinLag(job, Next(job, w, e), lag)
  {
    hide Next, TrialsOf, KindOf, WellKept, Unseen, UnseenActive;
    match e
    case Reconcile(c) => StaleReconcile(job, w, c);
    case Update(n, tj) =>
      UpdateCounts(job, w, n, tj);
      SubsetCount(KindOf(Next(job, w, e).jobs, job.uid, Active), KindOf(w.jobs, job.uid, Active));
    case Foreign(n, tj) => ForeignKeepsTrials(job, w, n, tj);
    case Delete(n) =>
      DeleteCounts(job, w, n);
      SubsetCount(TrialsOf(Next(job, w, e).jobs, job.uid), TrialsOf(w.jobs, job.uid));
      SubsetCount(KindOf(Next(job, w, e).jobs, job.uid, Active), KindOf(w.jobs, job.uid, Active));
  }

  /** Budget safety with a stale cache: over every run, the budgets are exceeded by at most what
      a listing can leave unaccounted for. */
  lemma {:induction false} BudgetSafetyWithLag(job: OptimizationJob, w: World, es: seq<Event>, lag: nat)
    requires WithinLag(job, w, lag) && IsLaggingRun(job, w, es, lag)
    ensures WithinLag(job, After(job, w, es), lag)
    decreases |es|
  {
    if es != [] {
      hide Next, WithinLag, Possible, Lags;
      StepKeepsLag(job, w, es[0], lag);
      BudgetSafetyWithLag(job, Next(job, w, es[0]), es[1..], lag);
    }
  }

  /** A fresh listing lags by nothing. */
  lemma FreshLagsByNothing(job: OptimizationJob, w: World, e: Event)
    requires WellKept(w.jobs, job) && Allowed(job, w, e)
    ensures Lags(job, w, e, 0)
  {
    if e.Reconcile? && e.c.listing.Some? {
      TallyIsExact(job, w, e.c.listing.value);
    }
  }

  /** The bound is reached: with an empty listing, a job for one trial whose calls succeed and
      whose drawn name is free adds a trial to any store, however full. */
  lemma StaleListingOverspawns(job: OptimizationJob, w: World, c: Calls)
    requires WellKept(w.jobs, job) && !Terminal(w.status) && job.spec.random
    requires job.spec.numTrials == 1 && job.spec.parallelTrials == 1
    requires c.listing == Some([]) && AllSucceed(c, 1) && NameAt(job, c, 0) !in w.jobs
    ensures var w' := Next(job, w, Reconcile(c));
      && |TrialsOf(w'.jobs, job.uid)| == |TrialsOf(w.jobs, job.uid)| + 1 == job.spec.numTrials + Unseen(job, w, [])
      && |KindOf(w'.jobs, job.uid, Active)| == |KindOf(w.jobs, job.uid, Active)| + 1 == job.spec.parallelTrials + UnseenActive(job, w, [])
  {
    var t := TallyOf([], job.uid, TargetMetric(job.spec));
    var w' := Next(job, w, Reconcile(c));
    EmptyTally(job.uid, TargetMetric(job.spec));
    EmptyScales(job, w, c, t);
    ReconcileSpawnsListed(job, w, c);
    hide Reconciled, TallyOf, TrialsOf, KindOf, WellKept, Spawns, NameAt, AllSucceed, Terminal, TargetMetric;
    SpawnCounts(job, w.jobs, w'.jobs, ListedBudget(job, c));
    assert w'.jobs.Keys - w.jobs.Keys == {NameAt(job, c, 0)};
  }

  lemma EmptyTally(uid: string, m: string)
    ensures TallyOf([], uid, m) == Tally([], [], 0, 0, 0, None)
  { }

  lemma EmptyDecides(spec: OptimizationSpec, st: Status, now: Time)
    requires !Terminal(st) && spec.random && spec.numTrials == 1 && spec.parallelTrials == 1
    ensures Decide(spec, Tally([], [], 0, 0, 0, None), st, now) == Scale(st)
    ensures ToSpawn(spec, Tally([], [], 0, 0, 0, None)) == 1
  {
    hide Announce, Terminal;
  }

  lemma EmptyScales(job: OptimizationJob, w: World, c: Calls, t: Tally)
    requires !Terminal(w.status) && job.spec.random && job.spec.numTrials == 1 && job.spec.parallelTrials == 1
    requires c.listing == Some([]) && AllSucceed(c, 1)
    requires t == TallyOf([], job.uid, TargetMetric(job.spec)) == Tally([], [], 0, 0, 0, None)
    ensures Reconciled(job, w, c).world.jobs.Keys == w.jobs.Keys + {NameAt(job, c, 0)}
  {
    hide TallyOf, Decide, CreateMany, NameAt, MarkCreated, Terminal, TargetMetric, ScaleUp, ToSpawn, TrialName;
    EmptyDecides(job.spec, w.status, c.now);
    assert Reconciled(job, w, c) == ScaleUp(job, w, t, w.status, c);
    ScaleUpSucceeds(job, w, t, w.status, c);
    CreateManyAll(job, w.jobs, c, 1);
    hide Reconciled;
    assert (set i: nat | i < 1 :: NameAt(job, c, i)) == {NameAt(job, c, 0)};
  }
}
