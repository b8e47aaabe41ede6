/** Every run of the OptimizationJob controller: reconciles with arbitrary API outcomes,
    interleaved with trials changing, other TrainJobs coming and going, and deletions. */
module OptimizationRuns {
  import opened Common
  import opened Conditions
  import opened OptimizationTypes
  import opened BestTrial
  import opened Suggestions
  import opened Trials
  import opened OptimizationController

  datatype Event =
    | Reconcile(c: Calls)
    | Update(name: string, tj: TrainJob)
    | Foreign(name: string, tj: TrainJob)
    | Delete(name: string)

  /** A TrainJob keeps its identity and stays finished once finished, and nobody else creates
      TrainJobs owned by this OptimizationJob. */
  ghost predicate Possible(job: OptimizationJob, w: World, e: Event)
  {
    match e
    case Reconcile(_) => true
    case Update(n, tj) =>
      n in w.jobs &&
      (var prior := w.jobs[n];
       tj.name == n && tj.owner == prior.owner && tj.created == prior.created && tj.env == prior.env &&
       (IsFinished(prior) ==> IsFinished(tj)))
    case Foreign(n, tj) =>
      tj.name == n && !Is(Owned(job.uid), tj) && (n in w.jobs ==> !Is(Owned(job.uid), w.jobs[n]))
    case Delete(_) => true
  }

  /** In addition, listings are fresh. */
  ghost predicate Allowed(job: OptimizationJob, w: World, e: Event)
  {
    Possible(job, w, e) && (e.Reconcile? && e.c.listing.Some? ==> FreshListing(e.c.listing.value, w.jobs, job.name))
  }

  function Next(job: OptimizationJob, w: World, e: Event): (r: World)
  {
    match e
    case Reconcile(c) => Reconciled(job, w, c).world
    case Update(n, tj) => w.(jobs := w.jobs[n := tj])
    case Foreign(n, tj) => w.(jobs := w.jobs[n := tj])
    case Delete(n) => w.(jobs := w.jobs - {n})
  }

  ghost predicate IsRun(job: OptimizationJob, w: World, es: seq<Event>)
    decreases |es|
  {
    es == [] || (Allowed(job, w, es[0]) && IsRun(job, Next(job, w, es[0]), es[1..]))
  }

  /** A run whose reconciles may work on any listing. */
  ghost predicate IsLooseRun(job: OptimizationJob, w: World, es: seq<Event>)
    decreases |es|
  {
    es == [] || (Possible(job, w, es[0]) && IsLooseRun(job, Next(job, w, es[0]), es[1..]))
  }

  lemma {:induction false} RunIsLoose(job: OptimizationJob, w: World, es: seq<Event>)
    requires IsRun(job, w, es)
    ensures IsLooseRun(job, w, es)
    decreases |es|
  {
    if es != [] {
      hide Next, Possible;
      RunIsLoose(job, Next(job, w, es[0]), es[1..]);
    }
  }

  /** The state a run ends in. Every prefix of a run is a run, so what is shown of the end
      of every run holds in every reachable state. */
  function After(job: OptimizationJob, w: World, es: seq<Event>): (r: World)
    decreases |es|
  {
    if es == [] then w else After(job, Next(job, w, es[0]), es[1..])
  }

  /** Announcing a condition makes it hold and leaves the others and the result alone. */
  lemma AnnounceHolds(st: Status, kind: string, reason: string, now: Time)
    ensures var r := Announce(st, kind, reason, now);
      && Holds(r.conditions, kind) && r.result == st.result
      && forall k :: k != kind ==> Holds(r.conditions, k) == Holds(st.conditions, k)
  {
    SetThenFind(st.conditions, Condition(kind, IsTrue, reason, "", ZERO_TIME), now);
  }

  // ---- what a reconcile may do to the store ----

  /** A trial of this job as it is created: no condition set yet. */
  predicate Unstarted(job: OptimizationJob, n: string, tj: TrainJob)
  {
    tj.name == n && tj.owner == Some(ControllerRef(job)) && tj.conditions == []
  }

  /** jobs' is jobs plus at most max unstarted trials of this job. */
  ghost predicate Spawns(job: OptimizationJob, jobs: map<string, TrainJob>, jobs': map<string, TrainJob>, max: int)
  {
    && (forall n :: n in jobs ==> n in jobs' && jobs'[n] == jobs[n])
    && (forall n :: n in jobs' && n !in jobs ==> Unstarted(job, n, jobs'[n]))
    && |jobs'| <= |jobs| + max
  }

  lemma SpawnsNothing(job: OptimizationJob, jobs: map<string, TrainJob>)
    ensures Spawns(job, jobs, jobs, 0)
  { }

  lemma SpawnOneMore(job: OptimizationJob, jobs: map<string, TrainJob>, mid: map<string, TrainJob>, n: string, tj: TrainJob, max: int)
    requires Spawns(job, jobs, mid, max) && Unstarted(job, n, tj)
    ensures Spawns(job, jobs, mid, max + 1)
    ensures n !in mid ==> Spawns(job, jobs, mid[n := tj], max + 1)
  { }

  lemma CreateOneStores(job: OptimizationJob, s: Stored, params: seq<Assignment>, call: CreateCall)
    ensures var tj, r := NewTrial(job, params, call), CreateOne(job, s, params, call);
      Unstarted(job, tj.name, tj) && (r.jobs == s.jobs || (tj.name !in s.jobs && r.jobs == s.jobs[tj.name := tj]))
  { }

  lemma CreateOneSpawns(job: OptimizationJob, jobs: map<string, TrainJob>, s: Stored, params: seq<Assignment>, call: CreateCall, max: int)
    requires Spawns(job, jobs, s.jobs, max)
    ensures Spawns(job, jobs, CreateOne(job, s, params, call).jobs, max + 1)
  {
    hide NewTrial, CreateOne, Unstarted, Spawns;
    var tj := NewTrial(job, params, call);
    CreateOneStores(job, s, params, call);
    SpawnOneMore(job, jobs, s.jobs, tj.name, tj, max);
  }

  lemma {:induction false} CreateManySpawns(job: OptimizationJob, jobs: map<string, TrainJob>, suggestions: seq<seq<Assignment>>,
                                            creation: nat -> CreateCall, n: nat)
    requires n <= |suggestions|
    ensures Spawns(job, jobs, CreateMany(job, jobs, suggestions, creation, n).jobs, n)
  {
    hide CreateOne, Spawns;
    if n == 0 {
      SpawnsNothing(job, jobs);
    } else {
      CreateManySpawns(job, jobs, suggestions, creation, n - 1);
      var before := CreateMany(job, jobs, suggestions, creation, n - 1);
      CreateOneSpawns(job, jobs, before, suggestions[n - 1], creation(n - 1), n - 1);
    }
  }

  lemma SpawnKeepsWellKept(job: OptimizationJob, jobs: map<string, TrainJob>, jobs': map<string, TrainJob>, max: int)
    requires WellKept(jobs, job) && Spawns(job, jobs, jobs', max)
    ensures WellKept(jobs', job)
  { }

  lemma AddedAreActive(job: OptimizationJob, jobs: map<string, TrainJob>, jobs': map<string, TrainJob>, max: int)
    requires Spawns(job, jobs, jobs', max)
    ensures forall n :: n in jobs'.Keys - jobs.Keys ==> Is(Owned(job.uid), jobs'[n]) && Is(Active, jobs'[n])
    ensures |jobs'.Keys - jobs.Keys| <= max
  { }

  /** How the counts move when trials are spawned. */
  lemma SpawnCounts(job: OptimizationJob, jobs: map<string, TrainJob>, jobs': map<string, TrainJob>, max: int)
    requires WellKept(jobs, job) && Spawns(job, jobs, jobs', max)
    ensures WellKept(jobs', job)
    ensures TrialsOf(jobs', job.uid) == TrialsOf(jobs, job.uid) + (jobs'.Keys - jobs.Keys)
    ensures KindOf(jobs', job.uid, Active) == KindOf(jobs, job.uid, Active) + (jobs'.Keys - jobs.Keys)
    ensures |TrialsOf(jobs', job.uid)| == |TrialsOf(jobs, job.uid)| + |jobs'.Keys - jobs.Keys|
    ensures |KindOf(jobs', job.uid, Active)| == |KindOf(jobs, job.uid, Active)| + |jobs'.Keys - jobs.Keys|
    ensures |jobs'.Keys - jobs.Keys| <= max
  {
    SpawnKeepsWellKept(job, jobs, jobs', max);
    AddedAreActive(job, jobs, jobs', max);
    hide *;
    MembersSpawned(job, jobs, jobs', jobs'.Keys - jobs.Keys);
    CountDisjoint(TrialsOf(jobs, job.uid), jobs'.Keys - jobs.Keys);
    CountDisjoint(KindOf(jobs, job.uid, Active), jobs'.Keys - jobs.Keys);
  }

  lemma MembersSpawned(job: OptimizationJob, jobs: map<string, TrainJob>, jobs': map<string, TrainJob>, added: set<string>)
    requires added == jobs'.Keys - jobs.Keys
    requires forall n :: n in jobs ==> n in jobs' && jobs'[n] == jobs[n]
    requires forall n :: n in added ==> Is(Owned(job.uid), jobs'[n]) && Is(Active, jobs'[n])
    ensures TrialsOf(jobs', job.uid) == TrialsOf(jobs, job.uid) + added
    ensures KindOf(jobs', job.uid, Active) == KindOf(jobs, job.uid, Active) + added
    ensures TrialsOf(jobs, job.uid) !! added && KindOf(jobs, job.uid, Active) !! added
  { }

  lemma CountDisjoint(a: set<string>, b: set<string>)
    requires a !! b
    ensures |a + b| == |a| + |b|
  { }

  function Budget(job: OptimizationJob, w: World): (r: int)
  {
    var free := job.spec.parallelTrials - |KindOf(w.jobs, job.uid, Active)|;
    var left := job.spec.numTrials - |TrialsOf(w.jobs, job.uid)|;
    var n := if free > left then left else free;
    if n > 0 then n else 0
  }

  /** The tally of a fresh listing against the store. */
  lemma TallyIsExact(job: OptimizationJob, w: World, items: seq<TrainJob>)
    requires WellKept(w.jobs, job) && FreshListing(items, w.jobs, job.name)
    ensures var t := TallyOf(items, job.uid, TargetMetric(job.spec));
      && t.active == |KindOf(w.jobs, job.uid, Active)|
      && t.succeeded == |KindOf(w.jobs, job.uid, Valid(TargetMetric(job.spec)))|
      && t.failed == |KindOf(w.jobs, job.uid, Broken(TargetMetric(job.spec)))|
      && t.active + t.succeeded + t.failed == |TrialsOf(w.jobs, job.uid)|
  {
    var m := TargetMetric(job.spec);
    CountersAreExact(items, w.jobs, job, Active);
    CountersAreExact(items, w.jobs, job, Valid(m));
    CountersAreExact(items, w.jobs, job, Broken(m));
    PickPartition(Pick(items, Owned(job.uid)), m);
  }

  /** Where the jobs of the next state come from. */
  lemma ReconciledJobs(job: OptimizationJob, w: World, c: Calls)
    ensures Reconciled(job, w, c).world.jobs == w.jobs || (
      && c.get == Found && c.listing.Some? && c.suggestions.Some?
      && var t := TallyOf(c.listing.value, job.uid, TargetMetric(job.spec));
         var n := ToSpawn(job.spec, t);
         0 < n <= |c.suggestions.value| && Decide(job.spec, t, w.status, c.now).Scale? &&
         Reconciled(job, w, c).world.jobs == CreateMany(job, w.jobs, c.suggestions.value, c.creation, n).jobs)
  {
    hide TallyOf, Decide, ToSpawn, CreateMany, ScaleUp;
    if c.get == Found && c.listing.Some? {
      var t := TallyOf(c.listing.value, job.uid, TargetMetric(job.spec));
      var d := Decide(job.spec, t, w.status, c.now);
      if d.Scale? {
        ScaleUpJobs(job, w, t, d.status, c);
      }
    }
  }

  lemma ScaleUpJobs(job: OptimizationJob, w: World, t: Tally, st: Status, c: Calls)
    ensures var n := ToSpawn(job.spec, t);
      ScaleUp(job, w, t, st, c).world.jobs == w.jobs || (
        c.suggestions.Some? && 0 < n <= |c.suggestions.value| &&
        ScaleUp(job, w, t, st, c).world.jobs == CreateMany(job, w.jobs, c.suggestions.value, c.creation, n).jobs)
  {
    hide CreateMany, Buildable, MarkCreated, ToSpawn;
  }

  /** How many trials the reconcile may add, going by the listing it works on. */
  function ListedBudget(job: OptimizationJob, c: Calls): (r: nat)
  {
    if c.listing.None? then 0
    else
      var n := ToSpawn(job.spec, TallyOf(c.listing.value, job.uid, TargetMetric(job.spec)));
      if n > 0 then n else 0
  }

  /** A reconcile never touches an existing TrainJob, and spawns within what its listing says. */
  lemma ReconcileSpawnsListed(job: OptimizationJob, w: World, c: Calls)
    ensures Spawns(job, w.jobs, Reconciled(job, w, c).world.jobs, ListedBudget(job, c))
  {
    ReconciledJobs(job, w, c);
    hide Reconciled, TallyOf, ToSpawn, CreateMany, Decide, Unstarted;
    if Reconciled(job, w, c).world.jobs != w.jobs {
      CreateManySpawns(job, w.jobs, c.suggestions.value, c.creation, ListedBudget(job, c));
    }
  }

  /** With a fresh listing it spawns within both budgets. */
  lemma ReconcileSpawns(job: OptimizationJob, w: World, c: Calls)
    requires WellKept(w.jobs, job) && Allowed(job, w, Reconcile(c))
    ensures Spawns(job, w.jobs, Reconciled(job, w, c).world.jobs, Budget(job, w))
  {
    ReconcileSpawnsListed(job, w, c);
    if c.listing.Some? {
      TallyIsExact(job, w, c.listing.value);
    }
    hide Reconciled, TallyOf, WellKept, TrialsOf, KindOf, FreshListing, Unstarted;
  }

  // ---- budget safety ----

  ghost predicate WithinBudget(job: OptimizationJob, w: World)
  {
    && WellKept(w.jobs, job)
    && |TrialsOf(w.jobs, job.uid)| <= job.spec.numTrials
    && |KindOf(w.jobs, job.uid, Active)| <= job.spec.parallelTrials
  }

  lemma SubsetCount(a: set<string>, b: set<string>)
    requires a <= b
    ensures |a| <= |b|
  {
    assert b == a + (b - a);
  }

  lemma UpdateCounts(job: OptimizationJob, w: World, n: string, tj: TrainJob)
    requires WellKept(w.jobs, job) && Allowed(job, w, Update(n, tj))
    ensures var w' := Next(job, w, Update(n, tj));
      && WellKept(w'.jobs, job)
      && TrialsOf(w'.jobs, job.uid) == TrialsOf(w.jobs, job.uid)
      && KindOf(w'.jobs, job.uid, Active) == KindOf(w.jobs, job.uid, Active) - (if IsFinished(tj) then {n} else {})
  {
    hide FinalObjective, Holds;
    var w' := Next(job, w, Update(n, tj));
    assert TrialsOf(w'.jobs, job.uid) == TrialsOf(w.jobs, job.uid);
  }

  lemma ReconcileKeepsBudget(job: OptimizationJob, w: World, c: Calls)
    requires WithinBudget(job, w) && Allowed(job, w, Reconcile(c))
    ensures WithinBudget(job, Next(job, w, Reconcile(c)))
  {
    hide Reconciled, TrialsOf, KindOf, Spawns, WellKept;
    ReconcileSpawns(job, w, c);
    SpawnCounts(job, w.jobs, Reconciled(job, w, c).world.jobs, Budget(job, w));
  }

  lemma ForeignKeepsTrials(job: OptimizationJob, w: World, n: string, tj: TrainJob)
    requires WellKept(w.jobs, job) && Allowed(job, w, Foreign(n, tj))
    ensures var w' := Next(job, w, Foreign(n, tj));
      && WellKept(w'.jobs, job)
      && TrialsOf(w'.jobs, job.uid) == TrialsOf(w.jobs, job.uid)
      && forall k :: KindOf(w'.jobs, job.uid, k) == KindOf(w.jobs, job.uid, k)
  {
    hide FinalObjective, Holds;
    var w' := Next(job, w, Foreign(n, tj));
    assert TrialsOf(w'.jobs, job.uid) == TrialsOf(w.jobs, job.uid);
    forall k ensures KindOf(w'.jobs, job.uid, k) == KindOf(w.jobs, job.uid, k) { }
  }

  lemma DeleteKeepsBudget(job: OptimizationJob, w: World, n: string)
    requires WithinBudget(job, w)
    ensures WithinBudget(job, Next(job, w, Delete(n)))
  {
    hide Is;
    var w' := Next(job, w, Delete(n));
    SubsetCount(TrialsOf(w'.jobs, job.uid), TrialsOf(w.jobs, job.uid));
    SubsetCount(KindOf(w'.jobs, job.uid, Active), KindOf(w.jobs, job.uid, Active));
  }

  lemma StepKeepsBudget(job: OptimizationJob, w: World, e: Event)
    requires WithinBudget(job, w) && Allowed(job, w, e)
    ensures WithinBudget(job, Next(job, w, e))
  {
    hide Next, Allowed, TrialsOf, KindOf, WellKept;
    match e
    case Reconcile(c) => ReconcileKeepsBudget(job, w, c);
    case Update(n, tj) =>
      UpdateCounts(job, w, n, tj);
      SubsetCount(KindOf(Next(job, w, e).jobs, job.uid, Active), KindOf(w.jobs, job.uid, Active));
    case Foreign(n, tj) => ForeignKeepsTrials(job, w, n, tj);
    case Delete(n) => DeleteKeepsBudget(job, w, n);
  }

  lemma KindsPartition(job: OptimizationJob, w: World)
    ensures var m := TargetMetric(job.spec);
      |TrialsOf(w.jobs, job.uid)| == |KindOf(w.jobs, job.uid, Active)| + |KindOf(w.jobs, job.uid, Valid(m))|
                                     + |KindOf(w.jobs, job.uid, Broken(m))|
  {
    KindsSplit(w.jobs, job.uid, TargetMetric(job.spec));
    hide TrialsOf, KindOf, TargetMetric;
  }

  lemma KindsSplit(jobs: map<string, TrainJob>, uid: string, m: string)
    ensures var a, v, b := KindOf(jobs, uid, Active), KindOf(jobs, uid, Valid(m)), KindOf(jobs, uid, Broken(m));
      TrialsOf(jobs, uid) == a + v + b && a !! v && (a + v) !! b
  {
    forall tj ensures Is(Active, tj) == !(Is(Valid(m), tj) || Is(Broken(m), tj)) && !(Is(Valid(m), tj) && Is(Broken(m), tj)) {
      hide FinalObjective, Holds, IsFinished;
    }
    hide Is;
  }

  /** A namespace before the job has any trial. */
  ghost predicate Initial(job: OptimizationJob, w: World)
  {
    WellKept(w.jobs, job) && TrialsOf(w.jobs, job.uid) == {} && w.status == Status([], None)
  }

  /** In every run the job owns at most NumTrials trials and at most ParallelTrials of them
      are active, and each trial is counted once. */
  lemma {:induction false} BudgetSafety(job: OptimizationJob, w: World, es: seq<Event>)
    requires WithinBudget(job, w) && IsRun(job, w, es)
    ensures WithinBudget(job, After(job, w, es))
    ensures var w', m := After(job, w, es), TargetMetric(job.spec);
      |TrialsOf(w'.jobs, job.uid)| == |KindOf(w'.jobs, job.uid, Active)| + |KindOf(w'.jobs, job.uid, Valid(m))|
                                      + |KindOf(w'.jobs, job.uid, Broken(m))|
    decreases |es|
  {
    hide Next, TrialsOf, KindOf;
    KindsPartition(job, After(job, w, es));
    if es != [] {
      StepKeepsBudget(job, w, es[0]);
      BudgetSafety(job, Next(job, w, es[0]), es[1..]);
    }
  }

  lemma InitialIsWithinBudget(job: OptimizationJob, w: World)
    requires Initial(job, w) && 0 <= job.spec.numTrials && 0 <= job.spec.parallelTrials
    ensures WithinBudget(job, w)
  {
    assert KindOf(w.jobs, job.uid, Active) <= TrialsOf(w.jobs, job.uid);
    SubsetCount(KindOf(w.jobs, job.uid, Active), TrialsOf(w.jobs, job.uid));
  }
}
