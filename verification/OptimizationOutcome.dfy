/** How an OptimizationJob ends, and what its result is worth. */
module OptimizationOutcome {
  import opened Common
  import opened Conditions
  import opened OptimizationTypes
  import opened Parameters
  import opened BestTrial
  import opened Trials
  import opened OptimizationController
  import opened OptimizationRuns

  ghost predicate NotBoth(st: Status)
  {
    !(Holds(st.conditions, COMPLETE) && Holds(st.conditions, FAILED))
  }

  /** What the decision does to the status, and on what evidence it declares success. */
  lemma DecisionFacts(spec: OptimizationSpec, t: Tally, st: Status, now: Time)
    ensures var d := Decide(spec, t, st, now);
      && d.status.result == TrackBest(spec, t.valid, st).result
      && (d.Cleanup? <==> Terminal(st))
      && (!d.Halt? ==> d.status.conditions == st.conditions)
      && (NotBoth(st) ==> NotBoth(d.status))
      && (Holds(d.status.conditions, COMPLETE) && !Holds(st.conditions, COMPLETE) ==>
            t.failed <= 0 && t.active == 0 && t.active + t.succeeded + t.failed >= spec.numTrials)
  {
    var best := TrackBest(spec, t.valid, st);
    assert best.conditions == st.conditions;
    hide TrackBest, MetricReason, Announce, Holds;
    AnnounceHolds(best, FAILED, MetricReason(t.unmeasured.GetOr(TrainJob("", None, 0, None, [], None)), TargetMetric(spec)), now);
    AnnounceHolds(best, FAILED, "TrialFailed", now);
    AnnounceHolds(best, FAILED, "UnsupportedSearchAlgorithm", now);
    AnnounceHolds(best, COMPLETE, "OptimizationJobCompleted", now);
  }

  lemma MarkCreatedFacts(st: Status, now: Time)
    ensures var r := MarkCreated(st, now);
      && r.result == st.result
      && forall k :: k != CREATED ==> Holds(r.conditions, k) == Holds(st.conditions, k)
  {
    hide Announce, Holds;
    AnnounceHolds(st, CREATED, "AlgorithmServiceCreated", now);
  }

  /** The status a reconcile leaves: the old one, or what it decided. */
  lemma ReconciledStatus(job: OptimizationJob, w: World, c: Calls)
    ensures var st := Reconciled(job, w, c).world.status;
      st == w.status || (
        c.get == Found && c.listing.Some? &&
        var d := Decide(job.spec, TallyOf(c.listing.value, job.uid, TargetMetric(job.spec)), w.status, c.now);
        st == d.status || (d.Scale? && st == MarkCreated(d.status, c.now)))
  {
    hide TallyOf, Decide, MarkCreated, ToSpawn, Spawn;
  }

  // ---- terminal states absorb ----

  lemma TerminalReconcile(job: OptimizationJob, w: World, c: Calls)
    requires Terminal(w.status)
    ensures var w' := Reconciled(job, w, c).world;
      && w'.jobs == w.jobs && w'.status.conditions == w.status.conditions
      && (w'.deployment ==> w.deployment) && (w'.service ==> w.service)
  {
    hide TallyOf, Decide, TrackBest, Terminal, ScaleUp, TargetMetric, Patch, RemoveService, Announce, MarkCreated;
    if c.get == Found && c.listing.Some? {
      var d := Decide(job.spec, TallyOf(c.listing.value, job.uid, TargetMetric(job.spec)), w.status, c.now);
      DecisionFacts(job.spec, TallyOf(c.listing.value, job.uid, TargetMetric(job.spec)), w.status, c.now);
      CleanupOnly(w, d.status, c);
      hide NotBoth, Finished;
    }
  }

  /** Cleaning up takes only from the store, and patches only the status it is given. */
  lemma CleanupOnly(w: World, st: Status, c: Calls)
    ensures var w' := Patch(RemoveService(w, c), st, c).world;
      && w'.jobs == w.jobs && (w'.status == w.status || w'.status == st)
      && (w'.deployment ==> w.deployment) && (w'.service ==> w.service)
  { }

  /** Once Complete or Failed is stored, no run creates another trial, touches a condition or
      brings the search service back, however stale its listings; only the best result may
      still move. */
  lemma {:induction false} TerminalAbsorbs(job: OptimizationJob, w: World, es: seq<Event>)
    requires WellKept(w.jobs, job) && Terminal(w.status) && IsLooseRun(job, w, es)
    ensures var w' := After(job, w, es);
      && w'.status.conditions == w.status.conditions
      && TrialsOf(w'.jobs, job.uid) <= TrialsOf(w.jobs, job.uid)
      && (w'.deployment ==> w.deployment) && (w'.service ==> w.service)
    decreases |es|
  {
    if es != [] {
      TerminalStep(job, w, es[0]);
      hide Next, Possible, TrialsOf, WellKept;
      TerminalAbsorbs(job, Next(job, w, es[0]), es[1..]);
    }
  }

  /** A reconcile of a terminal job that gets as far as its two deletions, and whose deletions
      go through, leaves neither Deployment nor Service, now and after any later run. */
  lemma TerminalCleansUp(job: OptimizationJob, w: World, c: Calls, es: seq<Event>)
    requires WellKept(w.jobs, job) && Terminal(w.status) && IsLooseRun(job, w, [Reconcile(c)] + es)
    requires c.get == Found && c.listing.Some? && c.deleteDeployment.Accepted? && c.deleteService.Takes()
    ensures var w' := After(job, w, [Reconcile(c)] + es); !w'.deployment && !w'.service
  {
    assert ([Reconcile(c)] + es)[1..] == es;
    var next := Next(job, w, Reconcile(c));
    TerminalStep(job, w, Reconcile(c));
    CleanupGoesThrough(job, w, c);
    hide Reconciled, Possible, WellKept;
    TerminalAbsorbs(job, next, es);
  }

  /** What a terminal reconcile does to the search service: the Deployment goes if its deletion
      takes, and the Service if the former was accepted and its own takes. */
  lemma CleanupIsExact(job: OptimizationJob, w: World, c: Calls)
    requires Terminal(w.status)
    ensures var w', reached := Reconciled(job, w, c).world, c.get == Found && c.listing.Some?;
      && (w'.deployment <==> w.deployment && !(reached && c.deleteDeployment.Takes()))
      && (w'.service <==> w.service && !(reached && c.deleteDeployment.Accepted? && c.deleteService.Takes()))
  {
    hide TallyOf, Decide, TrackBest, ScaleUp, TargetMetric, NotBoth, Terminal, Holds, Patch, RemoveService;
    if c.get == Found && c.listing.Some? {
      var d := Decide(job.spec, TallyOf(c.listing.value, job.uid, TargetMetric(job.spec)), w.status, c.now);
      DecisionFacts(job.spec, TallyOf(c.listing.value, job.uid, TargetMetric(job.spec)), w.status, c.now);
      CleanupEffect(w, d.status, c);
    }
  }

  lemma CleanupEffect(w: World, st: Status, c: Calls)
    ensures var w' := Patch(RemoveService(w, c), st, c).world;
      && (w'.deployment <==> w.deployment && !c.deleteDeployment.Takes())
      && (w'.service <==> w.service && !(c.deleteDeployment.Accepted? && c.deleteService.Takes()))
  { }

  lemma CleanupGoesThrough(job: OptimizationJob, w: World, c: Calls)
    requires Terminal(w.status) && c.get == Found && c.listing.Some?
    requires c.deleteDeployment.Accepted? && c.deleteService.Takes()
    ensures var w' := Reconciled(job, w, c).world; !w'.deployment && !w'.service && Terminal(w'.status)
  {
    DecisionFacts(job.spec, TallyOf(c.listing.value, job.uid, TargetMetric(job.spec)), w.status, c.now);
    hide TallyOf, Decide, TrackBest, ScaleUp, TargetMetric;
  }

  lemma TerminalStep(job: OptimizationJob, w: World, e: Event)
    requires WellKept(w.jobs, job) && Terminal(w.status) && Possible(job, w, e)
    ensures var w' := Next(job, w, e);
      && WellKept(w'.jobs, job)
      && w'.status.conditions == w.status.conditions
      && TrialsOf(w'.jobs, job.uid) <= TrialsOf(w.jobs, job.uid)
      && (w'.deployment ==> w.deployment) && (w'.service ==> w.service)
  {
    hide Reconciled, Is;
    match e
    case Reconcile(c) => TerminalReconcile(job, w, c);
    case Update(n, tj) => UpdateCounts(job, w, n, tj);
    case Foreign(n, tj) => ForeignKeepsTrials(job, w, n, tj);
    case Delete(n) =>
  }

  lemma ReconcileKeepsNotBoth(job: OptimizationJob, w: World, c: Calls)
    requires NotBoth(w.status)
    ensures NotBoth(Reconciled(job, w, c).world.status)
  {
    ReconciledStatus(job, w, c);
    if c.get == Found && c.listing.Some? {
      var t := TallyOf(c.listing.value, job.uid, TargetMetric(job.spec));
      hide TallyOf, Decide, Reconciled, MarkCreated, TrackBest;
      DecisionFacts(job.spec, t, w.status, c.now);
      MarkCreatedFacts(Decide(job.spec, t, w.status, c.now).status, c.now);
    }
  }

  /** Complete and Failed are never both true, whatever happens. */
  lemma {:induction false} NeverBoth(job: OptimizationJob, w: World, es: seq<Event>)
    requires NotBoth(w.status)
    ensures NotBoth(After(job, w, es).status)
    decreases |es|
  {
    if es != [] {
      if es[0].Reconcile? {
        ReconcileKeepsNotBoth(job, w, es[0].c);
      }
      hide Reconciled, NotBoth;
      NeverBoth(job, Next(job, w, es[0]), es[1..]);
    }
  }

  // ---- what Complete stands for ----

  /** A reconcile that turns Complete on does so only when at least NumTrials trials exist and
      every one of them succeeded with a valid metric. */
  lemma CompleteIsEarned(job: OptimizationJob, w: World, c: Calls)
    requires WellKept(w.jobs, job) && Allowed(job, w, Reconcile(c))
    requires !Holds(w.status.conditions, COMPLETE) && Holds(Reconciled(job, w, c).world.status.conditions, COMPLETE)
    ensures c.get == Found && c.listing.Some?
    ensures Reconciled(job, w, c).world.jobs == w.jobs
    ensures Reconciled(job, w, c).world.status ==
            Decide(job.spec, TallyOf(c.listing.value, job.uid, TargetMetric(job.spec)), w.status, c.now).status
    ensures |TrialsOf(w.jobs, job.uid)| >= job.spec.numTrials
    ensures TrialsOf(w.jobs, job.uid) == KindOf(w.jobs, job.uid, Valid(TargetMetric(job.spec)))
  {
    ReconciledStatus(job, w, c);
    ReconciledJobs(job, w, c);
    var t := TallyOf(c.listing.value, job.uid, TargetMetric(job.spec));
    TallyIsExact(job, w, c.listing.value);
    hide TallyOf, Decide, Reconciled, MarkCreated, TrackBest, TrialsOf, KindOf, WellKept, TargetMetric, CreateMany;
    DecisionFacts(job.spec, t, w.status, c.now);
    MarkCreatedFacts(Decide(job.spec, t, w.status, c.now).status, c.now);
    ValidAreTrials(w.jobs, job.uid, TargetMetric(job.spec));
    SameSize(KindOf(w.jobs, job.uid, Valid(TargetMetric(job.spec))), TrialsOf(w.jobs, job.uid));
  }

  lemma ValidAreTrials(jobs: map<string, TrainJob>, uid: string, m: string)
    ensures KindOf(jobs, uid, Valid(m)) <= TrialsOf(jobs, uid)
  { }

  lemma SameSize(a: set<string>, b: set<string>)
    requires a <= b && |a| >= |b|
    ensures a == b
  {
    assert b == a + (b - a);
  }

  // ---- the best result over runs ----

  /** The valid trials of the job, by name. */
  function ValidTrials(job: OptimizationJob, w: World): (r: set<string>)
  {
    KindOf(w.jobs, job.uid, Valid(TargetMetric(job.spec)))
  }

  /** tj' is what tj was created as, still valid, and its final value is the same. */
  ghost predicate Settled(metric: string, tj: TrainJob, tj': TrainJob)
  {
    && tj'.name == tj.name && tj'.owner == tj.owner && tj'.created == tj.created && tj'.env == tj.env
    && Is(Valid(metric), tj) && Is(Valid(metric), tj')
    && FinalObjective(tj', metric).number == FinalObjective(tj, metric).number
  }

  /** Trials that succeeded with a metric stay, and keep their final value. Anything may happen
      to the others, and to the rest of a valid trial's status. */
  ghost predicate Steady(job: OptimizationJob, w: World, e: Event)
  {
    match e
    case Reconcile(_) => true
    case Foreign(_, _) => true
    case Update(n, tj) => n in ValidTrials(job, w) ==> Settled(TargetMetric(job.spec), w.jobs[n], tj)
    case Delete(n) => n !in ValidTrials(job, w)
  }

  ghost predicate IsSteadyRun(job: OptimizationJob, w: World, es: seq<Event>)
    decreases |es|
  {
    es == [] ||
    (Allowed(job, w, es[0]) && Steady(job, w, es[0]) && IsSteadyRun(job, Next(job, w, es[0]), es[1..]))
  }

  /** Every valid trial of w is in w', settled. */
  ghost predicate KeepsValid(job: OptimizationJob, w: World, w': World)
  {
    forall n :: n in ValidTrials(job, w) ==> n in w'.jobs && Settled(TargetMetric(job.spec), w.jobs[n], w'.jobs[n])
  }

  lemma StaysSettled(metric: string, tj: TrainJob)
    requires Is(Valid(metric), tj)
    ensures Settled(metric, tj, tj)
  { }

  lemma StepKeepsValid(job: OptimizationJob, w: World, e: Event)
    requires WellKept(w.jobs, job) && Allowed(job, w, e) && Steady(job, w, e)
    ensures KeepsValid(job, w, Next(job, w, e)) && WellKept(Next(job, w, e).jobs, job)
  {
    hide Reconciled, IsFinished, ControllerRef, Is, Settled, TargetMetric;
    match e {
      case Reconcile(c) =>
        ReconcileSpawns(job, w, c);
        hide Budget;
        SpawnKeepsWellKept(job, w.jobs, Next(job, w, e).jobs, Budget(job, w));
      case Update(n, tj) => UpdateCounts(job, w, n, tj);
      case Foreign(n, tj) => ForeignKeepsTrials(job, w, n, tj);
      case Delete(n) =>
    }
    forall n | n in ValidTrials(job, w)
      ensures n in Next(job, w, e).jobs && Settled(TargetMetric(job.spec), w.jobs[n], Next(job, w, e).jobs[n])
    {
      StaysSettled(TargetMetric(job.spec), w.jobs[n]);
    }
  }

  lemma KeepsValidTransitive(job: OptimizationJob, a: World, b: World, c: World)
    requires KeepsValid(job, a, b) && KeepsValid(job, b, c)
    ensures KeepsValid(job, a, c)
  {
    forall n | n in ValidTrials(job, a) ensures n in c.jobs && Settled(TargetMetric(job.spec), a.jobs[n], c.jobs[n]) {
      ValidKept(job, a, b, n);
      hide FinalObjective, Holds;
    }
  }

  lemma {:induction false} RunKeepsValid(job: OptimizationJob, w: World, es: seq<Event>)
    requires WellKept(w.jobs, job) && IsSteadyRun(job, w, es)
    ensures KeepsValid(job, w, After(job, w, es))
    decreases |es|
  {
    if es != [] {
      hide Next, Allowed, Steady, WellKept;
      StepKeepsValid(job, w, es[0]);
      RunKeepsValid(job, Next(job, w, es[0]), es[1..]);
      KeepsValidTransitive(job, w, Next(job, w, es[0]), After(job, w, es));
    }
  }

  /** The one objective is named and its direction is one the API admits. */
  predicate HasObjective(spec: OptimizationSpec)
  {
    |spec.objectives| > 0 && spec.objectives[0].metric != "" && ValidDirection(spec.objectives[0].direction)
  }

  function Direction(spec: OptimizationSpec): (r: string)
  {
    if |spec.objectives| > 0 then spec.objectives[0].direction else ""
  }

  /** Trial b is at least as good as trial a, in numbers. */
  ghost predicate AtLeast(job: OptimizationJob, w: World, b: string, a: string)
  {
    a in ValidTrials(job, w) && b in ValidTrials(job, w) && |job.spec.objectives| > 0 &&
    NoWorseThan(job.spec.objectives[0].metric, job.spec.objectives[0].direction, w.jobs[b], w.jobs[a])
  }

  lemma AtLeastMeans(job: OptimizationJob, w: World, b: string, a: string)
    requires HasObjective(job.spec) && a in ValidTrials(job, w) && b in ValidTrials(job, w)
    ensures AtLeast(job, w, b, a) <==> !Beats(TargetMetric(job.spec), Direction(job.spec), w.jobs[a], w.jobs[b])
  {
    NoWorseMeaning(TargetMetric(job.spec), Direction(job.spec), w.jobs[b], w.jobs[a]);
    hide NoWorseThan, Beats, FinalObjective;
  }

  /** A stored result is the report of a valid trial. */
  ghost predicate Reports(job: OptimizationJob, w: World)
  {
    w.status.result.Some? ==>
      w.status.result.value.trainJobName in ValidTrials(job, w) &&
      w.status.result.value == ResultFor(w.jobs[w.status.result.value.trainJobName])
  }

  /** The stored result is at least as good as every valid trial. */
  ghost predicate ReportsOptimum(job: OptimizationJob, w: World)
  {
    w.status.result.Some? &&
    forall n :: n in ValidTrials(job, w) ==> AtLeast(job, w, w.status.result.value.trainJobName, n)
  }

  /** The tracked result over a fresh listing is the optimum of the store. */
  lemma TrackedIsOptimum(job: OptimizationJob, w: World, items: seq<TrainJob>)
    requires WellKept(w.jobs, job) && FreshListing(items, w.jobs, job.name) && HasObjective(job.spec)
    ensures var t := TallyOf(items, job.uid, TargetMetric(job.spec));
      var st := TrackBest(job.spec, t.valid, w.status);
      && (ValidTrials(job, w) == {} ==> st.result == w.status.result)
      && (ValidTrials(job, w) != {} ==> ReportsOptimum(job, w.(status := st)) && Reports(job, w.(status := st)))
  {
    var m := TargetMetric(job.spec);
    var owned := Pick(items, Owned(job.uid));
    var valid := Pick(owned, Valid(m));
    ListedTrials(items, w.jobs, job);
    PickMembers(owned, Valid(m));
    hide Pick, FinalObjective, IndexedUnder, ResultFor, ControllerRef, TargetMetric;
    forall n ensures n in ValidTrials(job, w) <==> n in w.jobs && w.jobs[n] in valid {
      assert n in w.jobs ==> w.jobs[n].name == n;
    }
    if valid != [] {
      assert valid[0] in valid;
      TrackedFromList(job, w, valid);
    }
  }

  lemma TrackedFromList(job: OptimizationJob, w: World, valid: seq<TrainJob>)
    requires HasObjective(job.spec) && valid != []
    requires forall tj :: tj in valid <==> tj.name in ValidTrials(job, w) && w.jobs[tj.name] == tj
    requires forall n :: n in w.jobs ==> w.jobs[n].name == n
    ensures var st := TrackBest(job.spec, valid, w.status);
      ReportsOptimum(job, w.(status := st)) && Reports(job, w.(status := st))
  {
    var m, dir := TargetMetric(job.spec), Direction(job.spec);
    var st := TrackBest(job.spec, valid, w.status);
    var w' := w.(status := st);
    assert valid[0] in valid && HasMetric(valid[0], m);
    BestIsOptimum(m, dir, valid);
    var b := Best(m, dir, valid).value;
    assert st.result == Some(ResultFor(b));
    assert b in valid;
    hide Best, FinalObjective, TrackBest, NoWorseThan;
    forall n | n in ValidTrials(job, w') ensures AtLeast(job, w', b.name, n) {
      assert w.jobs[n] in valid;
      AtLeastMeans(job, w', b.name, n);
    }
  }

  /** w' has a result if w has, and a result at least as good. */
  ghost predicate NoWorse(job: OptimizationJob, w: World, w': World)
  {
    w.status.result.Some? ==>
      w'.status.result.Some? &&
      AtLeast(job, w', w'.status.result.value.trainJobName, w.status.result.value.trainJobName)
  }

  lemma ValidKept(job: OptimizationJob, w: World, w': World, n: string)
    requires KeepsValid(job, w, w') && n in ValidTrials(job, w)
    ensures n in ValidTrials(job, w') && Settled(TargetMetric(job.spec), w.jobs[n], w'.jobs[n])
    ensures ResultFor(w'.jobs[n]) == ResultFor(w.jobs[n])
  {
    hide FinalObjective, Holds, Decode, TargetMetric;
  }

  lemma AtLeastKept(job: OptimizationJob, w: World, w': World, b: string, a: string)
    requires HasObjective(job.spec) && KeepsValid(job, w, w') && AtLeast(job, w, b, a)
    ensures AtLeast(job, w', b, a)
  {
    ValidKept(job, w, w', a);
    ValidKept(job, w, w', b);
    AtLeastMeans(job, w, b, a);
    AtLeastMeans(job, w', b, a);
    hide FinalObjective, Holds, TargetMetric, ResultFor, KeepsValid, ValidTrials, AtLeast;
  }

  lemma AtLeastReflexive(job: OptimizationJob, w: World, a: string)
    requires HasObjective(job.spec) && a in ValidTrials(job, w)
    ensures AtLeast(job, w, a, a)
  {
    AtLeastMeans(job, w, a, a);
    BeatsIrreflexive(TargetMetric(job.spec), Direction(job.spec), w.jobs[a]);
  }

  lemma AtLeastTransitive(job: OptimizationJob, w: World, c: string, b: string, a: string)
    requires HasObjective(job.spec) && AtLeast(job, w, c, b) && AtLeast(job, w, b, a)
    ensures AtLeast(job, w, c, a)
  {
    AtLeastMeans(job, w, c, b);
    AtLeastMeans(job, w, b, a);
    AtLeastMeans(job, w, c, a);
    NotBeatenTransitive(TargetMetric(job.spec), Direction(job.spec), w.jobs[c], w.jobs[b], w.jobs[a]);
    hide AtLeast, Beats, FinalObjective;
  }

  /** The result after a reconcile is the old one or the tracked one. */
  lemma ReconciledResult(job: OptimizationJob, w: World, c: Calls)
    ensures var r := Reconciled(job, w, c).world.status.result;
      r == w.status.result || (
        c.listing.Some? &&
        r == TrackBest(job.spec, TallyOf(c.listing.value, job.uid, TargetMetric(job.spec)).valid, w.status).result)
  {
    ReconciledStatus(job, w, c);
    hide TallyOf, Decide, Reconciled, MarkCreated, TrackBest, TargetMetric;
    if c.get == Found && c.listing.Some? {
      var t := TallyOf(c.listing.value, job.uid, TargetMetric(job.spec));
      DecisionFacts(job.spec, t, w.status, c.now);
      MarkCreatedFacts(Decide(job.spec, t, w.status, c.now).status, c.now);
    }
  }

  /** When nothing but the store moved, the stored report stays what it was. */
  lemma SameResultKept(job: OptimizationJob, w: World, w': World)
    requires HasObjective(job.spec) && KeepsValid(job, w, w') && Reports(job, w) && w'.status.result == w.status.result
    ensures Reports(job, w') && NoWorse(job, w, w')
  {
    hide ResultFor, KeepsValid, ValidTrials, NoWorseThan, HasObjective;
    if w.status.result.Some? {
      var n := w.status.result.value.trainJobName;
      ValidKept(job, w, w', n);
      AtLeastReflexive(job, w', n);
    }
  }

  /** A new optimum over the old store is no worse than any report of that store. */
  lemma NewOptimumKept(job: OptimizationJob, w: World, mid: World, w': World)
    requires HasObjective(job.spec)
    requires KeepsValid(job, w, w') && Reports(job, w) && mid.jobs == w.jobs && w'.status.result == mid.status.result
    requires ReportsOptimum(job, mid) && Reports(job, mid)
    ensures Reports(job, w') && NoWorse(job, w, w')
  {
    hide ResultFor, KeepsValid, NoWorseThan, HasObjective;
    var b := mid.status.result.value.trainJobName;
    ValidKept(job, w, w', b);
    if w.status.result.Some? {
      var a := w.status.result.value.trainJobName;
      assert a in ValidTrials(job, mid);
      assert AtLeast(job, mid, b, a);
      assert AtLeast(job, w, b, a);
      AtLeastKept(job, w, w', b, a);
    }
  }

  lemma StepNoWorse(job: OptimizationJob, w: World, e: Event)
    requires WellKept(w.jobs, job) && Allowed(job, w, e) && Steady(job, w, e) && HasObjective(job.spec) && Reports(job, w)
    ensures Reports(job, Next(job, w, e)) && NoWorse(job, w, Next(job, w, e))
  {
    var w' := Next(job, w, e);
    StepKeepsValid(job, w, e);
    if w'.status.result == w.status.result {
      hide KeepsValid, Next;
      SameResultKept(job, w, w');
    } else {
      ReconciledResult(job, w, e.c);
      TrackedIsOptimum(job, w, e.c.listing.value);
      hide Reconciled, KeepsValid, Reports, TallyOf, NoWorse, ReportsOptimum, ValidTrials, WellKept, TrackBest, HasObjective;
      var t := TallyOf(e.c.listing.value, job.uid, TargetMetric(job.spec));
      NewOptimumKept(job, w, w.(status := TrackBest(job.spec, t.valid, w.status)), w');
    }
  }

  /** While valid trials stay and keep their final value, the stored result never gets worse in the
      order (value, creation time, name), over any run. */
  lemma {:induction false} BestNeverWorse(job: OptimizationJob, w: World, es: seq<Event>)
    requires WellKept(w.jobs, job) && IsSteadyRun(job, w, es) && HasObjective(job.spec) && Reports(job, w)
    ensures Reports(job, After(job, w, es)) && NoWorse(job, w, After(job, w, es))
    decreases |es|
  {
    hide Next, Allowed, Steady, WellKept, KeepsValid, Reports, ValidTrials, NoWorseThan, HasObjective;
    if es == [] {
      assert KeepsValid(job, w, w) by { RunKeepsValid(job, w, []); }
      SameResultKept(job, w, w);
    } else {
      var mid, w' := Next(job, w, es[0]), After(job, w, es);
      StepKeepsValid(job, w, es[0]);
      StepNoWorse(job, w, es[0]);
      BestNeverWorse(job, mid, es[1..]);
      RunKeepsValid(job, mid, es[1..]);
      if w.status.result.Some? {
        var a, b := w.status.result.value.trainJobName, mid.status.result.value.trainJobName;
        AtLeastKept(job, mid, w', b, a);
        AtLeastTransitive(job, w', w'.status.result.value.trainJobName, b, a);
      }
    }
  }

  // ---- Complete means the optimum over every trial ----

  /** Complete holds only if at least NumTrials trials exist, all of them valid, and the
      stored result is the best of them. */
  ghost predicate CompleteMeans(job: OptimizationJob, w: World)
  {
    Holds(w.status.conditions, COMPLETE) ==>
      && |TrialsOf(w.jobs, job.uid)| >= job.spec.numTrials
      && TrialsOf(w.jobs, job.uid) == ValidTrials(job, w)
      && (TrialsOf(w.jobs, job.uid) != {} ==> ReportsOptimum(job, w))
  }

  /** A reconcile that leaves Complete on leaves the optimum stored. */
  lemma CompleteReconcile(job: OptimizationJob, w: World, c: Calls)
    requires WellKept(w.jobs, job) && Allowed(job, w, Reconcile(c)) && HasObjective(job.spec) && CompleteMeans(job, w)
    ensures CompleteMeans(job, Next(job, w, Reconcile(c)))
  {
    var w' := Next(job, w, Reconcile(c));
    assert w' == Reconciled(job, w, c).world;
    hide Next, Reconciled, TrialsOf, ReportsOptimum, ValidTrials, WellKept, TrackBest, TallyOf, Decide, HasObjective, Reports;
    if Holds(w'.status.conditions, COMPLETE) {
      if Holds(w.status.conditions, COMPLETE) {
        TerminalReconcile(job, w, c);
        ReconciledResult(job, w, c);
        SameStoreSameTrials(job, w, w');
        if c.listing.Some? {
          var t := TallyOf(c.listing.value, job.uid, TargetMetric(job.spec));
          TrackedIsOptimum(job, w, c.listing.value);
          var mid := w.(status := TrackBest(job.spec, t.valid, w.status));
          if w'.status.result == mid.status.result && ValidTrials(job, w) != {} {
            SameReport(job, mid, w');
          }
        }
        if w'.status.result == w.status.result && ValidTrials(job, w) != {} {
          SameReport(job, w, w');
        }
      } else {
        CompleteIsEarned(job, w, c);
        var t := TallyOf(c.listing.value, job.uid, TargetMetric(job.spec));
        DecisionFacts(job.spec, t, w.status, c.now);
        TrackedIsOptimum(job, w, c.listing.value);
        ValidTrialsAre(job, w);
        SameStoreSameTrials(job, w, w');
        if ValidTrials(job, w) != {} {
          SameReport(job, w.(status := TrackBest(job.spec, t.valid, w.status)), w');
        }
      }
    }
  }

  lemma ValidTrialsAre(job: OptimizationJob, w: World)
    ensures ValidTrials(job, w) == KindOf(w.jobs, job.uid, Valid(TargetMetric(job.spec)))
  { }

  lemma SameStoreSameTrials(job: OptimizationJob, w: World, w': World)
    requires w'.jobs == w.jobs
    ensures ValidTrials(job, w') == ValidTrials(job, w) && TrialsOf(w'.jobs, job.uid) == TrialsOf(w.jobs, job.uid)
  { }

  lemma SameReport(job: OptimizationJob, w: World, w': World)
    requires w'.jobs == w.jobs && w'.status.result == w.status.result && ReportsOptimum(job, w)
    ensures ReportsOptimum(job, w')
  {
    hide NoWorseThan;
    var b := w.status.result.value.trainJobName;
    forall n | n in ValidTrials(job, w') ensures AtLeast(job, w', b, n) {
      assert AtLeast(job, w, b, n);
    }
  }

  /** Other events cannot touch the trials of a complete job. */
  lemma CompleteElsewhere(job: OptimizationJob, w: World, e: Event)
    requires WellKept(w.jobs, job) && Allowed(job, w, e) && Steady(job, w, e) && !e.Reconcile?
    requires HasObjective(job.spec) && CompleteMeans(job, w)
    ensures CompleteMeans(job, Next(job, w, e))
  {
    var w' := Next(job, w, e);
    StepKeepsValid(job, w, e);
    if Holds(w.status.conditions, COMPLETE) {
      TrialsSettled(job, w, e);
      hide Next, Allowed, Steady, NoWorseThan, HasObjective;
      if TrialsOf(w.jobs, job.uid) != {} {
        var b := w.status.result.value.trainJobName;
        forall n | n in ValidTrials(job, w') ensures AtLeast(job, w', b, n) {
          AtLeastKept(job, w, w', b, n);
        }
      }
    }
  }

  lemma TrialsSettled(job: OptimizationJob, w: World, e: Event)
    requires WellKept(w.jobs, job) && Allowed(job, w, e) && Steady(job, w, e) && !e.Reconcile?
    requires TrialsOf(w.jobs, job.uid) == ValidTrials(job, w)
    ensures TrialsOf(Next(job, w, e).jobs, job.uid) == TrialsOf(w.jobs, job.uid) == ValidTrials(job, Next(job, w, e))
  {
    var w' := Next(job, w, e);
    hide FinalObjective, Holds, TargetMetric;
    match e
    case Update(n, tj) => UpdateCounts(job, w, n, tj);
    case Foreign(n, tj) => ForeignKeepsTrials(job, w, n, tj);
    case Delete(n) =>
  }

  /** In every state of every steady run, Complete means that at least NumTrials trials exist,
      that all of them succeeded with a valid metric, and that the stored result is the
      optimum over all of them. */
  lemma {:induction false} CompleteIsOptimal(job: OptimizationJob, w: World, es: seq<Event>)
    requires WellKept(w.jobs, job) && IsSteadyRun(job, w, es) && HasObjective(job.spec) && CompleteMeans(job, w)
    ensures CompleteMeans(job, After(job, w, es))
    decreases |es|
  {
    hide Next, Allowed, Steady, WellKept, CompleteMeans, HasObjective;
    if es != [] {
      StepKeepsValid(job, w, es[0]);
      if es[0].Reconcile? {
        CompleteReconcile(job, w, es[0].c);
      } else {
        CompleteElsewhere(job, w, es[0]);
      }
      CompleteIsOptimal(job, Next(job, w, es[0]), es[1..]);
    }
  }
}
