/** When exactly a reconcile ends an OptimizationJob, and which reason it gives. */
module OptimizationVerdict {
  import opened Common
  import opened Conditions
  import opened OptimizationTypes
  import opened BestTrial
  import opened Suggestions
  import opened Trials
  import opened OptimizationController
  import opened OptimizationRuns
  import opened OptimizationProgress
  import opened OptimizationOutcome

  function FailedReason(st: Status): (r: Option<string>)
  {
    var f := Find(st.conditions, FAILED);
    if f.Some? && f.value.status == IsTrue then Some(f.value.reason) else None
  }

  function CompleteReason(st: Status): (r: Option<string>)
  {
    var f := Find(st.conditions, COMPLETE);
    if f.Some? then Some(f.value.reason) else None
  }

  /** The reason an unmeasured trial deserves, told by its metrics alone. */
  ghost predicate Explains(tj: TrainJob, metric: string, reason: string)
  {
    if tj.metrics.None? || forall m :: m in tj.metrics.value ==> m.name != metric
    then reason == "ObjectiveMetricMissing"
    else reason == "ObjectiveMetricInvalid"
  }

  lemma ReasonExplains(tj: TrainJob, metric: string)
    ensures Explains(tj, metric, MetricReason(tj, metric))
  {
    FinalObjectiveMeaning(tj, metric);
    hide FinalObjective;
  }

  lemma AnnounceReason(st: Status, kind: string, reason: string, now: Time)
    ensures FailedReason(Announce(st, kind, reason, now)) == if kind == FAILED then Some(reason) else FailedReason(st)
    ensures CompleteReason(Announce(st, kind, reason, now)) == if kind == COMPLETE then Some(reason) else CompleteReason(st)
  {
    SetThenFind(st.conditions, Condition(kind, IsTrue, reason, "", ZERO_TIME), now);
  }

  /** The decision on an unfinished job, as a table. */
  lemma DecisionTable(spec: OptimizationSpec, t: Tally, st: Status, now: Time)
    requires !Terminal(st)
    ensures var d := Decide(spec, t, st, now);
      var done := t.active + t.succeeded + t.failed >= spec.numTrials && t.active == 0;
      && (d.Halt? <==> Terminal(d.status))
      && (Holds(d.status.conditions, COMPLETE) <==> t.unmeasured.None? && t.failed <= 0 && done)
      && (Holds(d.status.conditions, COMPLETE) ==> CompleteReason(d.status) == Some("OptimizationJobCompleted"))
      && FailedReason(d.status) == (
           if t.unmeasured.Some? then Some(MetricReason(t.unmeasured.value, TargetMetric(spec)))
           else if t.failed > 0 then Some("TrialFailed")
           else if !done && !spec.random then Some("UnsupportedSearchAlgorithm")
           else None)
  {
    var best := TrackBest(spec, t.valid, st);
    assert best.conditions == st.conditions;
    var metricReason := if t.unmeasured.Some? then MetricReason(t.unmeasured.value, TargetMetric(spec)) else "";
    hide TrackBest, MetricReason, Announce;
    AnnounceHolds(best, FAILED, metricReason, now);
    AnnounceHolds(best, FAILED, "TrialFailed", now);
    AnnounceHolds(best, FAILED, "UnsupportedSearchAlgorithm", now);
    AnnounceHolds(best, COMPLETE, "OptimizationJobCompleted", now);
    AnnounceReason(best, FAILED, metricReason, now);
    AnnounceReason(best, FAILED, "TrialFailed", now);
    AnnounceReason(best, FAILED, "UnsupportedSearchAlgorithm", now);
    AnnounceReason(best, COMPLETE, "OptimizationJobCompleted", now);
  }

  /** A verdict whose patch goes through is what is stored. */
  lemma VerdictIsStored(job: OptimizationJob, w: World, c: Calls)
    requires c.get == Found && c.listing.Some? && c.patch.Takes() && !Terminal(w.status)
    ensures var d := Decide(job.spec, TallyOf(c.listing.value, job.uid, TargetMetric(job.spec)), w.status, c.now);
      var st := Reconciled(job, w, c).world.status;
      && Holds(st.conditions, COMPLETE) == Holds(d.status.conditions, COMPLETE)
      && FailedReason(st) == FailedReason(d.status) && CompleteReason(st) == CompleteReason(d.status)
  {
    var t := TallyOf(c.listing.value, job.uid, TargetMetric(job.spec));
    var d := Decide(job.spec, t, w.status, c.now);
    DecisionFacts(job.spec, t, w.status, c.now);
    if d.Scale? {
      ReconciledStatus(job, w, c);
      MarkCreatedFacts(d.status, c.now);
      AnnounceReason(d.status, CREATED, "AlgorithmServiceCreated", c.now);
      hide Reconciled, Decide, TallyOf, Announce;
    } else {
      hide Decide, TallyOf, ScaleUp, RemoveService;
    }
  }

  lemma UnmeasuredOfStore(job: OptimizationJob, w: World, items: seq<TrainJob>)
    requires WellKept(w.jobs, job) && FreshListing(items, w.jobs, job.name)
    ensures var u := TallyOf(items, job.uid, TargetMetric(job.spec)).unmeasured;
      var kind := KindOf(w.jobs, job.uid, Unmeasured(TargetMetric(job.spec)));
      && (u.Some? <==> kind != {})
      && (u.Some? ==> u.value.name in kind && w.jobs[u.value.name] == u.value)
  {
    var k := Unmeasured(TargetMetric(job.spec));
    var owned := Pick(items, Owned(job.uid));
    CountersAreExact(items, w.jobs, job, k);
    ListedTrials(items, w.jobs, job);
    PickMembers(owned, k);
    hide Pick, WellKept, FreshListing, Is;
    if Pick(owned, k) != [] {
      assert Pick(owned, k)[0] in owned;
    }
  }

  /** The verdict on an unfinished job, told by the store alone. It completes if and only if no
      trial is broken, none is active and there are NumTrials of them. It fails if and only if
      some trial is broken or, with work left, the algorithm is not supported; the reason is a
      missing or invalid metric as long as some trial ended without a usable one. */
  lemma VerdictIsExact(job: OptimizationJob, w: World, c: Calls)
    requires WellKept(w.jobs, job) && Allowed(job, w, Reconcile(c)) && !Terminal(w.status)
    requires c.get == Found && c.listing.Some? && c.patch.Takes()
    ensures var st, m := Reconciled(job, w, c).world.status, TargetMetric(job.spec);
      var unmeasured, broken := KindOf(w.jobs, job.uid, Unmeasured(m)), KindOf(w.jobs, job.uid, Broken(m));
      var done := |TrialsOf(w.jobs, job.uid)| >= job.spec.numTrials && KindOf(w.jobs, job.uid, Active) == {};
      && (Holds(st.conditions, COMPLETE) <==> broken == {} && done)
      && (Holds(st.conditions, COMPLETE) ==> CompleteReason(st) == Some("OptimizationJobCompleted"))
      && (Holds(st.conditions, FAILED) <==> broken != {} || (!done && !job.spec.random))
      && (unmeasured != {} ==> exists n :: n in unmeasured && Explains(w.jobs[n], m, FailedReason(st).GetOr("")))
      && (unmeasured == {} && broken != {} ==> FailedReason(st) == Some("TrialFailed"))
      && (broken == {} && !done && !job.spec.random ==> FailedReason(st) == Some("UnsupportedSearchAlgorithm"))
  {
    var items, m := c.listing.value, TargetMetric(job.spec);
    var t := TallyOf(items, job.uid, m);
    VerdictIsStored(job, w, c);
    DecisionTable(job.spec, t, w.status, c.now);
    TallyIsExact(job, w, items);
    UnmeasuredOfStore(job, w, items);
    UnmeasuredAreBroken(w.jobs, job.uid, m);
    if t.unmeasured.Some? {
      ReasonExplains(t.unmeasured.value, m);
    }
    hide Reconciled, Decide, TallyOf, WellKept, FreshListing, KindOf, TrialsOf, Explains, MetricReason, Terminal, Find, TargetMetric;
    assert Holds(Reconciled(job, w, c).world.status.conditions, FAILED) <==> FailedReason(Reconciled(job, w, c).world.status).Some?;
  }

  lemma UnmeasuredAreBroken(jobs: map<string, TrainJob>, uid: string, m: string)
    ensures KindOf(jobs, uid, Unmeasured(m)) <= KindOf(jobs, uid, Broken(m))
  { }

  // ---- every drawn name taken ----

  /** A job for one trial, in a namespace where the only name it draws is taken by a TrainJob of
      somebody else, and a reconcile whose calls all succeed. */
  function TakenJob(): (r: OptimizationJob)
  {
    OptimizationJob("tune", "1", OptimizationSpec([Objective("loss", MINIMIZE)], true, 1, 1, None))
  }

  function TakenWorld(): (r: World)
  {
    var n := TrialName("tune", "aaaaaaaa");
    World(map[n := TrainJob(n, None, 0, None, [], None)], Status([], None), true, true)
  }

  function TakenCalls(): (r: Calls)
  {
    Calls(Found, Some([]), Accepted, Accepted, Available, Some([[]]), i => CreateCall("aaaaaaaa", false, Accepted, 0),
          Accepted, Accepted, Accepted, 0)
  }

  lemma TakenIsIdle()
    ensures var job, w, c := TakenJob(), TakenWorld(), TakenCalls();
      && WithinBudget(job, w) && Allowed(job, w, Reconcile(c)) && !Terminal(w.status) && 1 <= job.spec.parallelTrials
      && KindOf(w.jobs, job.uid, Active) == {} && TrialsOf(w.jobs, job.uid) == {}
      && (forall m :: KindOf(w.jobs, job.uid, Broken(m)) == {}) && WellKept(w.jobs, job)
      && Budget(job, w) == 1 && AllSucceed(c, 1) && NameAt(job, c, 0) in w.jobs
  {
    hide TrialName;
    var job, w := TakenJob(), TakenWorld();
    assert TrialsOf(w.jobs, job.uid) == {};
    assert KindOf(w.jobs, job.uid, Active) == {};
  }

  /** Such a reconcile spawns nothing, ends nothing and reports no error. */
  lemma AllNamesTaken()
    ensures var job, w, c := TakenJob(), TakenWorld(), TakenCalls();
      Created(job, w, Reconcile(c)) == 0 && !Reconciled(job, w, c).err && !Terminal(Reconciled(job, w, c).world.status)
  {
    TakenIsIdle();
    hide TakenWorld, TrialName, Reconciled, Created, NameAt, AllSucceed, Budget, KindOf, TrialsOf, WithinBudget, FreshListing;
    VerdictIsExact(TakenJob(), TakenWorld(), TakenCalls());
    IdleReconcileProgresses(TakenJob(), TakenWorld(), TakenCalls());
  }
}
