/** What the search service is told over a run: each trial goes back, parameter by parameter,
    to a suggestion the service itself made. */
module OptimizationSearch {
  import opened Common
  import opened OptimizationTypes
  import opened StringOrder
  import opened Parameters
  import opened BestTrial
  import opened Suggestions
  import opened Trials
  import opened OptimizationController
  import opened OptimizationRuns
  import opened OptimizationOutcome

  ghost predicate PlainTemplate(spec: OptimizationSpec)
  {
    forall e :: e in spec.templateEnv.GetOr([]) ==> !IsParameter(e)
  }

  /** env is own, and behind it for each parameter its name behind the prefix, with its value. */
  ghost predicate HasVariables(env: seq<EnvVar>, own: seq<EnvVar>, params: seq<Assignment>)
  {
    && |env| == |own| + |params| && env[..|own|] == own
    && forall i :: 0 <= i < |params| ==>
         env[|own| + i] == EnvVar("KUBEFLOW_TRAINER_OPT_" + params[i].name, params[i].value)
  }

  /** The trial has the name drawn for the i-th suggestion and the time given to it, and its
      variables carry the suggestion behind the template's own. */
  ghost predicate CarriesSuggestion(
    job: OptimizationJob, suggestions: seq<seq<Assignment>>, creation: nat -> CreateCall, i: nat, tj: TrainJob)
  {
    && i < |suggestions| && tj.name == TrialName(job.name, creation(i).suffix)
    && tj.created == creation(i).created
    && HasVariables(tj.env.GetOr([]), job.spec.templateEnv.GetOr([]), suggestions[i])
    && (Decode(tj.env.GetOr([])) == suggestions[i] <==> PlainTemplate(job.spec))
  }

  lemma NewTrialCarries(
    job: OptimizationJob, suggestions: seq<seq<Assignment>>, creation: nat -> CreateCall, i: nat)
    requires i < |suggestions|
    ensures CarriesSuggestion(job, suggestions, creation, i, NewTrial(job, suggestions[i], creation(i)))
  {
    RoundTrip(job.spec.templateEnv, suggestions[i]);
    TrialVariables(job.spec.templateEnv, suggestions[i]);
    hide TrialName, Decode, Encode;
  }

  /** Every trial a reconcile adds carries one of the suggestions it fetched. */
  lemma {:induction false} CreatedCarry(
    job: OptimizationJob, jobs: map<string, TrainJob>, suggestions: seq<seq<Assignment>>, creation: nat -> CreateCall,
    n: nat, x: string) returns (i: nat)
    requires n <= |suggestions|
    requires x !in jobs && x in CreateMany(job, jobs, suggestions, creation, n).jobs
    ensures CarriesSuggestion(job, suggestions, creation, i, CreateMany(job, jobs, suggestions, creation, n).jobs[x])
  {
    assert n > 0;
    var mid := CreateMany(job, jobs, suggestions, creation, n - 1);
    hide CarriesSuggestion, NewTrial;
    CreateOneStores(job, mid, suggestions[n - 1], creation(n - 1));
    if x in mid.jobs {
      i := CreatedCarry(job, jobs, suggestions, creation, n - 1, x);
    } else {
      i := n - 1;
      NewTrialCarries(job, suggestions, creation, i);
    }
  }

  /** The event is a reconcile that fetched the suggestion the trial carries. */
  ghost predicate Issued(job: OptimizationJob, e: Event, tj: TrainJob)
  {
    e.Reconcile? && e.c.suggestions.Some? &&
    exists i: nat :: CarriesSuggestion(job, e.c.suggestions.value, e.c.creation, i, tj)
  }

  ghost predicate HasOrigin(job: OptimizationJob, past: seq<Event>, tj: TrainJob)
  {
    exists k :: 0 <= k < |past| && Issued(job, past[k], tj)
  }

  ghost predicate AllHaveOrigins(job: OptimizationJob, past: seq<Event>, w: World)
  {
    forall n :: n in TrialsOf(w.jobs, job.uid) ==> HasOrigin(job, past, w.jobs[n])
  }

  lemma OriginStays(job: OptimizationJob, past: seq<Event>, e: Event, tj: TrainJob, tj': TrainJob)
    requires HasOrigin(job, past, tj) && tj'.name == tj.name && tj'.env == tj.env && tj'.created == tj.created
    ensures HasOrigin(job, past + [e], tj')
  {
    var k :| 0 <= k < |past| && Issued(job, past[k], tj);
    hide TrialName, Decode;
    assert Issued(job, past[k], tj') by {
      var i: nat :| CarriesSuggestion(job, past[k].c.suggestions.value, past[k].c.creation, i, tj);
      assert CarriesSuggestion(job, past[k].c.suggestions.value, past[k].c.creation, i, tj');
    }
    assert (past + [e])[k] == past[k];
  }

  lemma ReconcileOrigin(job: OptimizationJob, w: World, past: seq<Event>, c: Calls, n: string)
    requires n !in w.jobs && n in Reconciled(job, w, c).world.jobs
    ensures HasOrigin(job, past + [Reconcile(c)], Reconciled(job, w, c).world.jobs[n])
  {
    ReconciledJobs(job, w, c);
    hide Reconciled, CreateMany, Decide, CarriesSuggestion;
    var spawn := ToSpawn(job.spec, TallyOf(c.listing.value, job.uid, TargetMetric(job.spec)));
    var i := CreatedCarry(job, w.jobs, c.suggestions.value, c.creation, spawn, n);
    assert Issued(job, Reconcile(c), Reconciled(job, w, c).world.jobs[n]);
    assert (past + [Reconcile(c)])[|past|] == Reconcile(c);
  }

  lemma StepKeepsOrigins(job: OptimizationJob, w: World, past: seq<Event>, e: Event)
    requires WellKept(w.jobs, job) && Possible(job, w, e) && AllHaveOrigins(job, past, w)
    ensures AllHaveOrigins(job, past + [e], Next(job, w, e)) && WellKept(Next(job, w, e).jobs, job)
  {
    var w' := Next(job, w, e);
    if e.Reconcile? {
      ReconcileSpawnsListed(job, w, e.c);
      SpawnCounts(job, w.jobs, w'.jobs, ListedBudget(job, e.c));
    } else if e.Update? {
      UpdateCounts(job, w, e.name, e.tj);
    } else if e.Foreign? {
      ForeignKeepsTrials(job, w, e.name, e.tj);
    }
    forall n | n in TrialsOf(w'.jobs, job.uid) ensures HasOrigin(job, past + [e], w'.jobs[n]) {
      OneKeepsOrigin(job, w, past, e, n);
    }
  }

  lemma OneKeepsOrigin(job: OptimizationJob, w: World, past: seq<Event>, e: Event, n: string)
    requires WellKept(w.jobs, job) && Possible(job, w, e) && AllHaveOrigins(job, past, w)
    requires n in TrialsOf(Next(job, w, e).jobs, job.uid)
    ensures HasOrigin(job, past + [e], Next(job, w, e).jobs[n])
  {
    hide Reconciled, HasOrigin, ListedBudget;
    if e.Reconcile? {
      ReconcileSpawnsListed(job, w, e.c);
      if n !in w.jobs {
        ReconcileOrigin(job, w, past, e.c, n);
        return;
      }
    }
    assert n in TrialsOf(w.jobs, job.uid);
    OriginStays(job, past, e, w.jobs[n], Next(job, w, e).jobs[n]);
  }

  lemma {:induction false} RunKeepsOrigins(job: OptimizationJob, w: World, past: seq<Event>, es: seq<Event>)
    requires WellKept(w.jobs, job) && IsLooseRun(job, w, es) && AllHaveOrigins(job, past, w)
    ensures AllHaveOrigins(job, past + es, After(job, w, es))
    decreases |es|
  {
    hide Next, WellKept, Possible, AllHaveOrigins;
    if es == [] {
      assert past + es == past;
    } else {
      StepKeepsOrigins(job, w, past, es[0]);
      RunKeepsOrigins(job, Next(job, w, es[0]), past + [es[0]], es[1..]);
      assert past + es == past + [es[0]] + es[1..];
    }
  }

  /** In every run, however stale its listings, each owned trial goes back to a suggestion that
      some reconcile of the run fetched for that very trial name: the trial's variables are the
      template's own and those of the suggestion. Its history entry repeats the suggestion, in
      order, exactly when the template sets no prefixed variable. */
  lemma HistoryRepeatsSuggestions(
    job: OptimizationJob, w: World, es: seq<Event>, n: string, t: TrialRecord)
    returns (k: nat, i: nat)
    requires Initial(job, w) && IsLooseRun(job, w, es)
    requires n in TrialsOf(After(job, w, es).jobs, job.uid)
    requires Records(t, After(job, w, es).jobs[n], TargetMetric(job.spec))
    ensures k < |es| && es[k].Reconcile? && es[k].c.suggestions.Some? && i < |es[k].c.suggestions.value|
    ensures t.name == TrialName(job.name, es[k].c.creation(i).suffix)
    ensures HasVariables(After(job, w, es).jobs[n].env.GetOr([]), job.spec.templateEnv.GetOr([]), es[k].c.suggestions.value[i])
    ensures t.assignments == es[k].c.suggestions.value[i] <==> PlainTemplate(job.spec)
  {
    RunKeepsOrigins(job, w, [], es);
    hide After, IsLooseRun, TrialName, Decode, Initial;
    assert [] + es == es;
    var tj := After(job, w, es).jobs[n];
    assert HasOrigin(job, es, tj);
    k :| 0 <= k < |es| && Issued(job, es[k], tj);
    i :| CarriesSuggestion(job, es[k].c.suggestions.value, es[k].c.creation, i, tj);
  }

  lemma {:induction false} SteadyIsLoose(job: OptimizationJob, w: World, es: seq<Event>)
    requires IsSteadyRun(job, w, es)
    ensures IsLooseRun(job, w, es)
    decreases |es|
  {
    if es != [] {
      hide Next, Possible, Steady;
      SteadyIsLoose(job, Next(job, w, es[0]), es[1..]);
    }
  }

  /** The stored result, over every run in which valid trials keep their value: it names a trial
      that a reconcile of the run drew for a suggestion, and reports that suggestion sorted by
      name, if the template sets no prefixed variable and the suggestion names each parameter
      once. */
  lemma ResultRepeatsSuggestion(job: OptimizationJob, w: World, es: seq<Event>) returns (k: nat, i: nat)
    requires Initial(job, w) && IsSteadyRun(job, w, es) && HasObjective(job.spec) && PlainTemplate(job.spec)
    requires After(job, w, es).status.result.Some?
    ensures k < |es| && es[k].Reconcile? && es[k].c.suggestions.Some? && i < |es[k].c.suggestions.value|
    ensures var r, suggestion := After(job, w, es).status.result.value, es[k].c.suggestions.value[i];
      && r.trainJobName == TrialName(job.name, es[k].c.creation(i).suffix)
      && (DistinctParameterNames(suggestion) ==>
            multiset(r.parameters) == multiset(suggestion) &&
            forall a, b :: 0 <= a < b < |r.parameters| ==> Less(r.parameters[a].name, r.parameters[b].name))
  {
    SteadyIsLoose(job, w, es);
    BestNeverWorse(job, w, es);
    RunKeepsOrigins(job, w, [], es);
    var last := After(job, w, es);
    var n := last.status.result.value.trainJobName;
    assert [] + es == es;
    hide After, IsLooseRun, IsSteadyRun, TrialName, Decode, Initial, PlainTemplate, Less, SortedParameters, Is, NoWorse, DistinctParameterNames;
    assert HasOrigin(job, es, last.jobs[n]);
    k :| 0 <= k < |es| && Issued(job, es[k], last.jobs[n]);
    i :| CarriesSuggestion(job, es[k].c.suggestions.value, es[k].c.creation, i, last.jobs[n]);
    if DistinctParameterNames(es[k].c.suggestions.value[i]) {
      ReportedParametersDistinct(es[k].c.suggestions.value[i]);
    }
  }
}
