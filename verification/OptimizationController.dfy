/** OptimizationJobReconciler: one reconcile call against the store, with every API call's
    outcome and every clock reading supplied by the environment. */
module OptimizationController {
  import opened Common
  import opened Conditions
  import opened OptimizationTypes
  import opened Parameters
  import opened BestTrial
  import opened Suggestions
  import opened Trials

  /** The part of the cluster the controller touches: the namespace's TrainJobs by name, the
      persisted status, and whether the search service's Deployment and Service exist. */
  datatype World = World(jobs: map<string, TrainJob>, status: Status, deployment: bool, service: bool)

  /** What reading the Deployment back yields. */
  datatype Readiness = Unreadable | Absent | NotAvailable | Available

  type Suffix = s: string | |s| == RANDOM_SUFFIX witness "aaaaaaaa"

  /** One trial creation: the random suffix drawn, whether setting the owner reference fails,
      how the API server answers for a name that is free, and the timestamp it assigns. */
  datatype CreateCall = CreateCall(suffix: Suffix, referenceFails: bool, outcome: ApiWrite, created: Time)

  datatype Calls = Calls(
    get: Fetch, listing: Option<seq<TrainJob>>,
    applyDeployment: ApiWrite, applyService: ApiWrite, readiness: Readiness,
    suggestions: Option<seq<seq<Assignment>>>, creation: nat -> CreateCall,
    deleteDeployment: ApiWrite, deleteService: ApiWrite, patch: ApiWrite, now: Time)

  datatype Outcome = Outcome(world: World, err: bool)

  predicate Terminal(st: Status)
  {
    Finished(st.conditions)
  }

  function Announce(st: Status, kind: string, reason: string, now: Time): (r: Status)
  {
    st.(conditions := Set(st.conditions, Condition(kind, IsTrue, reason, "", ZERO_TIME), now))
  }

  function TrackBest(spec: OptimizationSpec, valid: seq<TrainJob>, st: Status): (r: Status)
  {
    if |valid| > 0 && Extracted(spec, valid).Some? then st.(result := Extracted(spec, valid)) else st
  }

  function MetricReason(tj: TrainJob, metric: string): (r: string)
  {
    if FinalObjective(tj, metric).Missing? then "ObjectiveMetricMissing" else "ObjectiveMetricInvalid"
  }

  /** How a reconcile goes on once the trials are counted. */
  datatype Decision = Cleanup(status: Status) | Halt(status: Status) | Scale(status: Status)

  function Decide(spec: OptimizationSpec, t: Tally, st: Status, now: Time): (r: Decision)
  {
    var best := TrackBest(spec, t.valid, st);
    if Terminal(best) then Cleanup(best)
    else if t.unmeasured.Some? then
      Halt(Announce(best, FAILED, MetricReason(t.unmeasured.value, TargetMetric(spec)), now))
    else if t.failed > 0 then Halt(Announce(best, FAILED, "TrialFailed", now))
    else if t.active + t.succeeded + t.failed >= spec.numTrials && t.active == 0 then
      Halt(Announce(best, COMPLETE, "OptimizationJobCompleted", now))
    else if !spec.random then Halt(Announce(best, FAILED, "UnsupportedSearchAlgorithm", now))
    else Scale(best)
  }

  function MarkCreated(st: Status, now: Time): (r: Status)
  {
    if Holds(st.conditions, CREATED) then st else Announce(st, CREATED, "AlgorithmServiceCreated", now)
  }

  // ---- the search service ----

  datatype Served = Served(world: World, ready: bool, err: bool)

  function EnsureService(w: World, c: Calls): (r: Served)
  {
    var w1 := if c.applyDeployment.Takes() then w.(deployment := true) else w;
    if c.applyDeployment.Rejected? then Served(w1, false, true)
    else
      var w2 := if c.applyService.Takes() then w1.(service := true) else w1;
      if c.applyService.Rejected? then Served(w2, false, true)
      else Served(w2, c.readiness == Available, c.readiness == Unreadable)
  }

  function RemoveService(w: World, c: Calls): (r: Outcome)
  {
    var w1 := if c.deleteDeployment.Takes() then w.(deployment := false) else w;
    if c.deleteDeployment.Rejected? then Outcome(w1, true)
    else
      Outcome(if c.deleteService.Takes() then w1.(service := false) else w1, c.deleteService.Rejected?)
  }

  // ---- spawning ----

  function NewTrial(job: OptimizationJob, params: seq<Assignment>, call: CreateCall): (r: TrainJob)
  {
    TrainJob(TrialName(job.name, call.suffix), Some(ControllerRef(job)), call.created,
             Some(job.spec.templateEnv.GetOr([]) + Encode(params)), [], None)
  }

  /** The store and whether an error was collected. A name already taken is skipped silently. */
  datatype Stored = Stored(jobs: map<string, TrainJob>, err: bool)

  function CreateOne(job: OptimizationJob, s: Stored, params: seq<Assignment>, call: CreateCall): (r: Stored)
  {
    var tj := NewTrial(job, params, call);
    if call.referenceFails then Stored(s.jobs, true)
    else Stored(
        if tj.name !in s.jobs && call.outcome.Takes() then s.jobs[tj.name := tj] else s.jobs,
        s.err || call.outcome.Rejected?)
  }

  /** The store after the first n suggestions. */
  function CreateMany(job: OptimizationJob, jobs: map<string, TrainJob>, suggestions: seq<seq<Assignment>>,
                      creation: nat -> CreateCall, n: nat): (r: Stored)
    requires n <= |suggestions|
  {
    if n == 0 then Stored(jobs, false)
    else CreateOne(job, CreateMany(job, jobs, suggestions, creation, n - 1), suggestions[n - 1], creation(n - 1))
  }

  function Spawn(job: OptimizationJob, jobs: map<string, TrainJob>, owned: seq<TrainJob>, n: nat, c: Calls): (r: Stored)
  {
    if !Buildable(job.spec, owned) || c.suggestions.None? || |c.suggestions.value| < n then Stored(jobs, true)
    else CreateMany(job, jobs, c.suggestions.value, c.creation, n)
  }

  /** How many trials the budget still allows at once; nothing is spawned unless positive. */
  function ToSpawn(spec: OptimizationSpec, t: Tally): (r: int)
  {
    var free, left := spec.parallelTrials - t.active, spec.numTrials - (t.active + t.succeeded + t.failed);
    if free > left then left else free
  }

  // ---- one reconcile ----

  /** The deferred status patch: only when the status changed. */
  function Patch(o: Outcome, st: Status, c: Calls): (r: Outcome)
  {
    if st == o.world.status then o
    else Outcome(if c.patch.Takes() then o.world.(status := st) else o.world, o.err || c.patch.Rejected?)
  }

  function ScaleUp(job: OptimizationJob, w: World, t: Tally, st: Status, c: Calls): (r: Outcome)
  {
    var served := EnsureService(w, c);
    if !served.ready then Patch(Outcome(served.world, served.err), st, c)
    else
      var n := ToSpawn(job.spec, t);
      var spawned := if n > 0 then Spawn(job, served.world.jobs, t.owned, n, c) else Stored(served.world.jobs, false);
      Patch(Outcome(served.world.(jobs := spawned.jobs), spawned.err), MarkCreated(st, c.now), c)
  }

  function Reconciled(job: OptimizationJob, w: World, c: Calls): (r: Outcome)
  {
    if c.get != Found then Outcome(w, c.get == FetchError)
    else if c.listing.None? then Outcome(w, true)
    else
      var t := TallyOf(c.listing.value, job.uid, TargetMetric(job.spec));
      match Decide(job.spec, t, w.status, c.now)
      case Cleanup(st) => Patch(RemoveService(w, c), st, c)
      case Halt(st) => Patch(Outcome(w, false), st, c)
      case Scale(st) => ScaleUp(job, w, t, st, c)
  }

  /** The controller and the store it works on. */
  class OptimizationJobReconciler {
    const job: OptimizationJob
    var jobs: map<string, TrainJob>
    var status: Status
    var deployment: bool
    var service: bool

    function State(): (w: World)
      reads this
    {
      World(jobs, status, deployment, service)
    }

    constructor (job: OptimizationJob, w: World)
      ensures this.job == job && State() == w
    {
      this.job := job;
      jobs, status, deployment, service := w.jobs, w.status, w.deployment, w.service;
    }

    method CreateAlgorithmServiceIfNecessary(c: Calls) returns (ready: bool, err: bool)
      modifies this`deployment, this`service
      ensures State() == EnsureService(old(State()), c).world
      ensures ready == EnsureService(old(State()), c).ready && err == EnsureService(old(State()), c).err
    {
      if c.applyDeployment.Takes() {
        deployment := true;
      }
      if c.applyDeployment.Rejected? {
        return false, true;
      }
      if c.applyService.Takes() {
        service := true;
      }
      if c.applyService.Rejected? {
        return false, true;
      }
      match c.readiness {
        case Unreadable => return false, true;
        case Absent => return false, false;
        case NotAvailable => return false, false;
        case Available => return true, false;
      }
    }

    method CleanupAlgorithmService(c: Calls) returns (err: bool)
      modifies this`deployment, this`service
      ensures State() == RemoveService(old(State()), c).world && err == RemoveService(old(State()), c).err
    {
      if c.deleteDeployment.Takes() {
        deployment := false;
      }
      if c.deleteDeployment.Rejected? {
        return true;
      }
      if c.deleteService.Takes() {
        service := false;
      }
      err := c.deleteService.Rejected?;
    }

    method ConstructTrainJob(params: seq<Assignment>, call: CreateCall) returns (tj: Option<TrainJob>)
      ensures tj == if call.referenceFails then None else Some(NewTrial(job, params, call))
    {
      var env := AppendParameters(job.spec.templateEnv, params);
      if call.referenceFails {
        return None;
      }
      var owner := OwnerRef(OptimizationJobKind, job.name, job.uid);
      tj := Some(TrainJob(TrialName(job.name, call.suffix), Some(owner), call.created, Some(env), [], None));
    }

    method CreateTrainJobs(owned: seq<TrainJob>, trialsToSpawn: nat, c: Calls) returns (err: bool)
      modifies this`jobs
      ensures Stored(jobs, err) == Spawn(job, old(jobs), owned, trialsToSpawn, c)
    {
      var request := BuildSuggestionRequest(job, owned, trialsToSpawn);
      if request.None? {
        return true;
      }
      if c.suggestions.None? {
        return true;
      }
      var suggestions := c.suggestions.value;
      if |suggestions| < trialsToSpawn {
        return true;
      }
      err := false;
      var i := 0;
      while i < |suggestions|
        invariant 0 <= i <= trialsToSpawn
        invariant Stored(jobs, err) == CreateMany(job, old(jobs), suggestions, c.creation, i)
        decreases |suggestions| - i
      {
        if i >= trialsToSpawn {
          break;
        }
        var newTrainJob := ConstructTrainJob(suggestions[i], c.creation(i));
        if newTrainJob.None? {
          err := true;
        } else {
          if newTrainJob.value.name !in jobs && c.creation(i).outcome.Takes() {
            jobs := jobs[newTrainJob.value.name := newTrainJob.value];
          }
          if c.creation(i).outcome.Rejected? {
            err := true;
          }
        }
        i := i + 1;
      }
    }

    /** Steps 2 to 6: track the best result, then decide whether the job is over. */
    method Judge(t: Tally, now: Time) returns (d: Decision)
      ensures d == Decide(job.spec, t, status, now)
    {
      var st := status;
      if |t.valid| > 0 {
        var bestResult := ExtractBestResult(job.spec, t.valid);
        if bestResult.Some? {
          st := st.(result := bestResult);
        }
      }
      if Terminal(st) {
        return Cleanup(st);
      }
      if t.unmeasured.Some? {
        return Halt(Announce(st, FAILED, MetricReason(t.unmeasured.value, TargetMetric(job.spec)), now));
      }
      if t.failed > 0 {
        return Halt(Announce(st, FAILED, "TrialFailed", now));
      }
      var totalTrials := t.active + t.succeeded + t.failed;
      if totalTrials >= job.spec.numTrials && t.active == 0 {
        return Halt(Announce(st, COMPLETE, "OptimizationJobCompleted", now));
      }
      if !job.spec.random {
        return Halt(Announce(st, FAILED, "UnsupportedSearchAlgorithm", now));
      }
      d := Scale(st);
    }

    /** Steps 7 and 8: ensure the service, then spawn within the budget. */
    method SpawnWithinBudget(t: Tally, before: Status, c: Calls) returns (st: Status, err: bool)
      modifies this`jobs, this`deployment, this`service
      ensures Patch(Outcome(State(), err), st, c) == ScaleUp(job, old(State()), t, before, c)
    {
      st := before;
      var ready;
      ready, err := CreateAlgorithmServiceIfNecessary(c);
      if err || !ready {
        return;
      }
      if !Holds(st.conditions, CREATED) {
        st := Announce(st, CREATED, "AlgorithmServiceCreated", c.now);
      }
      if t.active >= job.spec.parallelTrials {
        return;
      }
      var trialsToSpawn := job.spec.parallelTrials - t.active;
      var trialsRemaining := job.spec.numTrials - (t.active + t.succeeded + t.failed);
      if trialsToSpawn > trialsRemaining {
        trialsToSpawn := trialsRemaining;
      }
      if trialsToSpawn > 0 {
        err := CreateTrainJobs(t.owned, trialsToSpawn, c);
      }
    }

    /** Reconcile up to its deferred status patch, which the caller makes. */
    method Proceed(c: Calls) returns (st: Status, err: bool)
      requires c.get == Found
      modifies this`jobs, this`deployment, this`service
      ensures Patch(Outcome(State(), err), st, c) == Reconciled(job, old(State()), c)
    {
      if c.listing.None? {
        return status, true;
      }
      var targetMetric := "";
      if |job.spec.objectives| > 0 {
        targetMetric := job.spec.objectives[0].metric;
      }
      var t := Classify(c.listing.value, job.uid, targetMetric);
      var d := Judge(t, c.now);
      st, err := d.status, false;
      match d {
        case Cleanup(_) => err := CleanupAlgorithmService(c);
        case Halt(_) =>
        case Scale(_) => st, err := SpawnWithinBudget(t, d.status, c);
      }
    }

    /** Reconcile with its deferred status patch. */
    method Reconcile(c: Calls) returns (err: bool)
      modifies this
      ensures Outcome(State(), err) == Reconciled(job, old(State()), c)
    {
      if c.get != Found {
        return c.get == FetchError;
      }
      var st;
      st, err := Proceed(c);
      if st != status {
        if c.patch.Takes() {
          status := st;
        }
        if c.patch.Rejected? {
          err := true;
        }
      }
    }
  }
}
