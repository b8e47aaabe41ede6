/** The OptimizationJob and TrainJob fields the hyper-parameter search reads and writes. */
module OptimizationTypes {
  import opened Common
  import opened Conditions

  const CREATED: string := "Created"
  const MAXIMIZE: string := "Maximize"
  const MINIMIZE: string := "Minimize"

  /** The outcome of strconv.ParseFloat on a reported value; finite floats are ordered as reals. */
  datatype Reading = Finite(number: real) | Infinite | NotANumber | Malformed

  datatype Metric = Metric(name: string, text: string, reading: Reading)
  datatype EnvVar = EnvVar(name: string, value: string)
  datatype Assignment = Assignment(name: string, value: string)

  /** OptimizationJobKind is kind OptimizationJob of trainer.kubeflow.org/v1alpha1. */
  datatype OwnerKind = OptimizationJobKind | OtherKind(apiVersion: string, kind: string)

  /** The controller owner reference of an object. */
  datatype OwnerRef = OwnerRef(kind: OwnerKind, name: string, uid: string)

  /** env is None when spec.trainer is nil; metrics is None when status.trainerStatus is nil. */
  datatype TrainJob = TrainJob(
    name: string, owner: Option<OwnerRef>, created: Time, env: Option<seq<EnvVar>>,
    conditions: seq<Condition>, metrics: Option<seq<Metric>>)

  datatype Objective = Objective(metric: string, direction: string)

  /** random is true when spec.searchAlgorithm.random is set. */
  datatype OptimizationSpec = OptimizationSpec(
    objectives: seq<Objective>, random: bool, numTrials: int, parallelTrials: int,
    templateEnv: Option<seq<EnvVar>>)

  datatype OptimizationJob = OptimizationJob(name: string, uid: string, spec: OptimizationSpec)

  /** The best trial so far. */
  datatype BestResult = BestResult(trainJobName: string, parameters: seq<Assignment>)

  /** result is None while the source's result struct is still zero. */
  datatype Status = Status(conditions: seq<Condition>, result: Option<BestResult>)

  predicate IsFinished(tj: TrainJob)
  {
    Finished(tj.conditions)
  }

  /** The metric the trials are judged by; empty when no objective is given. */
  function TargetMetric(spec: OptimizationSpec): (r: string)
  {
    if |spec.objectives| > 0 then spec.objectives[0].metric else ""
  }

  ghost predicate DistinctNames(jobs: seq<TrainJob>)
  {
    forall i, j :: 0 <= i < j < |jobs| ==> jobs[i].name != jobs[j].name
  }

  lemma DistinctNamesIdentify(jobs: seq<TrainJob>, a: TrainJob, b: TrainJob)
    requires DistinctNames(jobs) && a in jobs && b in jobs && a.name == b.name
    ensures a == b
  { }
}
