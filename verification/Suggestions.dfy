/** The request sent to the search service, and the names the controller generates. */
module Suggestions {
  import opened Common
  import opened Conditions
  import opened OptimizationTypes
  import opened Parameters
  import opened BestTrial

  datatype ObjectiveType = Unspecified | ToMaximize | ToMinimize

  datatype TrialState = Running | Succeeded(metric: string, text: string)

  datatype TrialRecord = TrialRecord(name: string, assignments: seq<Assignment>, state: TrialState)

  datatype Request = Request(
    experiment: string, algorithm: string, objective: ObjectiveType, metric: string,
    trials: seq<TrialRecord>, currentRequestNumber: int, totalRequestNumber: int)

  /** The history entry a trial deserves: its own assignments, and its final metric once finished. */
  ghost predicate Records(t: TrialRecord, tj: TrainJob, metric: string)
  {
    t.name == tj.name && t.assignments == Decode(tj.env.GetOr([])) &&
    if IsFinished(tj) then
      var f := FinalObjective(tj, metric);
      f.Reported? && t.state == Succeeded(f.metric.name, f.metric.text)
    else t.state == Running
  }

  /** When a request can be built: the algorithm is supported and no finished trial lacks its metric. */
  predicate Buildable(spec: OptimizationSpec, jobs: seq<TrainJob>)
  {
    spec.random && forall i :: 0 <= i < |jobs| && IsFinished(jobs[i]) ==> HasMetric(jobs[i], TargetMetric(spec))
  }

  /** The algorithm is supported, and every trial that is over has reported a finite number last. */
  lemma BuildableMeaning(spec: OptimizationSpec, jobs: seq<TrainJob>)
    ensures Buildable(spec, jobs) <==>
            spec.random && forall tj :: tj in jobs && (Holds(tj.conditions, "Complete") || Holds(tj.conditions, "Failed")) ==>
              exists v :: Reads(tj, TargetMetric(spec), v)
  {
    var m := TargetMetric(spec);
    hide TargetMetric, Holds, FinalObjective, Reads;
    forall tj ensures HasMetric(tj, m) <==> exists v :: Reads(tj, m, v) {
      forall v ensures Reads(tj, m, v) <==> HasMetric(tj, m) && FinalObjective(tj, m).number == v {
        ReadsMeaning(tj, m, v);
      }
      if HasMetric(tj, m) {
        assert Reads(tj, m, FinalObjective(tj, m).number);
      }
    }
    hide HasMetric;
  }

  method BuildSuggestionRequest(job: OptimizationJob, jobs: seq<TrainJob>, trialsToSpawn: int) returns (r: Option<Request>)
    ensures r.Some? <==> Buildable(job.spec, jobs)
    ensures r.Some? ==>
              && r.value.experiment == job.name && r.value.algorithm == "random"
              && r.value.metric == TargetMetric(job.spec)
              && (r.value.objective == Unspecified <==> TargetMetric(job.spec) == "")
              && (r.value.objective == ToMaximize ==> job.spec.objectives[0].direction == MAXIMIZE)
              && (r.value.objective == ToMinimize ==> job.spec.objectives[0].direction != MAXIMIZE)
              && r.value.currentRequestNumber == trialsToSpawn && r.value.totalRequestNumber == |jobs|
              && |r.value.trials| == |jobs|
              && forall i :: 0 <= i < |jobs| ==> Records(r.value.trials[i], jobs[i], TargetMetric(job.spec))
  {
    if !job.spec.random {
      return None;
    }
    var targetMetric, objective := "", Unspecified;
    if |job.spec.objectives| > 0 && job.spec.objectives[0].metric != "" {
      targetMetric := job.spec.objectives[0].metric;
      if job.spec.objectives[0].direction == MAXIMIZE {
        objective := ToMaximize;
      } else {
        objective := ToMinimize;
      }
    }
    var trials: seq<TrialRecord> := [];
    for i := 0 to |jobs|
      invariant |trials| == i
      invariant forall k :: 0 <= k < i ==> Records(trials[k], jobs[k], targetMetric)
      invariant forall k :: 0 <= k < i && IsFinished(jobs[k]) ==> HasMetric(jobs[k], targetMetric)
    {
      var tj := jobs[i];
      var assignments: seq<Assignment> := [];
      if tj.env.Some? {
        assignments := ReadAssignments(tj.env.value);
      }
      var state := Running;
      if IsFinished(tj) {
        var final := GetFinalObjectiveMetric(tj, targetMetric);
        if !final.Reported? {
          return None;
        }
        state := Succeeded(final.metric.name, final.metric.text);
      }
      trials := trials + [TrialRecord(tj.name, assignments, state)];
    }
    r := Some(Request(job.name, "random", objective, targetMetric, trials, trialsToSpawn, |jobs|));
  }

  // ---- generated names ----

  const TRIAL_SEPARATOR: string := "-trial-"
  const SERVICE_SUFFIX: string := "-search-algorithm"
  const MAX_NAME: nat := 63
  const RANDOM_SUFFIX: nat := 8
  /** How much of a job's name its service name can keep. */
  const SERVICE_PREFIX: nat := MAX_NAME - |SERVICE_SUFFIX|

  /** strings.TrimRight(s, "-"). */
  function TrimRight(s: string): (r: string)
    ensures |r| <= |s|
  {
    if s != "" && s[|s| - 1] == '-' then TrimRight(s[..|s| - 1]) else s
  }

  /** Only dashes are trimmed, and all of them. */
  lemma {:induction false} TrimRightMeaning(s: string)
    ensures var r := TrimRight(s);
      r == s[..|r|] && (r == "" || r[|r| - 1] != '-') && forall i :: |r| <= i < |s| ==> s[i] == '-'
  {
    if s != "" && s[|s| - 1] == '-' {
      TrimRightMeaning(s[..|s| - 1]);
    }
  }

  /** name, cut to at most max characters without leaving a dash at the cut. */
  function Shortened(name: string, max: nat): (r: string)
    ensures |r| <= max
  {
    if |name| > max then TrimRight(name[..max]) else name
  }

  function TrialName(jobName: string, suffix: string): (r: string)
    requires |suffix| == RANDOM_SUFFIX
  {
    Shortened(jobName, MAX_NAME - |TRIAL_SEPARATOR| - |suffix|) + TRIAL_SEPARATOR + suffix
  }

  function ServiceName(jobName: string): (r: string)
  {
    Shortened(jobName, SERVICE_PREFIX) + SERVICE_SUFFIX
  }

  /** p is what a name keeps when it is cut to max: all of it, or the cut without the dashes at
      its end. */
  predicate IsShortened(name: string, max: nat, p: string)
  {
    if |name| <= max then p == name
    else |p| <= max && p == name[..|p|] && (p == "" || p[|p| - 1] != '-') && forall i :: |p| <= i < max ==> name[i] == '-'
  }

  lemma ShortenedIs(name: string, max: nat)
    ensures IsShortened(name, max, Shortened(name, max))
  {
    if |name| > max {
      TrimRightMeaning(name[..max]);
      hide TrimRight;
    }
  }

  /** The generated names, spelt out. */
  lemma NameShapes(jobName: string, suffix: string) returns (p: string, q: string)
    requires |suffix| == RANDOM_SUFFIX
    ensures IsShortened(jobName, 48, p) && TrialName(jobName, suffix) == p + "-trial-" + suffix
    ensures IsShortened(jobName, 46, q) && ServiceName(jobName) == q + "-search-algorithm"
  {
    p, q := Shortened(jobName, 48), Shortened(jobName, 46);
    ShortenedIs(jobName, 48);
    ShortenedIs(jobName, 46);
    hide Shortened, IsShortened;
  }

  /** The entry carries the name and the text of the last metric of that name, a finite one. */
  ghost predicate TellsMetric(state: TrialState, ms: seq<Metric>, metric: string)
  {
    exists m :: IsLastNamed(ms, metric, m) && m.reading.Finite? && state == Succeeded(m.name, m.text)
  }

  /** What a history entry says, read off the trial's own fields. */
  lemma RecordsMeaning(t: TrialRecord, tj: TrainJob, metric: string)
    requires Records(t, tj, metric)
    ensures t.state.Running? <==> !Holds(tj.conditions, "Complete") && !Holds(tj.conditions, "Failed")
    ensures t.state.Succeeded? ==> tj.metrics.Some? && TellsMetric(t.state, tj.metrics.value, metric)
    ensures forall a :: a in t.assignments <==> EnvVar("KUBEFLOW_TRAINER_OPT_" + a.name, a.value) in tj.env.GetOr([])
  {
    FinalObjectiveMeaning(tj, metric);
    hide FinalObjective, IsLastNamed, Holds, Decode;
    forall a ensures a in t.assignments <==> EnvVar("KUBEFLOW_TRAINER_OPT_" + a.name, a.value) in tj.env.GetOr([]) {
      DecodedVariables(tj.env.GetOr([]), a);
    }
    if t.state.Succeeded? {
      var f := FinalObjective(tj, metric);
      assert f == Reported(f.metric, f.number);
      assert IsLastNamed(tj.metrics.value, metric, f.metric);
    }
  }

  /** A generated trial name is a valid DNS label length, and two trials of one job share a
      name only when they drew the same suffix. */
  lemma TrialNames(jobName: string, s: string, t: string)
    requires |s| == |t| == RANDOM_SUFFIX
    ensures |TrialName(jobName, s)| <= MAX_NAME
    ensures TrialName(jobName, s) == TrialName(jobName, t) <==> s == t
  {
    var a, b := TrialName(jobName, s), TrialName(jobName, t);
    assert a[|a| - RANDOM_SUFFIX..] == s;
    assert b[|b| - RANDOM_SUFFIX..] == t;
  }

  /** long is cut to exactly short: short, then nothing but dashes up to the cut. */
  predicate CutsTo(long: string, short: string)
    requires |short| <= SERVICE_PREFIX < |long|
  {
    && long[..|short|] == short && (short == "" || short[|short| - 1] != '-')
    && forall i :: |short| <= i < SERVICE_PREFIX ==> long[i] == '-'
  }

  /** Which names share a service. Short names share only with themselves, long ones with every
      long name that starts alike, and a long one with the short name it is cut to. */
  predicate ShareService(a: string, b: string)
  {
    if |a| <= SERVICE_PREFIX && |b| <= SERVICE_PREFIX then a == b
    else if |a| <= SERVICE_PREFIX then CutsTo(b, a)
    else if |b| <= SERVICE_PREFIX then CutsTo(a, b)
    else a[..SERVICE_PREFIX] == b[..SERVICE_PREFIX]
  }

  /** A cut that ends in no dash and drops only dashes is the trimmed string. */
  lemma TrimIs(s: string, r: string)
    requires |r| <= |s| && s[..|r|] == r && (r == "" || r[|r| - 1] != '-')
    requires forall i :: |r| <= i < |s| ==> s[i] == '-'
    ensures TrimRight(s) == r
  {
    TrimRightMeaning(s);
    hide TrimRight;
  }

  lemma CutsToMeans(long: string, short: string)
    requires |short| <= SERVICE_PREFIX < |long|
    ensures TrimRight(long[..SERVICE_PREFIX]) == short <==> CutsTo(long, short)
  {
    var cut := long[..SERVICE_PREFIX];
    TrimRightMeaning(cut);
    hide TrimRight;
    assert cut[..|short|] == long[..|short|];
    if CutsTo(long, short) {
      TrimIs(cut, short);
    }
  }

  /** Equally long strings that trim to the same string are the same. */
  lemma TrimKeepsLength(s: string, t: string)
    requires |s| == |t| && TrimRight(s) == TrimRight(t)
    ensures s == t
  {
    TrimRightMeaning(s);
    TrimRightMeaning(t);
    var r := TrimRight(s);
    hide TrimRight;
    forall i | 0 <= i < |s| ensures s[i] == t[i] {
      if i < |r| {
        assert s[i] == r[i] == t[i];
      }
    }
  }

  /** A service name is a valid DNS label length, and two OptimizationJobs of one namespace
      share it exactly as their names say. */
  lemma ServiceNames(a: string, b: string)
    ensures |ServiceName(a)| <= MAX_NAME
    ensures ServiceName(a) == ServiceName(b) <==> ShareService(a, b)
  {
    var x, y := Shortened(a, SERVICE_PREFIX), Shortened(b, SERVICE_PREFIX);
    assert ServiceName(a)[..|ServiceName(a)| - |SERVICE_SUFFIX|] == x;
    assert ServiceName(b)[..|ServiceName(b)| - |SERVICE_SUFFIX|] == y;
    hide TrimRight, CutsTo;
    if |a| <= SERVICE_PREFIX < |b| {
      CutsToMeans(b, a);
    } else if |b| <= SERVICE_PREFIX < |a| {
      CutsToMeans(a, b);
    } else if |a| > SERVICE_PREFIX && x == y {
      TrimKeepsLength(a[..SERVICE_PREFIX], b[..SERVICE_PREFIX]);
    }
  }

  /** Two different long names that start alike share a service. */
  lemma LongNamesCollide(prefix: string, x: string, y: string)
    requires |prefix| == SERVICE_PREFIX && x != "" && y != "" && x != y
    ensures prefix + x != prefix + y && ServiceName(prefix + x) == ServiceName(prefix + y)
  {
    ServiceNames(prefix + x, prefix + y);
    assert (prefix + x)[|prefix|..] == x && (prefix + y)[|prefix|..] == y;
    hide ServiceName;
  }

  /** So does a short name with itself filled up with dashes and continued. */
  lemma ShortNameCollides(a: string, dashes: string, x: string)
    requires a != "" && a[|a| - 1] != '-' && x != "" && |a| + |dashes| == SERVICE_PREFIX
    requires forall i :: 0 <= i < |dashes| ==> dashes[i] == '-'
    ensures a != a + dashes + x && ServiceName(a) == ServiceName(a + dashes + x)
  {
    ServiceNames(a, a + dashes + x);
    hide ServiceName;
    assert |a + dashes + x| > |a|;
  }
}
