/** Reading the objective metric of a trial, and choosing the best trial. */
module BestTrial {
  import opened Common
  import opened OptimizationTypes
  import opened Parameters
  import opened StringOrder

  // ---- the final objective metric ----

  datatype FinalMetric = Reported(metric: Metric, number: real) | Missing | Invalid

  function LastNamed(ms: seq<Metric>, name: string): (r: Option<Metric>)
  {
    if ms == [] then None
    else if ms[|ms| - 1].name == name then Some(ms[|ms| - 1])
    else LastNamed(ms[..|ms| - 1], name)
  }

  function FinalObjective(tj: TrainJob, name: string): (r: FinalMetric)
  {
    if tj.metrics.None? then Missing
    else match LastNamed(tj.metrics.value, name)
      case None => Missing
      case Some(m) => if m.reading.Finite? then Reported(m, m.reading.number) else Invalid
  }

  predicate HasMetric(tj: TrainJob, name: string)
  {
    FinalObjective(tj, name).Reported?
  }

  /** The scan runs backwards and stops at the first metric of that name it meets. */
  method GetFinalObjectiveMetric(tj: TrainJob, name: string) returns (r: FinalMetric)
    ensures r == FinalObjective(tj, name)
  {
    if tj.metrics.None? {
      return Missing;
    }
    var ms := tj.metrics.value;
    var i := |ms| - 1;
    assert ms[..|ms|] == ms;
    while i >= 0
      invariant -1 <= i < |ms|
      invariant LastNamed(ms, name) == LastNamed(ms[..i + 1], name)
    {
      var m := ms[i];
      if m.name == name {
        if m.reading.Malformed? || m.reading.NotANumber? || m.reading.Infinite? {
          return Invalid;
        }
        return Reported(m, m.reading.number);
      }
      assert ms[..i + 1][..i] == ms[..i];
      i := i - 1;
    }
    return Missing;
  }

  /** m is in ms under that name and no later entry has the name. */
  ghost predicate IsLastNamed(ms: seq<Metric>, name: string, m: Metric)
  {
    exists i :: LastAt(ms, name, m, i)
  }

  /** m sits at index i under that name and no later entry has the name. */
  ghost predicate LastAt(ms: seq<Metric>, name: string, m: Metric, i: int)
  {
    0 <= i < |ms| && ms[i] == m && m.name == name && forall j :: i < j < |ms| ==> ms[j].name != name
  }

  lemma {:induction false} LastNamedFound(ms: seq<Metric>, name: string) returns (i: int)
    ensures LastNamed(ms, name).None? ==> forall j :: 0 <= j < |ms| ==> ms[j].name != name
    ensures LastNamed(ms, name).Some? ==> LastAt(ms, name, LastNamed(ms, name).value, i)
  {
    i := |ms| - 1;
    if ms != [] && ms[i].name != name {
      var front := ms[..i];
      i := LastNamedFound(front, name);
      forall j | 0 <= j < |front| ensures front[j] == ms[j] { }
    }
  }

  lemma LastNamedMeaning(ms: seq<Metric>, name: string)
    ensures LastNamed(ms, name).None? <==> forall m :: m in ms ==> m.name != name
    ensures forall m :: LastNamed(ms, name) == Some(m) <==> IsLastNamed(ms, name, m)
  {
    hide LastNamed;
    var k := LastNamedFound(ms, name);
    if LastNamed(ms, name).Some? {
      assert ms[k] in ms;
    }
    forall m ensures LastNamed(ms, name) == Some(m) <==> IsLastNamed(ms, name, m) {
      if i :| LastAt(ms, name, m, i) {
        assert LastNamed(ms, name).Some?;
        assert i == k;
      }
    }
  }

  /** A metric counts exactly when it is the last one of its name and is finite; it is
      missing exactly when no metric has the name. */
  lemma FinalObjectiveMeaning(tj: TrainJob, name: string)
    ensures FinalObjective(tj, name).Missing?
       <==> tj.metrics.None? || forall m :: m in tj.metrics.value ==> m.name != name
    ensures forall m, v :: (FinalObjective(tj, name) == Reported(m, v) <==>
              tj.metrics.Some? && m.reading == Finite(v) && IsLastNamed(tj.metrics.value, name, m))
  {
    if tj.metrics.Some? {
      LastNamedMeaning(tj.metrics.value, name);
    }
  }

  // ---- the order on trials ----

  /** v is the number the trial reported last under the name. */
  ghost predicate Reads(tj: TrainJob, name: string, v: real)
  {
    tj.metrics.Some? && exists m :: IsLastNamed(tj.metrics.value, name, m) && m.reading == Finite(v)
  }

  lemma ReadsMeaning(tj: TrainJob, name: string, v: real)
    ensures Reads(tj, name, v) <==> HasMetric(tj, name) && FinalObjective(tj, name).number == v
  {
    FinalObjectiveMeaning(tj, name);
    hide FinalObjective, IsLastNamed;
  }

  predicate ValidDirection(direction: string)
  {
    direction == MAXIMIZE || direction == MINIMIZE
  }

  /** a is strictly better than b: by value in the objective's direction, then by earlier
      creation, then by smaller name. */
  predicate Beats(metric: string, direction: string, a: TrainJob, b: TrainJob)
    requires HasMetric(a, metric) && HasMetric(b, metric)
  {
    var x, y := FinalObjective(a, metric).number, FinalObjective(b, metric).number;
    if x == y then a.created < b.created || (a.created == b.created && Less(a.name, b.name))
    else (direction == MAXIMIZE && x > y) || (direction == MINIMIZE && x < y)
  }

  /** In numbers: b reports x and a reports y, x is no worse than y in the direction, and if they
      are equal b is no younger, and if that too is equal a has no smaller name. */
  ghost predicate NoWorseThan(metric: string, direction: string, b: TrainJob, a: TrainJob)
  {
    exists x: real, y: real :: Reads(b, metric, x) && Reads(a, metric, y) &&
      (direction == "Maximize" ==> x >= y) && (direction == "Minimize" ==> x <= y) &&
      (x == y ==> b.created <= a.created && (b.created == a.created ==> !Less(a.name, b.name)))
  }

  lemma NoWorseMeaning(metric: string, direction: string, b: TrainJob, a: TrainJob)
    requires HasMetric(a, metric) && HasMetric(b, metric)
    ensures NoWorseThan(metric, direction, b, a) <==> !Beats(metric, direction, a, b)
  {
    var x, y := FinalObjective(b, metric).number, FinalObjective(a, metric).number;
    forall v ensures (Reads(b, metric, v) <==> v == x) && (Reads(a, metric, v) <==> v == y) {
      ReadsMeaning(b, metric, v);
      ReadsMeaning(a, metric, v);
    }
    hide FinalObjective, Reads;
    assert Reads(b, metric, x) && Reads(a, metric, y);
  }

  lemma BeatsTransitive(metric: string, direction: string, a: TrainJob, b: TrainJob, c: TrainJob)
    requires HasMetric(a, metric) && HasMetric(b, metric) && HasMetric(c, metric)
    requires Beats(metric, direction, a, b) && Beats(metric, direction, b, c)
    ensures Beats(metric, direction, a, c)
  {
    if Less(a.name, b.name) && Less(b.name, c.name) {
      Transitive(a.name, b.name, c.name);
    }
  }

  lemma BeatsTotal(metric: string, direction: string, a: TrainJob, b: TrainJob)
    requires ValidDirection(direction) && HasMetric(a, metric) && HasMetric(b, metric) && a.name != b.name
    ensures Beats(metric, direction, a, b) || Beats(metric, direction, b, a)
  {
    Total(a.name, b.name);
  }

  lemma BeatsIrreflexive(metric: string, direction: string, a: TrainJob)
    requires HasMetric(a, metric)
    ensures !Beats(metric, direction, a, a)
  {
    Irreflexive(a.name);
  }

  /** If c does not beat b and b does not beat a then c does not beat a. */
  lemma NotBeatenTransitive(metric: string, direction: string, a: TrainJob, b: TrainJob, c: TrainJob)
    requires ValidDirection(direction) && HasMetric(a, metric) && HasMetric(b, metric) && HasMetric(c, metric)
    requires !Beats(metric, direction, b, a) && !Beats(metric, direction, c, b)
    ensures !Beats(metric, direction, c, a)
  {
    Total(a.name, b.name);
    Total(b.name, c.name);
    Irreflexive(a.name);
    if Less(a.name, b.name) && Less(b.name, c.name) { Transitive(a.name, b.name, c.name); }
    if Less(c.name, a.name) && Less(a.name, c.name) { Asymmetric(a.name, c.name); }
    if Less(c.name, a.name) && Less(a.name, b.name) { Transitive(c.name, a.name, b.name); }
    if Less(b.name, c.name) && Less(c.name, a.name) { Transitive(b.name, c.name, a.name); }
  }

  // ---- the fold ----

  function Prefer(metric: string, direction: string, best: Option<TrainJob>, tj: TrainJob): (r: Option<TrainJob>)
    requires best.Some? ==> HasMetric(best.value, metric)
    ensures r.Some? ==> HasMetric(r.value, metric)
  {
    if !HasMetric(tj, metric) then best
    else if best.None? || Beats(metric, direction, tj, best.value) then Some(tj)
    else best
  }

  function Best(metric: string, direction: string, jobs: seq<TrainJob>): (r: Option<TrainJob>)
    ensures r.Some? ==> HasMetric(r.value, metric)
  {
    if jobs == [] then None
    else Prefer(metric, direction, Best(metric, direction, jobs[..|jobs| - 1]), jobs[|jobs| - 1])
  }

  /** The loop over trainJobs. */
  method PickBest(metric: string, direction: string, jobs: seq<TrainJob>) returns (bestJob: Option<TrainJob>)
    ensures bestJob == Best(metric, direction, jobs)
  {
    bestJob := None;
    var bestVal := 0.0;
    for i := 0 to |jobs|
      invariant bestJob == Best(metric, direction, jobs[..i])
      invariant bestJob.Some? ==> bestVal == FinalObjective(bestJob.value, metric).number
    {
      assert jobs[..i + 1][..i] == jobs[..i];
      var tj := jobs[i];
      var final := GetFinalObjectiveMetric(tj, metric);
      if final.Reported? {
        var val := final.number;
        if bestJob.None? {
          bestJob, bestVal := Some(tj), val;
        } else if val == bestVal {
          if tj.created < bestJob.value.created {
            bestJob := Some(tj);
          } else if tj.created == bestJob.value.created {
            if Less(tj.name, bestJob.value.name) {
              bestJob := Some(tj);
            }
          }
        } else if direction == MAXIMIZE && val > bestVal {
          bestJob, bestVal := Some(tj), val;
        } else if direction == MINIMIZE && val < bestVal {
          bestJob, bestVal := Some(tj), val;
        }
      }
    }
    assert jobs[..|jobs|] == jobs;
  }

  /** b is a trial with a metric that no other trial with a metric beats. */
  ghost predicate IsOptimum(metric: string, direction: string, jobs: seq<TrainJob>, b: TrainJob)
  {
    b in jobs && HasMetric(b, metric) &&
    forall tj :: tj in jobs && HasMetric(tj, metric) ==> !Beats(metric, direction, tj, b)
  }

  lemma {:induction false} BestIsOptimum(metric: string, direction: string, jobs: seq<TrainJob>)
    requires ValidDirection(direction)
    ensures Best(metric, direction, jobs).None? <==> forall tj :: tj in jobs ==> !HasMetric(tj, metric)
    ensures Best(metric, direction, jobs).Some? ==> IsOptimum(metric, direction, jobs, Best(metric, direction, jobs).value)
  {
    if jobs != [] {
      var n := |jobs| - 1;
      BestIsOptimum(metric, direction, jobs[..n]);
      var prior, last := Best(metric, direction, jobs[..n]), jobs[n];
      assert jobs == jobs[..n] + [last];
      if HasMetric(last, metric) {
        BeatsIrreflexive(metric, direction, last);
        if prior.Some? && Beats(metric, direction, last, prior.value) {
          forall tj | tj in jobs[..n] && HasMetric(tj, metric) ensures !Beats(metric, direction, tj, last) {
            if Beats(metric, direction, tj, last) {
              BeatsTransitive(metric, direction, tj, last, prior.value);
            }
          }
        }
      }
    }
  }

  /** The fold in numbers: it finds none exactly when no trial reports a number, and else one that
      is no worse than any trial that does. */
  lemma BestInNumbers(metric: string, direction: string, jobs: seq<TrainJob>)
    requires ValidDirection(direction)
    ensures Best(metric, direction, jobs).None? <==> forall tj, y :: tj in jobs ==> !Reads(tj, metric, y)
    ensures Best(metric, direction, jobs).Some? ==>
      var b := Best(metric, direction, jobs).value;
      b in jobs && forall tj, y :: tj in jobs && Reads(tj, metric, y) ==> NoWorseThan(metric, direction, b, tj)
  {
    BestIsOptimum(metric, direction, jobs);
    hide Best, Beats, NoWorseThan, Reads, FinalObjective;
    forall tj, y ensures Reads(tj, metric, y) ==> HasMetric(tj, metric) {
      ReadsMeaning(tj, metric, y);
    }
    if Best(metric, direction, jobs).Some? {
      var b := Best(metric, direction, jobs).value;
      ReadsMeaning(b, metric, FinalObjective(b, metric).number);
      forall tj, y | tj in jobs && Reads(tj, metric, y) ensures NoWorseThan(metric, direction, b, tj) {
        NoWorseMeaning(metric, direction, b, tj);
      }
    }
  }

  /** Among trials with distinct names the optimum is unique, whatever list they are in. */
  lemma OptimumIsUnique(metric: string, direction: string, a: seq<TrainJob>, b: seq<TrainJob>, x: TrainJob, y: TrainJob)
    requires ValidDirection(direction) && DistinctNames(a)
    requires forall tj :: tj in a <==> tj in b
    requires IsOptimum(metric, direction, a, x) && IsOptimum(metric, direction, b, y)
    ensures x == y
  {
    if x.name == y.name {
      DistinctNamesIdentify(a, x, y);
    } else {
      BeatsTotal(metric, direction, x, y);
    }
  }

  lemma BestIgnoresOrder(metric: string, direction: string, a: seq<TrainJob>, b: seq<TrainJob>)
    requires ValidDirection(direction) && DistinctNames(a) && multiset(a) == multiset(b)
    ensures Best(metric, direction, a) == Best(metric, direction, b)
  {
    SameMembers(a, b);
    BestIsOptimum(metric, direction, a);
    BestIsOptimum(metric, direction, b);
    var x, y := Best(metric, direction, a), Best(metric, direction, b);
    if x.Some? && y.Some? {
      OptimumIsUnique(metric, direction, a, b, x.value, y.value);
    }
  }

  lemma SameMembers(a: seq<TrainJob>, b: seq<TrainJob>)
    requires multiset(a) == multiset(b)
    ensures forall tj :: tj in a <==> tj in b
  {
    forall tj ensures tj in a <==> tj in b {
      assert tj in a <==> tj in multiset(a);
      assert tj in b <==> tj in multiset(b);
    }
  }

  // ---- ExtractBestResult ----

  function ResultFor(tj: TrainJob): (r: BestResult)
  {
    BestResult(tj.name, SortedParameters(Decode(tj.env.GetOr([]))))
  }

  function Extracted(spec: OptimizationSpec, jobs: seq<TrainJob>): (r: Option<BestResult>)
  {
    if |spec.objectives| == 0 || spec.objectives[0].metric == "" then None
    else match Best(spec.objectives[0].metric, spec.objectives[0].direction, jobs)
      case None => None
      case Some(tj) => Some(ResultFor(tj))
  }

  /** What is extracted: nothing without a named objective or without a trial that reports a
      number, and else the name of a trial that is no worse than any other, with the last value
      of each of its prefixed variables, sorted by name. */
  lemma ExtractedIsBest(spec: OptimizationSpec, jobs: seq<TrainJob>)
    ensures |spec.objectives| == 0 || spec.objectives[0].metric == "" ==> Extracted(spec, jobs).None?
    ensures |spec.objectives| > 0 && spec.objectives[0].metric != "" && ValidDirection(spec.objectives[0].direction) ==>
      var o, r := spec.objectives[0], Extracted(spec, jobs);
      && (r.None? <==> forall tj, y :: tj in jobs ==> !Reads(tj, o.metric, y))
      && (r.Some? ==> exists b :: b in jobs && Describes(o, jobs, b, r.value))
  {
    hide Best, NoWorseThan, Reads, ListsVariables, FinalObjective;
    if |spec.objectives| > 0 && spec.objectives[0].metric != "" && ValidDirection(spec.objectives[0].direction) {
      var o := spec.objectives[0];
      BestInNumbers(o.metric, o.direction, jobs);
      if Best(o.metric, o.direction, jobs).Some? {
        var b := Best(o.metric, o.direction, jobs).value;
        ResultLists(b);
        assert b in jobs && Describes(o, jobs, b, Extracted(spec, jobs).value);
      }
    }
  }

  /** The result names b, lists its variables, and no trial that reports a number is better. */
  ghost predicate Describes(o: Objective, jobs: seq<TrainJob>, b: TrainJob, r: BestResult)
  {
    && r.trainJobName == b.name && ListsVariables(b, r.parameters)
    && forall tj, y :: tj in jobs && Reads(tj, o.metric, y) ==> NoWorseThan(o.metric, o.direction, b, tj)
  }

  /** ps is sorted by name, its names are those of the trial's prefixed variables, and each entry
      is one of these variables. */
  ghost predicate ListsVariables(tj: TrainJob, ps: seq<Assignment>)
  {
    && Ascending(ParameterNames(ps))
    && (forall x :: x in ps ==> EnvVar("KUBEFLOW_TRAINER_OPT_" + x.name, x.value) in tj.env.GetOr([]))
    && (forall a: Assignment :: EnvVar("KUBEFLOW_TRAINER_OPT_" + a.name, a.value) in tj.env.GetOr([]) ==> a.name in ParameterNames(ps))
  }

  lemma ResultLists(tj: TrainJob)
    ensures ResultFor(tj).trainJobName == tj.name && ListsVariables(tj, ResultFor(tj).parameters)
  {
    var d, ps := Decode(tj.env.GetOr([])), ResultFor(tj).parameters;
    ReportedParameters(d);
    hide SortedParameters, Decode, Ascending;
    forall x | x in ps ensures EnvVar("KUBEFLOW_TRAINER_OPT_" + x.name, x.value) in tj.env.GetOr([]) {
      ReportedValueIsLast(d, x);
      DecodedVariables(tj.env.GetOr([]), x);
    }
    forall a: Assignment | EnvVar("KUBEFLOW_TRAINER_OPT_" + a.name, a.value) in tj.env.GetOr([]) ensures a.name in ParameterNames(ps) {
      DecodedVariables(tj.env.GetOr([]), a);
      ReportedValueIsLast(d, a);
      var i := IndexOf(d, a);
      assert ParameterNames(d)[i] == a.name;
      assert a.name in multiset(ParameterNames(ps));
    }
  }

  method ExtractBestResult(spec: OptimizationSpec, jobs: seq<TrainJob>) returns (r: Option<BestResult>)
    ensures r == Extracted(spec, jobs)
  {
    if |spec.objectives| == 0 || spec.objectives[0].metric == "" {
      return None;
    }
    var bestJob := PickBest(spec.objectives[0].metric, spec.objectives[0].direction, jobs);
    if bestJob.None? {
      return None;
    }
    var parameters: seq<Assignment> := [];
    if bestJob.value.env.Some? {
      parameters := ReportParameters(bestJob.value.env.value);
    }
    assert SortedParameters([]) == [];
    r := Some(BestResult(bestJob.value.name, parameters));
  }

  /** The whole result does not depend on the order of the listing. */
  ghost predicate OrderIndependent(direction: string)
  {
    forall spec: OptimizationSpec, a, b ::
      |spec.objectives| > 0 && spec.objectives[0].direction == direction && DistinctNames(a) && multiset(a) == multiset(b)
      ==> Extracted(spec, a) == Extracted(spec, b)
  }

  /** Two trials whose values differ: with any other direction the first in the list wins. */
  lemma OtherDirectionDependsOnOrder(direction: string)
    requires !ValidDirection(direction)
    ensures !OrderIndependent(direction)
  {
    var low := TrainJob("a", None, 1, None, [], Some([Metric("loss", "1", Finite(1.0))]));
    var high := TrainJob("b", None, 1, None, [], Some([Metric("loss", "2", Finite(2.0))]));
    var spec := OptimizationSpec([Objective("loss", direction)], true, 2, 1, None);
    assert LastNamed(low.metrics.value, "loss") == Some(low.metrics.value[0]);
    assert LastNamed(high.metrics.value, "loss") == Some(high.metrics.value[0]);
    FirstOfTwoWins(direction, low, high);
    FirstOfTwoWins(direction, high, low);
    var a, b := [low, high], [high, low];
    assert low.name != high.name && DistinctNames(a) && multiset(a) == multiset(b);
    assert Extracted(spec, a).value.trainJobName != Extracted(spec, b).value.trainJobName;
  }

  lemma FirstOfTwoWins(direction: string, x: TrainJob, y: TrainJob)
    requires !ValidDirection(direction) && HasMetric(x, "loss") && HasMetric(y, "loss")
    requires FinalObjective(x, "loss").number != FinalObjective(y, "loss").number
    ensures Best("loss", direction, [x, y]) == Some(x)
  {
    assert [x, y][..1] == [x];
    assert [x][..0] == [];
    assert Best("loss", direction, [x]) == Some(x);
  }

  /** The result is a function of the set of trials exactly for the two directions the API
      admits. */
  lemma OrderIndependence(direction: string)
    ensures OrderIndependent(direction) <==> ValidDirection(direction)
  {
    if ValidDirection(direction) {
      forall spec: OptimizationSpec, a, b |
        |spec.objectives| > 0 && spec.objectives[0].direction == direction && DistinctNames(a) && multiset(a) == multiset(b)
        ensures Extracted(spec, a) == Extracted(spec, b)
      {
        BestIgnoresOrder(spec.objectives[0].metric, direction, a, b);
      }
    } else {
      OtherDirectionDependsOnOrder(direction);
    }
  }
}
