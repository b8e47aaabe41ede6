/** Classifying the TrainJobs of a namespace as trials of one OptimizationJob. */
module Trials {
  import opened Common
  import opened Conditions
  import opened OptimizationTypes
  import opened BestTrial

  /** The ways the reconciler sorts TrainJobs. Unmeasured trials are those among the Broken
      ones that ended without a usable objective metric. */
  datatype Kind = Owned(uid: string) | Active | Valid(metric: string) | Broken(metric: string) | Unmeasured(metric: string)

  predicate Is(k: Kind, tj: TrainJob)
  {
    match k
    case Owned(uid) => tj.owner.Some? && tj.owner.value.uid == uid
    case Active => !IsFinished(tj)
    case Valid(m) => IsFinished(tj) && !Holds(tj.conditions, FAILED) && HasMetric(tj, m)
    case Broken(m) => IsFinished(tj) && (Holds(tj.conditions, FAILED) || !HasMetric(tj, m))
    case Unmeasured(m) => IsFinished(tj) && !Holds(tj.conditions, FAILED) && !HasMetric(tj, m)
  }

  /** The kinds, told by the trial's own conditions and metrics. */
  lemma KindMeaning(tj: TrainJob, uid: string, metric: string)
    ensures Is(Owned(uid), tj) <==> tj.owner.Some? && tj.owner.value.uid == uid
    ensures Is(Active, tj) <==> !Holds(tj.conditions, "Complete") && !Holds(tj.conditions, "Failed")
    ensures Is(Valid(metric), tj) <==>
            Holds(tj.conditions, "Complete") && !Holds(tj.conditions, "Failed") && exists v :: Reads(tj, metric, v)
    ensures Is(Unmeasured(metric), tj) <==>
            Holds(tj.conditions, "Complete") && !Holds(tj.conditions, "Failed") && forall v :: !Reads(tj, metric, v)
    ensures Is(Broken(metric), tj) <==> Holds(tj.conditions, "Failed") || Is(Unmeasured(metric), tj)
  {
    forall v ensures Reads(tj, metric, v) <==> HasMetric(tj, metric) && FinalObjective(tj, metric).number == v {
      ReadsMeaning(tj, metric, v);
    }
    hide Reads, Holds, FinalObjective;
    if HasMetric(tj, metric) {
      assert Reads(tj, metric, FinalObjective(tj, metric).number);
    }
  }

  /** The elements of that kind, in order. */
  function Pick(s: seq<TrainJob>, k: Kind): (r: seq<TrainJob>)
  {
    if s == [] then []
    else if Is(k, s[|s| - 1]) then Pick(s[..|s| - 1], k) + [s[|s| - 1]]
    else Pick(s[..|s| - 1], k)
  }

  lemma PickSnoc(s: seq<TrainJob>, x: TrainJob, k: Kind)
    ensures Pick(s + [x], k) == if Is(k, x) then Pick(s, k) + [x] else Pick(s, k)
  {
    assert (s + [x])[..|s|] == s;
    hide Is;
  }

  lemma {:induction false} PickMembers(s: seq<TrainJob>, k: Kind)
    ensures forall x :: x in Pick(s, k) <==> x in s && Is(k, x)
  {
    if s != [] {
      PickMembers(s[..|s| - 1], k);
      assert s == s[..|s| - 1] + [s[|s| - 1]];
    }
  }

  lemma {:induction false} PickDistinct(s: seq<TrainJob>, k: Kind)
    requires DistinctNames(s)
    ensures DistinctNames(Pick(s, k))
  {
    if s != [] {
      var n := |s| - 1;
      PickDistinct(s[..n], k);
      PickMembers(s[..n], k);
      var front := Pick(s[..n], k);
      forall j | 0 <= j < |front| ensures front[j].name != s[n].name {
        assert front[j] in s[..n];
        var i := IndexOf(s[..n], front[j]);
        assert s[i].name != s[n].name;
      }
    }
  }

  /** Every trial is active, valid or broken, and only one of these. */
  lemma {:induction false} PickPartition(s: seq<TrainJob>, metric: string)
    ensures |s| == |Pick(s, Active)| + |Pick(s, Valid(metric))| + |Pick(s, Broken(metric))|
  {
    if s != [] {
      PickPartition(s[..|s| - 1], metric);
    }
  }

  function First(s: seq<TrainJob>): (r: Option<TrainJob>)
  {
    if s == [] then None else Some(s[0])
  }

  /** What one pass over the listing yields. */
  datatype Tally = Tally(
    owned: seq<TrainJob>, valid: seq<TrainJob>, active: int, succeeded: int, failed: int,
    unmeasured: Option<TrainJob>)

  function TallyOf(items: seq<TrainJob>, uid: string, metric: string): (t: Tally)
  {
    var owned := Pick(items, Owned(uid));
    Tally(owned, Pick(owned, Valid(metric)), |Pick(owned, Active)|, |Pick(owned, Valid(metric))|,
          |Pick(owned, Broken(metric))|, First(Pick(owned, Unmeasured(metric))))
  }

  /** The tally with one more TrainJob in the listing. */
  function Tallied(t: Tally, tj: TrainJob, uid: string, metric: string): (r: Tally)
  {
    if !Is(Owned(uid), tj) then t
    else Tally(
        t.owned + [tj],
        if Is(Valid(metric), tj) then t.valid + [tj] else t.valid,
        if Is(Active, tj) then t.active + 1 else t.active,
        if Is(Valid(metric), tj) then t.succeeded + 1 else t.succeeded,
        if Is(Broken(metric), tj) then t.failed + 1 else t.failed,
        if t.unmeasured.None? && Is(Unmeasured(metric), tj) then Some(tj) else t.unmeasured)
  }

  lemma TallySnoc(items: seq<TrainJob>, tj: TrainJob, uid: string, metric: string)
    ensures TallyOf(items + [tj], uid, metric) == Tallied(TallyOf(items, uid, metric), tj, uid, metric)
  {
    PickSnoc(items, tj, Owned(uid));
    var owned := Pick(items, Owned(uid));
    PickSnoc(owned, tj, Valid(metric));
    PickSnoc(owned, tj, Active);
    PickSnoc(owned, tj, Broken(metric));
    PickSnoc(owned, tj, Unmeasured(metric));
    hide Pick, Is;
  }

  /** The trial whose metric is complained about is the first one in the listing. */
  lemma {:induction false} FirstUnmeasured(items: seq<TrainJob>, uid: string, metric: string) returns (i: nat)
    ensures var u := TallyOf(items, uid, metric).unmeasured;
      && (u.None? ==> i == |items|)
      && (u.Some? ==> i < |items| && items[i] == u.value && Is(Owned(uid), items[i]) && Is(Unmeasured(metric), items[i]))
      && forall j :: 0 <= j < i ==> !(Is(Owned(uid), items[j]) && Is(Unmeasured(metric), items[j]))
  {
    i := 0;
    if items != [] {
      var n := |items| - 1;
      i := FirstUnmeasured(items[..n], uid, metric);
      assert items == items[..n] + [items[n]];
      TallySnoc(items[..n], items[n], uid, metric);
      if TallyOf(items, uid, metric).unmeasured.None? {
        i := n + 1;
      }
      hide TallyOf, Is;
    }
  }

  /** One turn of the classification loop. */
  method ClassifyOne(t: Tally, tj: TrainJob, uid: string, metric: string) returns (r: Tally)
    ensures r == Tallied(t, tj, uid, metric)
  {
    if tj.owner.None? || tj.owner.value.uid != uid {
      return t;
    }
    r := t.(owned := t.owned + [tj]);
    if IsFinished(tj) {
      if Holds(tj.conditions, FAILED) {
        r := r.(failed := r.failed + 1);
      } else {
        var final := GetFinalObjectiveMetric(tj, metric);
        if !final.Reported? {
          r := r.(failed := r.failed + 1);
          if r.unmeasured.None? {
            r := r.(unmeasured := Some(tj));
          }
          return;
        }
        r := r.(succeeded := r.succeeded + 1, valid := r.valid + [tj]);
      }
    } else {
      r := r.(active := r.active + 1);
    }
  }

  method Classify(items: seq<TrainJob>, uid: string, metric: string) returns (t: Tally)
    ensures t == TallyOf(items, uid, metric)
  {
    t := Tally([], [], 0, 0, 0, None);
    for i := 0 to |items|
      invariant t == TallyOf(items[..i], uid, metric)
    {
      assert items[..i + 1] == items[..i] + [items[i]];
      TallySnoc(items[..i], items[i], uid, metric);
      t := ClassifyOne(t, items[i], uid, metric);
    }
    assert items[..|items|] == items;
  }

  // ---- the listing against the store ----

  /** The field index on TrainJobs: the owner's name, for owners that are OptimizationJobs. */
  predicate IndexedUnder(tj: TrainJob, ownerName: string)
  {
    tj.owner.Some? && tj.owner.value.kind == OptimizationJobKind && tj.owner.value.name == ownerName
  }

  /** An up-to-date listing, in any order. */
  ghost predicate FreshListing(items: seq<TrainJob>, jobs: map<string, TrainJob>, ownerName: string)
  {
    DistinctNames(items) &&
    forall tj :: tj in items <==> tj.name in jobs && jobs[tj.name] == tj && IndexedUnder(tj, ownerName)
  }

  function ControllerRef(job: OptimizationJob): (r: OwnerRef)
  {
    OwnerRef(OptimizationJobKind, job.name, job.uid)
  }

  /** Objects are stored under their own name, and an owner reference with the job's UID is
      the job's own reference. */
  ghost predicate WellKept(jobs: map<string, TrainJob>, job: OptimizationJob)
  {
    forall n :: n in jobs ==>
      jobs[n].name == n && (Is(Owned(job.uid), jobs[n]) ==> jobs[n].owner == Some(ControllerRef(job)))
  }

  /** The names of the job's trials. */
  function TrialsOf(jobs: map<string, TrainJob>, uid: string): (r: set<string>)
  {
    set n | n in jobs && Is(Owned(uid), jobs[n])
  }

  function KindOf(jobs: map<string, TrainJob>, uid: string, k: Kind): (r: set<string>)
  {
    set n | n in jobs && Is(Owned(uid), jobs[n]) && Is(k, jobs[n])
  }

  function NameSet(s: seq<TrainJob>): (r: set<string>)
  {
    set tj | tj in s :: tj.name
  }

  lemma {:induction false} DistinctNamesCount(s: seq<TrainJob>)
    requires DistinctNames(s)
    ensures |NameSet(s)| == |s|
  {
    if s != [] {
      var n := |s| - 1;
      DistinctNamesCount(s[..n]);
      assert s == s[..n] + [s[n]];
      assert NameSet(s) == NameSet(s[..n]) + {s[n].name};
    }
  }

  lemma ListedTrials(items: seq<TrainJob>, jobs: map<string, TrainJob>, job: OptimizationJob)
    requires FreshListing(items, jobs, job.name) && WellKept(jobs, job)
    ensures forall tj :: tj in Pick(items, Owned(job.uid))
              <==> tj.name in jobs && jobs[tj.name] == tj && Is(Owned(job.uid), tj)
    ensures DistinctNames(Pick(items, Owned(job.uid)))
  {
    PickMembers(items, Owned(job.uid));
    PickDistinct(items, Owned(job.uid));
  }

  /** The counters equal the number of trials of that kind in the store. */
  lemma CountersAreExact(items: seq<TrainJob>, jobs: map<string, TrainJob>, job: OptimizationJob, k: Kind)
    requires FreshListing(items, jobs, job.name) && WellKept(jobs, job)
    ensures |Pick(Pick(items, Owned(job.uid)), k)| == |KindOf(jobs, job.uid, k)|
    ensures |Pick(items, Owned(job.uid))| == |TrialsOf(jobs, job.uid)|
  {
    var owned := Pick(items, Owned(job.uid));
    ListedTrials(items, jobs, job);
    PickDistinct(owned, k);
    PickMembers(owned, k);
    DistinctNamesCount(owned);
    DistinctNamesCount(Pick(owned, k));
    forall n ensures n in TrialsOf(jobs, job.uid) <==> n in NameSet(owned) {
      if n in TrialsOf(jobs, job.uid) { assert jobs[n] in owned; }
    }
    forall n ensures n in KindOf(jobs, job.uid, k) <==> n in NameSet(Pick(owned, k)) {
      if n in KindOf(jobs, job.uid, k) { assert jobs[n] in Pick(owned, k); }
    }
    assert TrialsOf(jobs, job.uid) == NameSet(owned);
    assert KindOf(jobs, job.uid, k) == NameSet(Pick(owned, k));
  }
}
