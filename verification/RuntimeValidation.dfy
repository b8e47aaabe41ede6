/** The admission check of a TrainingRuntime's replicated jobs, and what an accepted runtime
    gives every TrainJob built from it. */
module RuntimeValidation {
  import opened Common
  import opened Upsert
  import opened NodeOverlay
  import opened TemplateOverlay

  const MODEL_INITIALIZER: string := "model-initializer"
  const DATASET_INITIALIZER: string := "dataset-initializer"

  datatype Field = InitContainers | Containers

  /** One reported error, with the field path it points to. */
  datatype Violation =
    | BadClaim(job: nat, list: Field, container: nat, claim: nat)
    | BadReplicas(job: nat)
    | MissingContainer(job: nat)

  function ListOf(pod: Pod, list: Field): (r: seq<Container>)
  {
    match list
    case InitContainers => pod.initContainers
    case Containers => pod.containers
  }

  predicate Declares(pod: Pod, name: string)
  {
    exists i :: 0 <= i < |pod.claims| && pod.claims[i].0 == name
  }

  predicate KnownAncestor(ancestor: string)
  {
    ancestor == TRAINER || ancestor == MODEL_INITIALIZER || ancestor == DATASET_INITIALIZER
  }

  function ExpectedContainer(ancestor: string): (r: string)
  {
    if ancestor == TRAINER then NODE else ancestor
  }

  predicate HasContainer(pod: Pod, name: string)
  {
    exists k :: 0 <= k < |pod.containers| && pod.containers[k].name == name
  }

  predicate ClaimUndeclared(pod: Pod, list: Field, k: nat, m: nat)
  {
    && k < |ListOf(pod, list)| && m < |ListOf(pod, list)[k].resources.claims|
    && !Declares(pod, ListOf(pod, list)[k].resources.claims[m].name)
  }

  predicate LacksContainer(job: Job)
  {
    job.ancestor.Some? && KnownAncestor(job.ancestor.value) && !HasContainer(job.pod, ExpectedContainer(job.ancestor.value))
  }

  /** What is wrong with the job at index v.job. */
  predicate IsWrong(job: Job, v: Violation)
  {
    match v
    case BadClaim(_, list, k, m) => ClaimUndeclared(job.pod, list, k, m)
    case BadReplicas(_) => job.replicas < 1
    case MissingContainer(_) => LacksContainer(job)
  }

  predicate IsViolation(jobs: seq<Job>, v: Violation)
  {
    v.job < |jobs| && IsWrong(jobs[v.job], v)
  }

  /** The claims of one list of containers. */
  method ValidateClaims(idx: nat, pod: Pod, podClaims: set<string>, list: Field) returns (errs: seq<Violation>)
    requires forall name :: name in podClaims <==> Declares(pod, name)
    ensures Distinct(errs)
    ensures forall v :: v in errs <==> v.BadClaim? && v.job == idx && v.list == list && ClaimUndeclared(pod, list, v.container, v.claim)
  {
    errs := [];
    var containers := ListOf(pod, list);
    hide Declares, ListOf;
    for k := 0 to |containers|
      invariant Distinct(errs)
      invariant forall v :: v in errs <==>
                  v.BadClaim? && v.job == idx && v.list == list && v.container < k && ClaimUndeclared(pod, list, v.container, v.claim)
    {
      ghost var before := errs;
      for m := 0 to |containers[k].resources.claims|
        invariant Distinct(errs)
        invariant forall v :: v in errs <==>
                    v in before || (v.BadClaim? && v.job == idx && v.list == list && v.container == k && v.claim < m &&
                                    ClaimUndeclared(pod, list, k, v.claim))
      {
        if containers[k].resources.claims[m].name !in podClaims {
          errs := errs + [BadClaim(idx, list, k, m)];
        }
      }
    }
  }

  method HasRequiredContainer(pod: Pod, ancestor: string) returns (has: bool)
    ensures has <==> HasContainer(pod, ExpectedContainer(ancestor))
  {
    has := false;
    for k := 0 to |pod.containers|
      invariant forall i :: 0 <= i < k ==> pod.containers[i].name != ExpectedContainer(ancestor)
    {
      if pod.containers[k].name == ExpectedContainer(ancestor) {
        return true;
      }
    }
  }

  method PodClaimNames(pod: Pod) returns (names: set<string>)
    ensures forall name :: name in names <==> Declares(pod, name)
  {
    names := {};
    for i := 0 to |pod.claims|
      invariant forall name :: name in names <==> exists k :: 0 <= k < i && pod.claims[k].0 == name
    {
      names := names + {pod.claims[i].0};
    }
  }

  /** Exactly the violations are reported, each once. */
  method ValidateReplicatedJobs(jobs: seq<Job>) returns (errs: seq<Violation>)
    ensures forall v :: v in errs <==> IsViolation(jobs, v)
    ensures Distinct(errs)
    ensures errs == [] <==> forall i :: 0 <= i < |jobs| ==> Acceptable(jobs[i])
  {
    errs := [];
    for idx := 0 to |jobs|
      invariant Distinct(errs)
      invariant forall v :: v in errs <==> v.job < idx && IsViolation(jobs, v)
    {
      var here := ValidateJob(idx, jobs[idx]);
      DistinctConcat(errs, here);
      errs := errs + here;
    }
    NoViolations(jobs, errs);
  }

  method ValidateJob(idx: nat, job: Job) returns (errs: seq<Violation>)
    ensures Distinct(errs)
    ensures forall v :: v in errs <==> v.job == idx && IsWrong(job, v)
  {
    var podClaims := PodClaimNames(job.pod);
    var inits := ValidateClaims(idx, job.pod, podClaims, InitContainers);
    var mains := ValidateClaims(idx, job.pod, podClaims, Containers);
    hide Declares, ClaimUndeclared, HasContainer;
    DistinctConcat(inits, mains);
    errs := inits + mains;
    if job.replicas < 1 {
      DistinctConcat(errs, [BadReplicas(idx)]);
      errs := errs + [BadReplicas(idx)];
    }
    if job.ancestor.None? {
      return;
    }
    if KnownAncestor(job.ancestor.value) {
      var has := HasRequiredContainer(job.pod, job.ancestor.value);
      if !has {
        DistinctConcat(errs, [MissingContainer(idx)]);
        errs := errs + [MissingContainer(idx)];
      }
    }
  }

  /** What acceptance means, in terms of the apply configuration built from the job. */
  ghost predicate Acceptable(job: Job)
  {
    && Closed(FromTyped(job).pod)
    && job.replicas >= 1
    && !LacksContainer(job)
  }

  /** Acceptance, container by container: closed references, at least one replica, and a trainer
      job with a container node, an initializer job with the container of its own name. */
  lemma AcceptableMeaning(job: Job)
    ensures Acceptable(job) <==>
      && Closed(FromTyped(job).pod) && job.replicas >= 1
      && (job.ancestor == Some("trainer") ==> HasContainer(job.pod, "node"))
      && (job.ancestor == Some("model-initializer") ==> HasContainer(job.pod, "model-initializer"))
      && (job.ancestor == Some("dataset-initializer") ==> HasContainer(job.pod, "dataset-initializer"))
  {
    assert TRAINER[0] == 't' && MODEL_INITIALIZER[0] == 'm' && DATASET_INITIALIZER[0] == 'd';
    hide Closed, HasContainer;
  }

  lemma DeclaresIsHasPodClaim(pod: Pod, name: string)
    ensures HasPodClaim(FromTypedClaims(pod.claims), name) <==> Declares(pod, name)
  { }

  lemma ClosedIsDeclared(job: Job, list: Field)
    ensures ClaimsWithin(FromTypedContainers(ListOf(job.pod, list)), FromTypedClaims(job.pod.claims)) <==>
            forall k: nat, m: nat :: !ClaimUndeclared(job.pod, list, k, m)
  {
    var cs, claims := ListOf(job.pod, list), FromTypedClaims(job.pod.claims);
    forall k | 0 <= k < |cs| ensures FromApply(FromTypedContainers(cs)[k].resources) == cs[k].resources {
      ApplyRoundTrip(cs[k].resources);
    }
    forall name ensures HasPodClaim(claims, name) <==> Declares(job.pod, name) {
      DeclaresIsHasPodClaim(job.pod, name);
    }
    hide HasPodClaim, Declares, FromApply, ToApply, ListOf;
    if forall k: nat, m: nat :: !ClaimUndeclared(job.pod, list, k, m) {
      forall k, x | 0 <= k < |cs| && x in FromApply(FromTypedContainers(cs)[k].resources).claims ensures HasPodClaim(claims, x.name) {
        var m := IndexOf(cs[k].resources.claims, x);
        assert !ClaimUndeclared(job.pod, list, k, m);
      }
    }
    if k: nat, m: nat :| ClaimUndeclared(job.pod, list, k, m) {
      assert cs[k].resources.claims[m] in FromApply(FromTypedContainers(cs)[k].resources).claims;
    }
  }

  lemma AcceptableMeans(job: Job, idx: nat)
    ensures Acceptable(job) <==> forall v: Violation :: v.job == idx ==> !IsWrong(job, v)
  {
    ClosedIsDeclared(job, InitContainers);
    ClosedIsDeclared(job, Containers);
    hide ClaimsWithin, ClaimUndeclared, LacksContainer;
    if forall v: Violation :: v.job == idx ==> !IsWrong(job, v) {
      assert !IsWrong(job, BadReplicas(idx)) && !IsWrong(job, MissingContainer(idx));
      forall list: Field, k: nat, m: nat ensures !ClaimUndeclared(job.pod, list, k, m) {
        assert !IsWrong(job, BadClaim(idx, list, k, m));
      }
    }
    if Acceptable(job) {
      forall v: Violation | v.job == idx ensures !IsWrong(job, v) {
        if v.BadClaim? {
          assert v.list == InitContainers || v.list == Containers;
        }
      }
    }
  }

  lemma NoViolations(jobs: seq<Job>, errs: seq<Violation>)
    requires forall v :: v in errs <==> IsViolation(jobs, v)
    ensures errs == [] <==> forall i :: 0 <= i < |jobs| ==> Acceptable(jobs[i])
  {
    hide IsWrong, Acceptable;
    forall i | 0 <= i < |jobs| ensures Acceptable(jobs[i]) <==> forall v: Violation :: v.job == i ==> !IsWrong(jobs[i], v) {
      AcceptableMeans(jobs[i], i);
    }
    if errs == [] {
      forall i | 0 <= i < |jobs| ensures Acceptable(jobs[i]) {
        forall v: Violation | v.job == i ensures !IsWrong(jobs[i], v) {
          assert !IsViolation(jobs, v);
        }
      }
    } else {
      assert errs[0] in errs;
      assert !Acceptable(jobs[errs[0].job]);
    }
  }

  // ---- from the runtime to the TrainJob's template ----

  /** For an accepted runtime, the template of a TrainJob without patches to the JobSet spec is
      closed, and a trainer job has a node container for the TrainJob's resources to go to. */
  lemma AcceptedRuntimeIsUsable(job: Job, inp: Inputs, smp: Smp)
    requires Acceptable(job) && Strategic(smp) && FreshOverlay(job, inp, smp).Some?
    ensures Closed(FreshOverlay(job, inp, smp).value.app.pod)
    ensures job.ancestor == Some(TRAINER) ==> NodeIndex(FromTyped(job).pod.containers) < |job.pod.containers|
  {
    ClaimsStayClosed(Pair(job, FromTyped(job)), inp, smp);
    hide OverlayJob, Closed, Strategic;
    if job.ancestor == Some(TRAINER) {
      var k :| 0 <= k < |job.pod.containers| && job.pod.containers[k].name == NODE;
      assert FromTyped(job).pod.containers[k].name.GetOr("") == NODE;
    }
  }

  /** A claim of the patched template is defined: by the patched Pod itself, or by the TrainJob
      where its claims reach the Pod. */
  ghost predicate Defined(job: Job, inp: Inputs, list: Field, k: nat, m: nat)
    requires k < |ListOf(job.pod, list)| && m < |ListOf(job.pod, list)[k].resources.claims|
  {
    var name := ListOf(job.pod, list)[k].resources.claims[m].name;
    Declares(job.pod, name) || Claimed(FromTyped(job), inp, name)
  }

  ghost predicate AllDefined(job: Job, inp: Inputs, list: Field)
  {
    forall k: nat, m: nat :: k < |ListOf(job.pod, list)| && m < |ListOf(job.pod, list)[k].resources.claims| ==>
      Defined(job, inp, list, k, m)
  }

  lemma CoveredIsDefined(job: Job, inp: Inputs, list: Field)
    ensures Covered(FromTypedContainers(ListOf(job.pod, list)), FromTyped(job), inp) <==> AllDefined(job, inp, list)
  {
    var cs, claims := ListOf(job.pod, list), FromTypedClaims(job.pod.claims);
    var apps := FromTypedContainers(cs);
    forall k | 0 <= k < |cs| ensures FromApply(apps[k].resources) == cs[k].resources {
      ApplyRoundTrip(cs[k].resources);
    }
    forall name ensures HasPodClaim(claims, name) <==> Declares(job.pod, name) {
      DeclaresIsHasPodClaim(job.pod, name);
    }
    hide HasPodClaim, Declares, FromApply, ToApply, ListOf, Claimed;
    if AllDefined(job, inp, list) {
      forall k, x | 0 <= k < |apps| && x in FromApply(apps[k].resources).claims
        ensures HasPodClaim(claims, x.name) || Claimed(FromTyped(job), inp, x.name)
      {
        var m := IndexOf(cs[k].resources.claims, x);
        assert Defined(job, inp, list, k, m);
      }
    }
    if Covered(apps, FromTyped(job), inp) {
      forall k: nat, m: nat | k < |cs| && m < |cs[k].resources.claims| ensures Defined(job, inp, list, k, m) {
        assert cs[k].resources.claims[m] in FromApply(apps[k].resources).claims;
      }
    }
  }

  /** Whatever the patches made of a replicated job, its template after the overlay is closed if
      and only if every claim of the patched job is defined. */
  lemma PatchedTemplateIsClosed(patched: Job, inp: Inputs, smp: Smp)
    requires Strategic(smp) && FreshOverlay(patched, inp, smp).Some?
    ensures Closed(FreshOverlay(patched, inp, smp).value.app.pod) <==>
            AllDefined(patched, inp, InitContainers) && AllDefined(patched, inp, Containers)
  {
    ClosedExactly(Pair(patched, FromTyped(patched)), inp, smp);
    CoveredIsDefined(patched, inp, InitContainers);
    CoveredIsDefined(patched, inp, Containers);
    hide OverlayJob, Closed, Covered, AllDefined, Strategic;
  }

  /** A trainer job that acceptance lets through, and the same job after a patch that puts a
      claim on its node container without a Pod-level claim. */
  function PlainTrainer(claims: seq<Claim>): (r: Job)
  {
    Job(NODE, 1, Some(TRAINER), Pod([Container(NODE, Resources(map[], map[], claims))], [], []))
  }

  /** The runtime is accepted, and yet the patched template has a dangling reference, unless the
      TrainJob itself claims the name. */
  lemma PatchesCanDangle(inp: Inputs, smp: Smp)
    requires Strategic(smp) && FreshOverlay(PlainTrainer([Claim("gpu", "")]), inp, smp).Some?
    ensures Acceptable(PlainTrainer([]))
    ensures var patched := PlainTrainer([Claim("gpu", "")]);
      Closed(FreshOverlay(patched, inp, smp).value.app.pod) <==> Claimed(FromTyped(patched), inp, "gpu")
  {
    hide OverlayJob, Closed, Strategic, Claimed, FromTyped;
    var patched := PlainTrainer([Claim("gpu", "")]);
    PlainIsAcceptable();
    PatchedTemplateIsClosed(patched, inp, smp);
    assert Defined(patched, inp, Containers, 0, 0) <==> Claimed(FromTyped(patched), inp, "gpu");
    assert AllDefined(patched, inp, Containers) <==> Defined(patched, inp, Containers, 0, 0);
  }

  lemma PlainIsAcceptable()
    ensures Acceptable(PlainTrainer([]))
  {
    var plain := PlainTrainer([]);
    AcceptableMeans(plain, 0);
    assert plain.pod.containers[0].name == NODE;
    hide Acceptable;
  }
}
