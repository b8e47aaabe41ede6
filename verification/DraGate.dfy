/** The validating TrainJob webhook and the dynamic resource allocation (DRA) feature gate:
    which fields count, and what the gate guarantees over the history of an object. */
module DraGate {
  import opened Common

  /** Absent levels of the patch are None: the resources of a container, the Pod spec of a
      replicated job, the JobSet spec of a patch. */
  datatype ContainerPatch = ContainerPatch(claims: Option<seq<string>>)
  datatype PodPatch = PodPatch(claims: seq<string>, containers: seq<ContainerPatch>, initContainers: seq<ContainerPatch>)
  datatype JobPatch = JobPatch(pod: Option<PodPatch>)
  datatype RuntimePatch = RuntimePatch(jobs: Option<seq<JobPatch>>)

  /** trainerClaims is None when there is no trainer section. rest stands for the other fields. */
  datatype TrainJob = TrainJob(trainerClaims: Option<seq<string>>, patches: seq<RuntimePatch>, runtimeRef: string, rest: string)

  /** A field that DRA owns. */
  datatype Path =
    | TrainerClaims
    | PodClaims(patch: nat, job: nat)
    | ContainerClaims(patch: nat, job: nat, container: nat)
    | InitContainerClaims(patch: nat, job: nat, container: nat)

  predicate HasPod(tj: TrainJob, i: nat, j: nat)
  {
    i < |tj.patches| && tj.patches[i].jobs.Some? && j < |tj.patches[i].jobs.value| && tj.patches[i].jobs.value[j].pod.Some?
  }

  function PodAt(tj: TrainJob, i: nat, j: nat): (r: PodPatch)
    requires HasPod(tj, i, j)
  {
    tj.patches[i].jobs.value[j].pod.value
  }

  predicate Claims(c: ContainerPatch)
  {
    c.claims.Some? && c.claims.value != []
  }

  predicate ClaimsAt(cs: seq<ContainerPatch>, k: nat)
  {
    k < |cs| && Claims(cs[k])
  }

  /** The field is present and not empty. */
  predicate IsSet(tj: TrainJob, p: Path)
  {
    match p
    case TrainerClaims => tj.trainerClaims.Some? && tj.trainerClaims.value != []
    case PodClaims(i, j) => HasPod(tj, i, j) && PodAt(tj, i, j).claims != []
    case ContainerClaims(i, j, k) => HasPod(tj, i, j) && ClaimsAt(PodAt(tj, i, j).containers, k)
    case InitContainerClaims(i, j, k) => HasPod(tj, i, j) && ClaimsAt(PodAt(tj, i, j).initContainers, k)
  }

  ghost predicate UsesDra(tj: TrainJob)
  {
    exists p :: IsSet(tj, p)
  }

  /** Every claim list of the object is empty: the trainer's, and in every patch those of each
      Pod, each of its containers and each of its init containers. */
  ghost predicate FreeOfClaims(tj: TrainJob)
  {
    && tj.trainerClaims.GetOr([]) == []
    && forall i: nat :: i < |tj.patches| ==> PatchIsFree(tj.patches[i])
  }

  ghost predicate PatchIsFree(patch: RuntimePatch)
  {
    forall j: nat :: j < |patch.jobs.GetOr([])| && patch.jobs.value[j].pod.Some? ==>
      var pod := patch.jobs.value[j].pod.value;
      && pod.claims == []
      && (forall k: nat :: k < |pod.containers| ==> pod.containers[k].claims.GetOr([]) == [])
      && (forall k: nat :: k < |pod.initContainers| ==> pod.initContainers[k].claims.GetOr([]) == [])
  }

  /** Using DRA is having a claim anywhere. */
  lemma UsesDraMeaning(tj: TrainJob)
    ensures UsesDra(tj) <==> !FreeOfClaims(tj)
  {
    if FreeOfClaims(tj) {
      forall p ensures !IsSet(tj, p) {
        if !p.TrainerClaims? && p.patch < |tj.patches| {
          assert PatchIsFree(tj.patches[p.patch]);
        }
      }
    }
    if !UsesDra(tj) {
      assert !IsSet(tj, TrainerClaims);
      forall i: nat | i < |tj.patches| ensures PatchIsFree(tj.patches[i]) {
        forall j: nat | j < |tj.patches[i].jobs.GetOr([])| && tj.patches[i].jobs.value[j].pod.Some?
          ensures PodIsUnset(tj, i, j)
        {
          UnsetPod(tj, i, j);
        }
      }
    }
  }

  ghost predicate PodIsUnset(tj: TrainJob, i: nat, j: nat)
    requires HasPod(tj, i, j)
  {
    var pod := PodAt(tj, i, j);
    && pod.claims == []
    && (forall k: nat :: k < |pod.containers| ==> pod.containers[k].claims.GetOr([]) == [])
    && (forall k: nat :: k < |pod.initContainers| ==> pod.initContainers[k].claims.GetOr([]) == [])
  }

  lemma UnsetPod(tj: TrainJob, i: nat, j: nat)
    requires HasPod(tj, i, j) && !UsesDra(tj)
    ensures PodIsUnset(tj, i, j)
  {
    var pod := PodAt(tj, i, j);
    assert !IsSet(tj, PodClaims(i, j));
    forall k: nat | k < |pod.containers| ensures pod.containers[k].claims.GetOr([]) == [] {
      assert !IsSet(tj, ContainerClaims(i, j, k));
    }
    forall k: nat | k < |pod.initContainers| ensures pod.initContainers[k].claims.GetOr([]) == [] {
      assert !IsSet(tj, InitContainerClaims(i, j, k));
    }
  }

  // ---- the two walks over the object ----

  predicate AnyClaims(cs: seq<ContainerPatch>)
  {
    exists k :: 0 <= k < |cs| && Claims(cs[k])
  }

  method ContainersUseDRA(cs: seq<ContainerPatch>) returns (uses: bool)
    ensures uses <==> AnyClaims(cs)
  {
    for k := 0 to |cs|
      invariant forall i :: 0 <= i < k ==> !Claims(cs[i])
    {
      if cs[k].claims.Some? && |cs[k].claims.value| > 0 {
        return true;
      }
    }
    uses := false;
  }

  predicate PodUses(pod: PodPatch)
  {
    pod.claims != [] || AnyClaims(pod.containers) || AnyClaims(pod.initContainers)
  }

  /** Nothing is set under patch i, job j. */
  ghost predicate JobClear(tj: TrainJob, i: nat, j: nat)
  {
    HasPod(tj, i, j) ==> !PodUses(PodAt(tj, i, j))
  }

  lemma ClearMeansUnset(tj: TrainJob)
    requires forall i: nat, j: nat :: JobClear(tj, i, j)
    requires tj.trainerClaims.Some? ==> tj.trainerClaims.value == []
    ensures !UsesDra(tj)
  {
    forall p ensures !IsSet(tj, p) {
      if !p.TrainerClaims? {
        assert JobClear(tj, p.patch, p.job);
      }
    }
  }

  lemma PodUsesMeansSet(tj: TrainJob, i: nat, j: nat)
    requires HasPod(tj, i, j) && PodUses(PodAt(tj, i, j))
    ensures UsesDra(tj)
  {
    var pod := PodAt(tj, i, j);
    if pod.claims != [] {
      assert IsSet(tj, PodClaims(i, j));
    } else if AnyClaims(pod.containers) {
      var k :| 0 <= k < |pod.containers| && Claims(pod.containers[k]);
      assert IsSet(tj, ContainerClaims(i, j, k));
    } else {
      var k :| 0 <= k < |pod.initContainers| && Claims(pod.initContainers[k]);
      assert IsSet(tj, InitContainerClaims(i, j, k));
    }
  }

  /** usesDRA. */
  method UsesDRA(tj: TrainJob) returns (uses: bool)
    ensures uses <==> UsesDra(tj)
  {
    hide UsesDra, PodUses;
    if tj.trainerClaims.Some? && |tj.trainerClaims.value| > 0 {
      assert UsesDra(tj) by { TrainerClaimsUse(tj); }
      return true;
    }
    for i := 0 to |tj.patches|
      invariant forall a: nat, j: nat :: a < i ==> JobClear(tj, a, j)
    {
      if tj.patches[i].jobs.None? {
        continue;
      }
      var jobs := tj.patches[i].jobs.value;
      for j := 0 to |jobs|
        invariant forall b: nat :: b < j ==> JobClear(tj, i, b)
      {
        if jobs[j].pod.None? {
          continue;
        }
        var pod := jobs[j].pod.value;
        assert HasPod(tj, i, j) && PodAt(tj, i, j) == pod;
        var uses' := PodUsesDRA(pod);
        if uses' {
          PodUsesMeansSet(tj, i, j);
          return true;
        }
      }
    }
    ClearMeansUnset(tj);
    uses := false;
  }

  lemma TrainerClaimsUse(tj: TrainJob)
    requires tj.trainerClaims.Some? && tj.trainerClaims.value != []
    ensures UsesDra(tj)
  {
    assert IsSet(tj, TrainerClaims);
  }

  method PodUsesDRA(pod: PodPatch) returns (uses: bool)
    ensures uses <==> PodUses(pod)
  {
    if |pod.claims| > 0 {
      return true;
    }
    uses := ContainersUseDRA(pod.containers);
    if !uses {
      uses := ContainersUseDRA(pod.initContainers);
    }
  }

  /** The forbidden paths of one Pod patch. */
  method PodFieldPaths(pod: PodPatch, i: nat, j: nat) returns (paths: seq<Path>)
    ensures Distinct(paths)
    ensures forall p :: p in paths <==> InPod(pod, i, j, p)
  {
    paths := [];
    if |pod.claims| > 0 {
      paths := paths + [PodClaims(i, j)];
    }
    for k := 0 to |pod.containers|
      invariant Distinct(paths)
      invariant forall p :: p in paths <==>
                  InPod(pod, i, j, p) && !p.InitContainerClaims? && (p.ContainerClaims? ==> p.container < k)
    {
      if pod.containers[k].claims.Some? && |pod.containers[k].claims.value| > 0 {
        paths := paths + [ContainerClaims(i, j, k)];
      }
    }
    for k := 0 to |pod.initContainers|
      invariant Distinct(paths)
      invariant forall p :: p in paths <==> InPod(pod, i, j, p) && (p.InitContainerClaims? ==> p.container < k)
    {
      if pod.initContainers[k].claims.Some? && |pod.initContainers[k].claims.value| > 0 {
        paths := paths + [InitContainerClaims(i, j, k)];
      }
    }
  }

  predicate InPod(pod: PodPatch, i: nat, j: nat, p: Path)
  {
    match p
    case TrainerClaims => false
    case PodClaims(a, b) => a == i && b == j && pod.claims != []
    case ContainerClaims(a, b, k) => a == i && b == j && ClaimsAt(pod.containers, k)
    case InitContainerClaims(a, b, k) => a == i && b == j && ClaimsAt(pod.initContainers, k)
  }

  /** The paths before patch i, job j. */
  ghost predicate Before(p: Path, i: nat, j: nat)
  {
    p.TrainerClaims? || p.patch < i || (p.patch == i && p.job < j)
  }

  /** draFieldPaths: every DRA field that is set, once each. */
  method DraFieldPaths(tj: TrainJob) returns (paths: seq<Path>)
    ensures Distinct(paths)
    ensures forall p :: p in paths <==> IsSet(tj, p)
    ensures paths != [] <==> UsesDra(tj)
  {
    paths := [];
    if tj.trainerClaims.Some? && |tj.trainerClaims.value| > 0 {
      paths := paths + [TrainerClaims];
    }
    hide UsesDra;
    for i := 0 to |tj.patches|
      invariant Distinct(paths)
      invariant forall p :: p in paths <==> IsSet(tj, p) && Before(p, i, 0)
    {
      if tj.patches[i].jobs.None? {
        continue;
      }
      var jobs := tj.patches[i].jobs.value;
      for j := 0 to |jobs|
        invariant Distinct(paths)
        invariant forall p :: p in paths <==> IsSet(tj, p) && Before(p, i, j)
      {
        if jobs[j].pod.None? {
          continue;
        }
        var here := PodFieldPaths(jobs[j].pod.value, i, j);
        assert HasPod(tj, i, j) && PodAt(tj, i, j) == jobs[j].pod.value;
        DistinctConcat(paths, here);
        paths := paths + here;
      }
    }
    PathsOrNone(tj, paths);
  }

  lemma PathsOrNone(tj: TrainJob, paths: seq<Path>)
    requires forall p :: p in paths <==> IsSet(tj, p)
    ensures paths != [] <==> UsesDra(tj)
  {
    if paths != [] {
      assert paths[0] in paths;
    }
  }

  // ---- admission ----

  datatype Error = Forbidden(path: Path) | UnsupportedRuntime(key: string) | Invalid(message: string)

  /** A registered runtime's own validation of an old and a new object. */
  type Runtime = (Option<TrainJob>, TrainJob) -> seq<string>

  /** Whether a create (prior is None) or an update is let through. */
  ghost predicate Admitted(prior: Option<TrainJob>, obj: TrainJob, gate: bool, runtimes: map<string, Runtime>)
  {
    && (gate || !UsesDra(obj) || (prior.Some? && UsesDra(prior.value)))
    && obj.runtimeRef in runtimes && runtimes[obj.runtimeRef](prior, obj) == []
  }

  function ForbiddenAll(paths: seq<Path>): (r: seq<Error>)
    ensures |r| == |paths|
    ensures forall i :: 0 <= i < |paths| ==> r[i] == Forbidden(paths[i])
  {
    seq(|paths|, i requires 0 <= i < |paths| => Forbidden(paths[i]))
  }

  method AskRuntime(prior: Option<TrainJob>, obj: TrainJob, runtimes: map<string, Runtime>) returns (errs: seq<Error>)
    ensures errs == [] <==> obj.runtimeRef in runtimes && runtimes[obj.runtimeRef](prior, obj) == []
    ensures forall e :: e in errs ==> !e.Forbidden?
  {
    if obj.runtimeRef !in runtimes {
      return [UnsupportedRuntime(obj.runtimeRef)];
    }
    var messages := runtimes[obj.runtimeRef](prior, obj);
    errs := seq(|messages|, i requires 0 <= i < |messages| => Invalid(messages[i]));
  }

  /** The aggregate is nil, and the object admitted, exactly when the list is empty. */
  method ValidateCreate(obj: TrainJob, gate: bool, runtimes: map<string, Runtime>) returns (errs: seq<Error>)
    ensures errs == [] <==> Admitted(None, obj, gate, runtimes)
    ensures !gate && UsesDra(obj) ==> errs != [] && forall p :: Forbidden(p) in errs <==> IsSet(obj, p)
    ensures (exists p :: Forbidden(p) in errs) ==> !gate && UsesDra(obj)
  {
    var uses := UsesDRA(obj);
    if !gate && uses {
      var paths := DraFieldPaths(obj);
      errs := ForbiddenAll(paths);
      ForbiddenMembers(paths);
      return;
    }
    errs := AskRuntime(None, obj, runtimes);
  }

  method ValidateUpdate(prior: TrainJob, obj: TrainJob, gate: bool, runtimes: map<string, Runtime>) returns (errs: seq<Error>)
    ensures errs == [] <==> Admitted(Some(prior), obj, gate, runtimes)
    ensures !gate && UsesDra(obj) && !UsesDra(prior) ==> errs != [] && forall p :: Forbidden(p) in errs <==> IsSet(obj, p)
    ensures (exists p :: Forbidden(p) in errs) ==> !gate && UsesDra(obj) && !UsesDra(prior)
  {
    var uses := UsesDRA(obj);
    var used := UsesDRA(prior);
    if !gate && uses && !used {
      var paths := DraFieldPaths(obj);
      errs := ForbiddenAll(paths);
      ForbiddenMembers(paths);
      return;
    }
    errs := AskRuntime(Some(prior), obj, runtimes);
  }

  lemma ForbiddenMembers(paths: seq<Path>)
    ensures forall p :: Forbidden(p) in ForbiddenAll(paths) <==> p in paths
  { }

  // ---- histories of one object key ----

  /** Requests may be refused; the gate is set when the manager restarts. */
  datatype Event = Create(obj: TrainJob) | Update(obj: TrainJob) | Delete | SetGate(on: bool)

  datatype State = State(stored: Option<TrainJob>, gate: bool)

  ghost predicate Takes(s: State, e: Event, runtimes: map<string, Runtime>)
  {
    match e
    case Create(obj) => s.stored.None? && Admitted(None, obj, s.gate, runtimes)
    case Update(obj) => s.stored.Some? && Admitted(s.stored, obj, s.gate, runtimes)
    case Delete => s.stored.Some?
    case SetGate(_) => true
  }

  ghost function Step(s: State, e: Event, runtimes: map<string, Runtime>): (r: State)
  {
    if !Takes(s, e, runtimes) then s
    else match e
      case Create(obj) => s.(stored := Some(obj))
      case Update(obj) => s.(stored := Some(obj))
      case Delete => s.(stored := None)
      case SetGate(on) => s.(gate := on)
  }

  ghost function Run(s: State, es: seq<Event>, runtimes: map<string, Runtime>): (r: State)
  {
    if es == [] then s else Step(Run(s, es[..|es| - 1], runtimes), es[|es| - 1], runtimes)
  }

  /** The runtime the object refers to is registered, and has accepted this very object. */
  ghost predicate AcceptedByRuntime(obj: TrainJob, runtimes: map<string, Runtime>)
  {
    obj.runtimeRef in runtimes && exists prior: Option<TrainJob> :: runtimes[obj.runtimeRef](prior, obj) == []
  }

  /** Over any history from an empty store, what is stored was accepted by its runtime. */
  lemma {:induction false} StoredWasAccepted(gate: bool, es: seq<Event>, runtimes: map<string, Runtime>)
    ensures var s := Run(State(None, gate), es, runtimes); s.stored.Some? ==> AcceptedByRuntime(s.stored.value, runtimes)
  {
    if es != [] {
      var n := |es| - 1;
      StoredWasAccepted(gate, es[..n], runtimes);
      var before := Run(State(None, gate), es[..n], runtimes);
      hide UsesDra;
      match es[n]
      case Create(obj) => assert Takes(before, es[n], runtimes) ==> runtimes[obj.runtimeRef](None, obj) == [];
      case Update(obj) => assert Takes(before, es[n], runtimes) ==> runtimes[obj.runtimeRef](before.stored, obj) == [];
      case _ =>
    }
  }

  ghost predicate Holds(s: State)
  {
    s.stored.Some? && UsesDra(s.stored.value)
  }

  /** While the gate stays off, an object that does not use DRA never comes to use it. */
  lemma {:induction false} GateHolds(s: State, es: seq<Event>, runtimes: map<string, Runtime>)
    requires !s.gate && !Holds(s)
    requires forall k :: 0 <= k < |es| ==> es[k] != SetGate(true)
    ensures !Run(s, es, runtimes).gate && !Holds(Run(s, es, runtimes))
  {
    if es != [] {
      GateHolds(s, es[..|es| - 1], runtimes);
      hide UsesDra;
    }
  }

  /** The write at k was let through with the gate on and made the object use DRA, and every
      version since has used it. */
  ghost predicate Introduced(s: State, es: seq<Event>, runtimes: map<string, Runtime>, k: nat)
  {
    && k < |es| && (es[k].Create? || es[k].Update?)
    && Run(s, es[..k], runtimes).gate && !Holds(Run(s, es[..k], runtimes))
    && forall m :: k < m <= |es| ==> Holds(Run(s, es[..m], runtimes))
  }

  /** Over any history, with the gate going on and off and objects coming and going: a stored
      object that uses DRA goes back to a write admitted while the gate was on. */
  lemma {:induction false} DraIsIntroducedUnderTheGate(s: State, es: seq<Event>, runtimes: map<string, Runtime>) returns (k: nat)
    requires !Holds(s) && Holds(Run(s, es, runtimes))
    ensures Introduced(s, es, runtimes, k)
  {
    var n := |es| - 1;
    assert es != [];
    var front := es[..n];
    assert es[..n + 1] == es;
    if Holds(Run(s, front, runtimes)) {
      k := DraIsIntroducedUnderTheGate(s, front, runtimes);
      hide Run, Holds;
      assert forall m :: 0 <= m <= n ==> front[..m] == es[..m];
    } else {
      k := n;
    }
  }
}
