/** newRuntimeInfo's node overlay: the TrainJob's resources and resource claims laid over the
    node container of the runtime template, in the typed template and in the apply
    configuration that was built from it. */
module NodeOverlay {
  import opened Common
  import opened Upsert

  const NODE: string := "node"
  const TRAINER: string := "trainer"

  type ResourceList = map<string, int>

  /** An empty request stands for the whole claim. */
  datatype Claim = Claim(name: string, request: string)
  datatype Resources = Resources(limits: ResourceList, requests: ResourceList, claims: seq<Claim>)
  datatype Container = Container(name: string, resources: Resources)

  datatype Source = FromTemplate(template: string) | Other(content: int)
  /** A Pod-level claim of the apply configuration, keyed by its name. */
  type PodClaim = Entry<Source>

  /** The typed Pod template of a replicated job. */
  datatype Pod = Pod(containers: seq<Container>, initContainers: seq<Container>, claims: seq<(string, Source)>)
  datatype Job = Job(name: string, replicas: int, ancestor: Option<string>, pod: Pod)

  datatype ApplyClaim = ApplyClaim(name: Option<string>, request: Option<string>)
  datatype ApplyResources = ApplyResources(limits: Option<ResourceList>, requests: Option<ResourceList>, claims: seq<ApplyClaim>)
  datatype ApplyContainer = ApplyContainer(name: Option<string>, resources: Option<ApplyResources>)
  datatype ApplyPod = ApplyPod(containers: seq<ApplyContainer>, initContainers: seq<ApplyContainer>, claims: seq<PodClaim>)
  datatype ApplyJob = ApplyJob(name: Option<string>, ancestor: Option<string>, pod: ApplyPod)

  datatype TrainerClaim = TrainerClaim(name: string, template: string)
  datatype Trainer = Trainer(resourcesPerNode: Option<Resources>, claims: seq<TrainerClaim>)

  /** gate is the TrainJobDynamicResourceAllocation feature gate. policy is the ML policy's
      MPI runLauncherAsNode flag, None when there is no policy. */
  datatype Inputs = Inputs(trainer: Option<Trainer>, policy: Option<bool>, gate: bool)

  /** strategicpatch on resource requirements; None when it reports an error. */
  type Smp = (Resources, Resources) -> Option<Resources>

  // ---- typed and apply configurations ----

  function ToApplyClaim(c: Claim): (r: ApplyClaim)
  {
    ApplyClaim(Some(c.name), if c.request != "" then Some(c.request) else None)
  }

  function FromApplyClaim(c: ApplyClaim): (r: Claim)
  {
    Claim(c.name.GetOr(""), c.request.GetOr(""))
  }

  function ToApplyClaims(cs: seq<Claim>): (r: seq<ApplyClaim>)
    ensures |r| == |cs|
    ensures forall i :: 0 <= i < |cs| ==> r[i] == ToApplyClaim(cs[i])
  {
    seq(|cs|, i requires 0 <= i < |cs| => ToApplyClaim(cs[i]))
  }

  function FromApplyClaims(cs: seq<ApplyClaim>): (r: seq<Claim>)
    ensures |r| == |cs|
    ensures forall i :: 0 <= i < |cs| ==> r[i] == FromApplyClaim(cs[i])
  {
    seq(|cs|, i requires 0 <= i < |cs| => FromApplyClaim(cs[i]))
  }

  function ToList(m: ResourceList): (r: Option<ResourceList>)
  {
    if m == map[] then None else Some(m)
  }

  function ToApply(res: Resources): (r: ApplyResources)
  {
    ApplyResources(ToList(res.limits), ToList(res.requests), ToApplyClaims(res.claims))
  }

  function FromApply(res: Option<ApplyResources>): (r: Resources)
  {
    if res.None? then Resources(map[], map[], [])
    else Resources(res.value.limits.GetOr(map[]), res.value.requests.GetOr(map[]), FromApplyClaims(res.value.claims))
  }

  /** toApplyConfig loses nothing. */
  lemma ApplyRoundTrip(res: Resources)
    ensures FromApply(Some(ToApply(res))) == res
  {
    assert FromApplyClaims(ToApplyClaims(res.claims)) == res.claims;
  }

  method ToApplyConfig(res: Resources) returns (out: ApplyResources)
    ensures out == ToApply(res)
  {
    out := ApplyResources(None, None, []);
    if res.limits != map[] {
      out := out.(limits := Some(res.limits));
    }
    if res.requests != map[] {
      out := out.(requests := Some(res.requests));
    }
    var claims: seq<ApplyClaim> := [];
    for i := 0 to |res.claims|
      invariant |claims| == i
      invariant forall k :: 0 <= k < i ==> claims[k] == ToApplyClaim(res.claims[k])
    {
      var c := ApplyClaim(Some(res.claims[i].name), None);
      if res.claims[i].request != "" {
        c := c.(request := Some(res.claims[i].request));
      }
      claims := claims + [c];
    }
    out := out.(claims := claims);
  }

  // ---- Pod-level claims ----

  function PodClaims(claims: seq<TrainerClaim>): (r: seq<PodClaim>)
    ensures |r| == |claims|
    ensures forall i :: 0 <= i < |claims| ==> r[i] == Entry(Some(claims[i].name), FromTemplate(claims[i].template))
  {
    seq(|claims|, i requires 0 <= i < |claims| => Entry(Some(claims[i].name), FromTemplate(claims[i].template)))
  }

  function PodClaimsAfter(cs: seq<PodClaim>, claims: seq<TrainerClaim>, gate: bool): (r: seq<PodClaim>)
  {
    if gate then UpsertAll(cs, PodClaims(claims)) else cs
  }

  method ApplyTrainerPodResourceClaims(pod: ApplyPod, claims: seq<TrainerClaim>, gate: bool) returns (r: ApplyPod)
    ensures r == pod.(claims := PodClaimsAfter(pod.claims, claims, gate))
  {
    r := pod;
    if !gate {
      return;
    }
    for i := 0 to |claims|
      invariant r == pod.(claims := UpsertAll(pod.claims, PodClaims(claims)[..i]))
    {
      assert PodClaims(claims)[..i + 1][..i] == PodClaims(claims)[..i];
      var podClaim := Entry(Some(claims[i].name), FromTemplate(claims[i].template));
      var idx := Position(r.claims, Some(claims[i].name));
      if idx != |r.claims| {
        r := r.(claims := r.claims[idx := podClaim]);
        continue;
      }
      r := r.(claims := r.claims + [podClaim]);
    }
    assert PodClaims(claims)[..|claims|] == PodClaims(claims);
  }

  predicate HasPodClaim(cs: seq<PodClaim>, name: string)
  {
    ValueAt(cs, Some(name)).Some?
  }

  predicate ClaimsName(claims: seq<TrainerClaim>, name: string)
  {
    exists i :: 0 <= i < |claims| && claims[i].name == name
  }

  lemma {:induction false} GivenNames(claims: seq<TrainerClaim>, name: string)
    ensures Given(PodClaims(claims), Some(name)).Some? <==> ClaimsName(claims, name)
    ensures ClaimsName(claims, name) ==>
              exists t :: Given(PodClaims(claims), Some(name)) == Some(FromTemplate(t)) && TrainerClaim(name, t) in claims
  {
    if claims != [] {
      var n := |claims| - 1;
      var front := claims[..n];
      GivenNames(front, name);
      assert PodClaims(claims)[..n] == PodClaims(front);
      assert claims == front + [claims[n]];
      if claims[n].name == name {
        assert Given(PodClaims(claims), Some(name)) == Some(FromTemplate(claims[n].template));
        assert TrainerClaim(name, claims[n].template) in claims;
      } else {
        assert ClaimsName(claims, name) <==> ClaimsName(front, name) by {
          if i :| 0 <= i < |claims| && claims[i].name == name { assert front[i].name == name; }
          if i :| 0 <= i < |front| && front[i].name == name { assert claims[i].name == name; }
        }
      }
    }
  }

  /** With the gate on, a name resolves to the TrainJob's template if the TrainJob claims it,
      and otherwise as before; no name is lost. */
  lemma PodClaimsResolve(cs: seq<PodClaim>, claims: seq<TrainerClaim>, name: string)
    ensures HasPodClaim(PodClaimsAfter(cs, claims, true), name) <==> HasPodClaim(cs, name) || ClaimsName(claims, name)
    ensures ClaimsName(claims, name) ==>
              exists t :: ValueAt(PodClaimsAfter(cs, claims, true), Some(name)) == Some(FromTemplate(t)) && TrainerClaim(name, t) in claims
    ensures !ClaimsName(claims, name) ==> ValueAt(PodClaimsAfter(cs, claims, true), Some(name)) == ValueAt(cs, Some(name))
  {
    hide UpsertAll, ValueAt, ClaimsName;
    UpsertAllView(cs, PodClaims(claims), Some(name));
    GivenNames(claims, name);
  }

  // ---- the node container ----

  /** resources.claims merge by name: a claim of the same name takes the overriding request if
      one is given; a new name is appended. */
  function ClaimPosition(cs: seq<Claim>, name: string): (r: nat)
    ensures r <= |cs|
    ensures r < |cs| ==> cs[r].name == name
    ensures forall i :: 0 <= i < r ==> cs[i].name != name
  {
    if cs == [] then 0 else if cs[0].name == name then 0 else 1 + ClaimPosition(cs[1..], name)
  }

  function MergeClaim(cs: seq<Claim>, c: Claim): (r: seq<Claim>)
  {
    var i := ClaimPosition(cs, c.name);
    if i == |cs| then cs + [c]
    else if c.request == "" then cs
    else cs[i := c]
  }

  function MergeClaims(base: seq<Claim>, over: seq<Claim>): (r: seq<Claim>)
  {
    if over == [] then base else MergeClaim(MergeClaims(base, over[..|over| - 1]), over[|over| - 1])
  }

  /** out is base overlaid with over, up to the order of the claims. */
  ghost predicate IsMerge(base: Resources, over: Resources, out: Resources)
  {
    && out.limits == base.limits + over.limits
    && out.requests == base.requests + over.requests
    && multiset(out.claims) == multiset(MergeClaims(base.claims, over.claims))
  }

  ghost predicate Strategic(smp: Smp)
  {
    forall base, over :: MergesLike(smp, base, over)
  }

  ghost predicate MergesLike(smp: Smp, base: Resources, over: Resources)
  {
    smp(base, over).Some? ==> IsMerge(base, over, smp(base, over).value)
  }

  /** The claims the TrainJob puts on the node container. */
  function WholeClaims(claims: seq<TrainerClaim>): (r: seq<Claim>)
    ensures |r| == |claims|
    ensures forall i :: 0 <= i < |claims| ==> r[i] == Claim(claims[i].name, "")
  {
    seq(|claims|, i requires 0 <= i < |claims| => Claim(claims[i].name, ""))
  }

  function NodeResources(t: Trainer, gate: bool): (r: Resources)
  {
    Resources(if t.resourcesPerNode.Some? then t.resourcesPerNode.value.limits else map[],
              if t.resourcesPerNode.Some? then t.resourcesPerNode.value.requests else map[],
              if gate then WholeClaims(t.claims) else [])
  }

  /** The claims whose names are not among the overriding ones. */
  function NotOverridden(cs: seq<Claim>, over: seq<Claim>): (r: seq<Claim>)
  {
    if cs == [] then []
    else if ClaimPosition(over, cs[|cs| - 1].name) < |over| then NotOverridden(cs[..|cs| - 1], over)
    else NotOverridden(cs[..|cs| - 1], over) + [cs[|cs| - 1]]
  }

  /** The runtime side of the merge: its claims that the TrainJob overrides are dropped. */
  function RuntimeSide(res: Resources, over: Resources): (r: Resources)
  {
    res.(claims := NotOverridden(res.claims, over.claims))
  }

  function NodeMerged(runtimeNode: ApplyContainer, t: Trainer, gate: bool, smp: Smp): (r: Option<Resources>)
  {
    var over := NodeResources(t, gate);
    smp(RuntimeSide(FromApply(runtimeNode.resources), over), over)
  }

  method MergeTrainerNodeResources(runtimeNode: ApplyContainer, t: Trainer, gate: bool, smp: Smp) returns (r: Option<Resources>)
    ensures r == NodeMerged(runtimeNode, t, gate, smp)
  {
    var nodeRes := Resources(map[], map[], []);
    if t.resourcesPerNode.Some? {
      nodeRes := nodeRes.(limits := t.resourcesPerNode.value.limits, requests := t.resourcesPerNode.value.requests);
    }
    if gate {
      for i := 0 to |t.claims|
        invariant nodeRes == NodeResources(t, false).(claims := WholeClaims(t.claims)[..i])
      {
        nodeRes := nodeRes.(claims := nodeRes.claims + [Claim(t.claims[i].name, "")]);
      }
      assert WholeClaims(t.claims)[..|t.claims|] == WholeClaims(t.claims);
    }
    var runtimeRes := Resources(map[], map[], []);
    if runtimeNode.resources.Some? {
      var res := runtimeNode.resources.value;
      if res.limits.Some? {
        runtimeRes := runtimeRes.(limits := res.limits.value);
      }
      if res.requests.Some? {
        runtimeRes := runtimeRes.(requests := res.requests.value);
      }
      var kept := KeepRuntimeClaims(res.claims, nodeRes.claims);
      runtimeRes := runtimeRes.(claims := kept);
    }
    r := smp(runtimeRes, nodeRes);
  }

  method KeepRuntimeClaims(claims: seq<ApplyClaim>, over: seq<Claim>) returns (kept: seq<Claim>)
    ensures kept == NotOverridden(FromApplyClaims(claims), over)
  {
    kept := [];
    ghost var all := FromApplyClaims(claims);
    for i := 0 to |claims|
      invariant kept == NotOverridden(all[..i], over)
    {
      assert all[..i + 1][..i] == all[..i];
      var name := claims[i].name.GetOr("");
      if ClaimPosition(over, name) < |over| {
        continue;
      }
      kept := kept + [Claim(name, claims[i].request.GetOr(""))];
    }
    assert all[..|claims|] == all;
  }
}
