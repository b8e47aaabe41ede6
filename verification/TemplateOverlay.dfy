/** The loop over the replicated jobs: which jobs are overlaid, that the typed template and
    the apply configuration stay in agreement, that claim references stay closed, and that
    overlaying twice is overlaying once. */
module TemplateOverlay {
  import opened Common
  import opened Upsert
  import opened NodeOverlay

  // ---- claims through a merge ----

  lemma PositionInConcat(a: seq<Claim>, b: seq<Claim>, name: string)
    requires forall i :: 0 <= i < |a| ==> a[i].name != name
    ensures ClaimPosition(a + b, name) == |a| + ClaimPosition(b, name)
  {
    var k := ClaimPosition(a + b, name);
    assert forall i :: 0 <= i < |a| ==> (a + b)[i].name != name;
    assert forall i :: 0 <= i < |b| ==> (a + b)[|a| + i] == b[i];
  }

  /** Overriding claims whose names the base does not have are appended behind it. */
  lemma {:induction false} MergeDisjoint(base: seq<Claim>, over: seq<Claim>)
    requires forall i, j :: 0 <= i < |base| && 0 <= j < |over| ==> base[i].name != over[j].name
    ensures MergeClaims(base, over) == base + MergeClaims([], over)
  {
    hide MergeClaims, MergeClaim;
    MergeClaimsAre(base, over);
    MergeClaimsAre([], over);
    if over != [] {
      var n := |over| - 1;
      MergeDisjoint(base, over[..n]);
      MergeOneDisjoint(base, MergeClaims([], over[..n]), over[n]);
    }
  }

  lemma MergeClaimsAre(base: seq<Claim>, over: seq<Claim>)
    ensures MergeClaims(base, over) ==
            if over == [] then base else MergeClaim(MergeClaims(base, over[..|over| - 1]), over[|over| - 1])
  { }

  lemma MergeOneDisjoint(base: seq<Claim>, added: seq<Claim>, c: Claim)
    requires forall i :: 0 <= i < |base| ==> base[i].name != c.name
    ensures MergeClaim(base + added, c) == base + MergeClaim(added, c)
  {
    PositionInConcat(base, added, c.name);
    hide ClaimPosition;
    assert (base + added) + [c] == base + (added + [c]);
    var k := ClaimPosition(added, c.name);
    if k < |added| {
      assert (base + added)[|base| + k := c] == base + added[k := c];
    }
  }

  lemma {:induction false} MergeMembers(base: seq<Claim>, over: seq<Claim>)
    ensures forall x :: x in MergeClaims(base, over) ==> x in base || x in over
  {
    if over != [] {
      MergeMembers(base, over[..|over| - 1]);
      assert over == over[..|over| - 1] + [over[|over| - 1]];
    }
  }

  /** Each overriding name is present afterwards. */
  lemma {:induction false} MergeHasNames(base: seq<Claim>, over: seq<Claim>, i: nat)
    requires i < |over|
    ensures exists k :: 0 <= k < |MergeClaims(base, over)| && MergeClaims(base, over)[k].name == over[i].name
  {
    var n := |over| - 1;
    var mid := MergeClaims(base, over[..n]);
    if i < n {
      MergeHasNames(base, over[..n], i);
      var k :| 0 <= k < |mid| && mid[k].name == over[..n][i].name;
      assert MergeClaims(base, over)[k].name == over[i].name;
    } else {
      var k := ClaimPosition(mid, over[n].name);
      assert MergeClaims(base, over)[k].name == over[i].name;
    }
  }

  predicate Overridden(over: seq<Claim>, name: string)
  {
    ClaimPosition(over, name) < |over|
  }

  lemma OverriddenMeans(over: seq<Claim>, name: string)
    ensures Overridden(over, name) <==> exists i :: 0 <= i < |over| && over[i].name == name
  { }

  lemma {:induction false} NotOverriddenCount(cs: seq<Claim>, over: seq<Claim>, x: Claim)
    ensures multiset(NotOverridden(cs, over))[x] == if Overridden(over, x.name) then 0 else multiset(cs)[x]
  {
    if cs != [] {
      var front, last := cs[..|cs| - 1], cs[|cs| - 1];
      NotOverriddenCount(front, over, x);
      assert cs == front + [last];
      hide ClaimPosition;
    }
  }

  lemma NotOverriddenMembers(cs: seq<Claim>, over: seq<Claim>)
    ensures forall x :: x in NotOverridden(cs, over) <==> x in cs && !Overridden(over, x.name)
  { }

  /** What the merge leaves on the node container: the runtime's claims that the TrainJob does
      not override, with their requests, and the TrainJob's claims. */
  lemma MergedClaims(res: Resources, over: Resources, out: Resources)
    requires IsMerge(RuntimeSide(res, over), over, out)
    ensures multiset(out.claims) == multiset(NotOverridden(res.claims, over.claims)) + multiset(MergeClaims([], over.claims))
  {
    var base := NotOverridden(res.claims, over.claims);
    NotOverriddenMembers(res.claims, over.claims);
    forall i, j | 0 <= i < |base| && 0 <= j < |over.claims| ensures base[i].name != over.claims[j].name {
      assert base[i] in base;
      OverriddenMeans(over.claims, base[i].name);
    }
    MergeDisjoint(base, over.claims);
  }

  /** A claim after the merge is the runtime's own, untouched and not overridden, or one of the
      TrainJob's. In particular no overridden claim keeps the runtime's request. */
  lemma MergedClaimOrigin(res: Resources, over: Resources, out: Resources, x: Claim)
    requires IsMerge(RuntimeSide(res, over), over, out) && x in out.claims
    ensures (x in res.claims && !Overridden(over.claims, x.name)) || (x in over.claims && Overridden(over.claims, x.name))
  {
    MergedClaims(res, over, out);
    NotOverriddenMembers(res.claims, over.claims);
    MergeMembers([], over.claims);
    OverriddenMeans(over.claims, x.name);
    hide MergeClaims, NotOverridden;
    assert x in multiset(out.claims);
    if x in over.claims {
      var i := IndexOf(over.claims, x);
    }
  }

  ghost predicate SameResources(a: Resources, b: Resources)
  {
    a.limits == b.limits && a.requests == b.requests && multiset(a.claims) == multiset(b.claims)
  }

  lemma MergedLists(res: Resources, over: Resources, out: Resources)
    requires IsMerge(RuntimeSide(res, over), over, out)
    ensures out.limits == res.limits + over.limits && out.requests == res.requests + over.requests
  { }

  lemma ListTwice(base: ResourceList, over: ResourceList)
    ensures (base + over) + over == base + over
  { }

  lemma KeptTwice(res: Resources, over: Resources, once: Resources)
    requires IsMerge(RuntimeSide(res, over), over, once)
    ensures multiset(NotOverridden(once.claims, over.claims)) == multiset(NotOverridden(res.claims, over.claims))
  {
    hide MergeClaims, RuntimeSide, IsMerge, NotOverridden, Overridden;
    MergedClaims(res, over, once);
    forall x ensures multiset(NotOverridden(once.claims, over.claims))[x] == multiset(NotOverridden(res.claims, over.claims))[x] {
      NotOverriddenCount(once.claims, over.claims, x);
      NotOverriddenCount(res.claims, over.claims, x);
      if !Overridden(over.claims, x.name) {
        AddedAreOverridden(over.claims, x);
      }
    }
  }

  lemma AddedAreOverridden(over: seq<Claim>, x: Claim)
    requires !Overridden(over, x.name)
    ensures multiset(MergeClaims([], over))[x] == 0
  {
    MergeMembers([], over);
    OverriddenMeans(over, x.name);
    hide MergeClaims, Overridden;
    assert x !in MergeClaims([], over);
  }

  /** Merging the same overlay into the result of a merge changes nothing but claim order. */
  lemma MergeTwice(res: Resources, over: Resources, once: Resources, twice: Resources)
    requires IsMerge(RuntimeSide(res, over), over, once) && IsMerge(RuntimeSide(once, over), over, twice)
    ensures SameResources(once, twice)
  {
    hide NotOverridden, MergeClaims, RuntimeSide, IsMerge;
    MergedClaims(res, over, once);
    MergedClaims(once, over, twice);
    KeptTwice(res, over, once);
    MergedLists(res, over, once);
    MergedLists(once, over, twice);
    ListTwice(res.limits, over.limits);
    ListTwice(res.requests, over.requests);
  }

  // ---- one replicated job ----

  /** A replicated job in the typed template and in the apply configuration. */
  datatype Pair = Pair(job: Job, app: ApplyJob)

  /** The jobs the overlay touches: the trainer's, and the MPI launcher when it runs as a node. */
  predicate Selected(app: ApplyJob, policy: Option<bool>)
  {
    policy.Some? && (app.ancestor == Some(TRAINER) || (policy.value && app.name.GetOr("") == NODE))
  }

  predicate HasNodeResources(t: Trainer, gate: bool)
  {
    t.resourcesPerNode.Some? || (gate && |t.claims| > 0)
  }

  /** The first container named node, or the number of containers. */
  function NodeIndex(cs: seq<ApplyContainer>): (r: nat)
    ensures r <= |cs|
    ensures r < |cs| ==> cs[r].name.GetOr("") == NODE
    ensures forall i :: 0 <= i < r ==> cs[i].name.GetOr("") != NODE
  {
    if cs == [] then 0 else if cs[0].name.GetOr("") == NODE then 0 else 1 + NodeIndex(cs[1..])
  }

  /** The apply configuration was built from the typed template, container by container. */
  predicate Aligned(p: Pair)
  {
    |p.app.pod.containers| == |p.job.pod.containers|
  }

  function WithNode(p: Pair, k: nat, res: Resources): (r: Pair)
    requires Aligned(p) && k < |p.job.pod.containers|
  {
    var c, a := p.job.pod.containers[k], p.app.pod.containers[k];
    Pair(p.job.(pod := p.job.pod.(containers := p.job.pod.containers[k := c.(resources := res)])),
         p.app.(pod := p.app.pod.(containers := p.app.pod.containers[k := a.(resources := Some(ToApply(res)))])))
  }

  function WithClaims(p: Pair, t: Trainer, gate: bool): (r: Pair)
  {
    p.(app := p.app.(pod := p.app.pod.(claims := PodClaimsAfter(p.app.pod.claims, t.claims, gate))))
  }

  function OverlayJob(p: Pair, inp: Inputs, smp: Smp): (r: Option<Pair>)
    requires Aligned(p)
  {
    if inp.trainer.None? || !Selected(p.app, inp.policy) then Some(p)
    else
      var t, k := inp.trainer.value, NodeIndex(p.app.pod.containers);
      var q := WithClaims(p, t, inp.gate);
      if !HasNodeResources(t, inp.gate) || k == |p.app.pod.containers| then Some(q)
      else match NodeMerged(p.app.pod.containers[k], t, inp.gate, smp)
        case None => None
        case Some(res) => Some(WithNode(q, k, res))
  }

  method OverlayOne(p: Pair, inp: Inputs, smp: Smp) returns (r: Option<Pair>)
    requires Aligned(p)
    ensures r == OverlayJob(p, inp, smp)
  {
    hide NodeMerged, PodClaimsAfter, ToApply;
    var isTrainerAncestor := p.app.ancestor == Some(TRAINER) && inp.policy.Some?;
    var isMPILauncherAsNode := inp.policy.Some? && inp.policy.value && p.app.name.GetOr("") == NODE;
    var q := p;
    if isTrainerAncestor || isMPILauncherAsNode {
      if inp.trainer.Some? {
        var t := inp.trainer.value;
        var pod := ApplyTrainerPodResourceClaims(q.app.pod, t.claims, inp.gate);
        q := q.(app := q.app.(pod := pod));
        var hasNodeResources := t.resourcesPerNode.Some? || (inp.gate && |t.claims| > 0);
        for k := 0 to |pod.containers|
          invariant q == WithClaims(p, t, inp.gate)
          invariant hasNodeResources ==> forall i :: 0 <= i < k ==> pod.containers[i].name.GetOr("") != NODE
        {
          if pod.containers[k].name.GetOr("") != NODE || !hasNodeResources {
            continue;
          }
          assert NodeIndex(pod.containers) == k;
          var mergedRes := MergeTrainerNodeResources(pod.containers[k], t, inp.gate, smp);
          if mergedRes.None? {
            return None;
          }
          var config := ToApplyConfig(mergedRes.value);
          var c, a := q.job.pod.containers[k], q.app.pod.containers[k];
          q := q.(job := q.job.(pod := q.job.pod.(containers := q.job.pod.containers[k := c.(resources := mergedRes.value)])));
          q := q.(app := q.app.(pod := q.app.pod.(containers := q.app.pod.containers[k := a.(resources := Some(config))])));
          return Some(q);
        }
      }
    }
    r := Some(q);
  }

  /** Every container's resources are the same in the typed template and in the apply
      configuration. */
  ghost predicate Agrees(p: Pair)
  {
    Aligned(p) && SameContainers(p.job.pod.containers, p.app.pod.containers)
  }

  ghost predicate SameContainers(cs: seq<Container>, apps: seq<ApplyContainer>)
    requires |cs| == |apps|
  {
    forall k :: 0 <= k < |cs| ==> FromApply(apps[k].resources) == cs[k].resources
  }

  lemma OverlayKeepsAgreement(p: Pair, inp: Inputs, smp: Smp)
    requires Agrees(p) && OverlayJob(p, inp, smp).Some?
    ensures Agrees(OverlayJob(p, inp, smp).value)
  {
    var q := OverlayJob(p, inp, smp).value;
    hide NodeMerged, PodClaimsAfter;
    forall k | 0 <= k < |p.job.pod.containers|
      ensures FromApply(q.app.pod.containers[k].resources) == q.job.pod.containers[k].resources
    {
      if q.job.pod.containers[k] != p.job.pod.containers[k] || q.app.pod.containers[k] != p.app.pod.containers[k] {
        ApplyRoundTrip(q.job.pod.containers[k].resources);
      }
      hide FromApply, ToApply;
    }
  }

  // ---- the TrainJob's resources reach the node container ----

  /** The jobs the overlay is meant for: with an ML policy, the trainer's, and the launcher named
      node when MPI runs it as a node. */
  predicate IsNodeJob(app: ApplyJob, policy: Option<bool>)
  {
    (policy.Some? && app.ancestor == Some("trainer")) || (policy == Some(true) && app.name.GetOr("") == "node")
  }

  /** k is the first container named node. */
  predicate FirstNode(cs: seq<ApplyContainer>, k: nat)
  {
    k < |cs| && cs[k].name.GetOr("") == "node" && forall i :: 0 <= i < k ==> cs[i].name.GetOr("") != "node"
  }

  function LimitsOf(c: ApplyContainer): (r: ResourceList)
  {
    if c.resources.Some? then c.resources.value.limits.GetOr(map[]) else map[]
  }

  function RequestsOf(c: ApplyContainer): (r: ResourceList)
  {
    if c.resources.Some? then c.resources.value.requests.GetOr(map[]) else map[]
  }

  /** The overlay touches nothing but the Pod claims and the first node container of a node job. */
  lemma OverlayTouchesOnly(p: Pair, inp: Inputs, smp: Smp)
    requires Aligned(p) && OverlayJob(p, inp, smp).Some?
    ensures var q := OverlayJob(p, inp, smp).value;
      && (inp.trainer.None? || !IsNodeJob(p.app, inp.policy) ==> q == p)
      && Aligned(q) && |q.app.pod.containers| == |p.app.pod.containers|
      && q.job == p.job.(pod := p.job.pod.(containers := q.job.pod.containers))
      && q.app == p.app.(pod := p.app.pod.(containers := q.app.pod.containers, claims := q.app.pod.claims))
      && forall i: nat :: i < |p.app.pod.containers| ==>
           && q.job.pod.containers[i].name == p.job.pod.containers[i].name
           && q.app.pod.containers[i].name == p.app.pod.containers[i].name
           && (!FirstNode(p.app.pod.containers, i) ==>
                 q.job.pod.containers[i] == p.job.pod.containers[i] && q.app.pod.containers[i] == p.app.pod.containers[i])
  {
    hide NodeMerged, PodClaimsAfter, ToApply;
  }

  /** The overlay fails exactly when it has resources or claims to give to a node container and
      the merge into that container fails. */
  lemma OverlayFails(p: Pair, inp: Inputs, smp: Smp)
    requires Aligned(p)
    ensures OverlayJob(p, inp, smp).None? <==>
      && inp.trainer.Some? && IsNodeJob(p.app, inp.policy)
      && (inp.trainer.value.resourcesPerNode.Some? || (inp.gate && inp.trainer.value.claims != []))
      && exists k: nat :: FirstNode(p.app.pod.containers, k) &&
           NodeMerged(p.app.pod.containers[k], inp.trainer.value, inp.gate, smp).None?
  {
    var k := NodeIndex(p.app.pod.containers);
    assert forall i: nat :: FirstNode(p.app.pod.containers, i) ==> i == k;
    assert k < |p.app.pod.containers| ==> FirstNode(p.app.pod.containers, k);
    hide NodeMerged, PodClaimsAfter, ToApply, NodeIndex, FirstNode;
  }

  lemma MergedListsOf(node: ApplyContainer, t: Trainer, gate: bool, smp: Smp, res: Resources)
    requires Strategic(smp) && NodeMerged(node, t, gate, smp) == Some(res)
    ensures res.limits == LimitsOf(node) + (if t.resourcesPerNode.Some? then t.resourcesPerNode.value.limits else map[])
    ensures res.requests == RequestsOf(node) + (if t.resourcesPerNode.Some? then t.resourcesPerNode.value.requests else map[])
  {
    var base, over := FromApply(node.resources), NodeResources(t, gate);
    assert MergesLike(smp, RuntimeSide(base, over), over);
    MergedLists(base, over, res);
    hide RuntimeSide, IsMerge, Strategic;
  }

  lemma ToApplyLists(res: Resources, c: ApplyContainer)
    requires c.resources == Some(ToApply(res))
    ensures LimitsOf(c) == res.limits && RequestsOf(c) == res.requests
  { }

  /** The first node container of a node job ends with the limits it had, overridden per key by
      the TrainJob's limits, and likewise its requests, in the apply configuration as in the
      typed template. */
  lemma NodeResourcesReach(p: Pair, inp: Inputs, smp: Smp, k: nat)
    requires Aligned(p) && Strategic(smp) && OverlayJob(p, inp, smp).Some? && IsNodeJob(p.app, inp.policy)
    requires inp.trainer.Some? && inp.trainer.value.resourcesPerNode.Some? && FirstNode(p.app.pod.containers, k)
    ensures var q, node := OverlayJob(p, inp, smp).value, p.app.pod.containers[k];
      var limits := LimitsOf(node) + inp.trainer.value.resourcesPerNode.value.limits;
      var requests := RequestsOf(node) + inp.trainer.value.resourcesPerNode.value.requests;
      && LimitsOf(q.app.pod.containers[k]) == q.job.pod.containers[k].resources.limits == limits
      && RequestsOf(q.app.pod.containers[k]) == q.job.pod.containers[k].resources.requests == requests
  {
    var t, node := inp.trainer.value, p.app.pod.containers[k];
    assert NodeIndex(p.app.pod.containers) == k;
    var res := NodeMerged(node, t, inp.gate, smp).value;
    var q := OverlayJob(p, inp, smp).value;
    assert q == WithNode(WithClaims(p, t, inp.gate), k, res);
    hide OverlayJob, NodeMerged, PodClaimsAfter, ToApply, LimitsOf, RequestsOf, Strategic;
    MergedListsOf(node, t, inp.gate, smp, res);
    ToApplyLists(res, q.app.pod.containers[k]);
  }

  // ---- claim references stay closed ----

  ghost predicate ClaimsWithin(cs: seq<ApplyContainer>, podClaims: seq<PodClaim>)
  {
    forall k, x :: 0 <= k < |cs| && x in FromApply(cs[k].resources).claims ==> HasPodClaim(podClaims, x.name)
  }

  /** Every claim of every container names a Pod-level claim. */
  ghost predicate Closed(pod: ApplyPod)
  {
    ClaimsWithin(pod.containers, pod.claims) && ClaimsWithin(pod.initContainers, pod.claims)
  }

  /** The Pod-level claims after the overlay. */
  function ClaimsOverlaid(app: ApplyJob, inp: Inputs): (r: seq<PodClaim>)
  {
    if inp.trainer.None? || !Selected(app, inp.policy) then app.pod.claims
    else PodClaimsAfter(app.pod.claims, inp.trainer.value.claims, inp.gate)
  }

  lemma OverlayGivesClaims(p: Pair, inp: Inputs, smp: Smp)
    requires Aligned(p) && OverlayJob(p, inp, smp).Some?
    ensures OverlayJob(p, inp, smp).value.app.pod.claims == ClaimsOverlaid(p.app, inp)
  { }

  /** The TrainJob claims the name, and its claims reach this job's Pod. */
  ghost predicate Claimed(app: ApplyJob, inp: Inputs, name: string)
  {
    inp.gate && inp.trainer.Some? && Selected(app, inp.policy) && ClaimsName(inp.trainer.value.claims, name)
  }

  /** Every claim of these containers names a Pod-level claim or one of the TrainJob's. */
  ghost predicate Covered(cs: seq<ApplyContainer>, app: ApplyJob, inp: Inputs)
  {
    forall k, x :: 0 <= k < |cs| && x in FromApply(cs[k].resources).claims ==>
      HasPodClaim(app.pod.claims, x.name) || Claimed(app, inp, x.name)
  }

  ghost predicate AllCovered(app: ApplyJob, inp: Inputs)
  {
    Covered(app.pod.containers, app, inp) && Covered(app.pod.initContainers, app, inp)
  }

  lemma OverlaidPodClaim(app: ApplyJob, inp: Inputs, name: string)
    ensures HasPodClaim(ClaimsOverlaid(app, inp), name) <==> HasPodClaim(app.pod.claims, name) || Claimed(app, inp, name)
  {
    if inp.trainer.Some? {
      PodClaimsResolve(app.pod.claims, inp.trainer.value.claims, name);
    }
    hide HasPodClaim, ClaimsName, Selected, PodClaims;
  }

  lemma CoveredMeans(cs: seq<ApplyContainer>, app: ApplyJob, inp: Inputs)
    ensures Covered(cs, app, inp) <==> ClaimsWithin(cs, ClaimsOverlaid(app, inp))
  {
    forall name ensures HasPodClaim(ClaimsOverlaid(app, inp), name) <==> HasPodClaim(app.pod.claims, name) || Claimed(app, inp, name) {
      OverlaidPodClaim(app, inp, name);
    }
    hide HasPodClaim, Claimed, ClaimsOverlaid, FromApply;
  }

  lemma OverriddenByTrainJob(t: Trainer, gate: bool, name: string)
    ensures Overridden(NodeResources(t, gate).claims, name) <==> gate && ClaimsName(t.claims, name)
  {
    var over := NodeResources(t, gate).claims;
    OverriddenMeans(over, name);
    assert gate ==> forall i :: 0 <= i < |t.claims| ==> over[i].name == t.claims[i].name;
    hide Overridden;
  }

  /** What becomes of the node container's claims: those the TrainJob claims come back whole, and
      the others stay as they are. */
  lemma NodeClaimOrigin(node: ApplyContainer, t: Trainer, gate: bool, smp: Smp, x: Claim)
    requires Strategic(smp) && NodeMerged(node, t, gate, smp).Some?
    ensures var res, taken := NodeMerged(node, t, gate, smp).value, gate && ClaimsName(t.claims, x.name);
      && (taken && x in res.claims ==> x.request == "")
      && (!taken ==> (x in res.claims <==> x in FromApply(node.resources).claims))
  {
    var over := NodeResources(t, gate);
    var res, out := FromApply(node.resources), NodeMerged(node, t, gate, smp).value;
    assert MergesLike(smp, RuntimeSide(res, over), over);
    OverriddenByTrainJob(t, gate, x.name);
    if x in out.claims {
      MergedClaimOrigin(res, over, out, x);
    }
    MergedClaims(res, over, out);
    NotOverriddenMembers(res.claims, over.claims);
    assert forall c :: c in over.claims ==> c.request == "";
    hide RuntimeSide, FromApply, IsMerge, NodeMerged, Overridden, ClaimsName, MergeClaims, NotOverridden, NodeResources;
    assert x in multiset(out.claims) <==> x in out.claims;
  }

  /** Merging the node container neither opens nor closes a reference. */
  lemma NodeStaysWithin(node: ApplyContainer, t: Trainer, gate: bool, smp: Smp, podClaims: seq<PodClaim>)
    requires Strategic(smp) && NodeMerged(node, t, gate, smp).Some?
    requires forall name :: gate && ClaimsName(t.claims, name) ==> HasPodClaim(podClaims, name)
    ensures (forall x :: x in NodeMerged(node, t, gate, smp).value.claims ==> HasPodClaim(podClaims, x.name)) <==>
            (forall x :: x in FromApply(node.resources).claims ==> HasPodClaim(podClaims, x.name))
  {
    forall x: Claim ensures
      !(gate && ClaimsName(t.claims, x.name)) ==>
        (x in NodeMerged(node, t, gate, smp).value.claims <==> x in FromApply(node.resources).claims)
    {
      NodeClaimOrigin(node, t, gate, smp, x);
    }
    hide NodeMerged, FromApply, HasPodClaim, ClaimsName;
  }

  /** Which references are closed after the overlay: exactly those of a Pod whose container and
      init container claims all name a Pod-level claim or, where they reach it, one of the
      TrainJob's. */
  lemma ClosedExactly(p: Pair, inp: Inputs, smp: Smp)
    requires Aligned(p) && Strategic(smp) && OverlayJob(p, inp, smp).Some?
    ensures Closed(OverlayJob(p, inp, smp).value.app.pod) <==> AllCovered(p.app, inp)
  {
    hide OverlayJob, Covered, ClaimsWithin, ClaimsOverlaid, Strategic;
    CoveredMeans(p.app.pod.containers, p.app, inp);
    CoveredMeans(p.app.pod.initContainers, p.app, inp);
    OverlayGivesClaims(p, inp, smp);
    ContainersStayWithin(p, inp, smp);
  }

  lemma ContainersStayWithin(p: Pair, inp: Inputs, smp: Smp)
    requires Aligned(p) && Strategic(smp) && OverlayJob(p, inp, smp).Some?
    ensures var q, podClaims := OverlayJob(p, inp, smp).value.app.pod, ClaimsOverlaid(p.app, inp);
      && q.initContainers == p.app.pod.initContainers
      && (ClaimsWithin(q.containers, podClaims) <==> ClaimsWithin(p.app.pod.containers, podClaims))
  {
    hide ClaimsWithin, ClaimsOverlaid, PodClaimsAfter, HasPodClaim, FromApply, ToApply, ClaimsName, NodeMerged, Strategic;
    var q, podClaims := OverlayJob(p, inp, smp).value, ClaimsOverlaid(p.app, inp);
    if inp.trainer.Some? && Selected(p.app, inp.policy) {
      var t, k := inp.trainer.value, NodeIndex(p.app.pod.containers);
      if HasNodeResources(t, inp.gate) && k < |p.app.pod.containers| {
        var node := p.app.pod.containers[k];
        var res := NodeMerged(node, t, inp.gate, smp).value;
        assert q == WithNode(WithClaims(p, t, inp.gate), k, res);
        ApplyRoundTrip(res);
        forall name | inp.gate && ClaimsName(t.claims, name) ensures HasPodClaim(podClaims, name) {
          OverlaidPodClaim(p.app, inp, name);
        }
        NodeStaysWithin(node, t, inp.gate, smp, podClaims);
        OneContainerMerged(p.app.pod.containers, q.app.pod.containers, k, podClaims);
      }
    }
  }

  lemma OneContainerMerged(cs: seq<ApplyContainer>, cs': seq<ApplyContainer>, k: nat, podClaims: seq<PodClaim>)
    requires k < |cs| == |cs'| && forall i :: 0 <= i < |cs| && i != k ==> cs'[i] == cs[i]
    requires (forall x :: x in FromApply(cs'[k].resources).claims ==> HasPodClaim(podClaims, x.name)) <==>
             (forall x :: x in FromApply(cs[k].resources).claims ==> HasPodClaim(podClaims, x.name))
    ensures ClaimsWithin(cs', podClaims) <==> ClaimsWithin(cs, podClaims)
  {
    hide FromApply, HasPodClaim;
  }

  /** If the references are closed before the overlay they are closed after it, for every
      container and init container. */
  lemma ClaimsStayClosed(p: Pair, inp: Inputs, smp: Smp)
    requires Aligned(p) && Strategic(smp) && Closed(p.app.pod) && OverlayJob(p, inp, smp).Some?
    ensures Closed(OverlayJob(p, inp, smp).value.app.pod)
  {
    ClosedExactly(p, inp, smp);
    hide OverlayJob, FromApply, HasPodClaim, Claimed, Strategic;
    assert ClaimsWithin(p.app.pod.containers, p.app.pod.claims) && ClaimsWithin(p.app.pod.initContainers, p.app.pod.claims);
  }

  /** After the overlay, a claim the TrainJob declares is requested whole on the node container
      and resolves, in the Pod, to one of the TrainJob's templates for that name. */
  lemma TrainJobClaimsWin(p: Pair, inp: Inputs, smp: Smp, i: nat)
    requires Aligned(p) && Strategic(smp) && inp.gate && Selected(p.app, inp.policy)
    requires inp.trainer.Some? && i < |inp.trainer.value.claims| && OverlayJob(p, inp, smp).Some?
    requires NodeIndex(p.app.pod.containers) < |p.app.pod.containers|
    ensures var q, name := OverlayJob(p, inp, smp).value, inp.trainer.value.claims[i].name;
      var node := FromApply(q.app.pod.containers[NodeIndex(p.app.pod.containers)].resources);
      && (exists k :: 0 <= k < |node.claims| && node.claims[k].name == name)
      && (forall x :: x in node.claims && x.name == name ==> x.request == "")
      && (exists tpl :: ValueAt(q.app.pod.claims, Some(name)) == Some(FromTemplate(tpl)) &&
                        TrainerClaim(name, tpl) in inp.trainer.value.claims)
  {
    var t, k := inp.trainer.value, NodeIndex(p.app.pod.containers);
    var node, name := p.app.pod.containers[k], t.claims[i].name;
    var q := OverlayJob(p, inp, smp).value;
    var res := NodeMerged(node, t, true, smp).value;
    assert q == WithNode(WithClaims(p, t, true), k, res);
    ApplyRoundTrip(res);
    assert FromApply(q.app.pod.containers[k].resources) == res;
    assert q.app.pod.claims == PodClaimsAfter(p.app.pod.claims, t.claims, true);
    assert ClaimsName(t.claims, name);
    PodClaimsResolve(p.app.pod.claims, t.claims, name);
    forall x | x in res.claims && x.name == name ensures x.request == "" {
      NodeClaimOrigin(node, t, true, smp, x);
    }
    MergedHasClaim(FromApply(node.resources), NodeResources(t, true), res, smp, i);
  }

  lemma MergedHasClaim(res: Resources, over: Resources, out: Resources, smp: Smp, i: nat)
    requires Strategic(smp) && smp(RuntimeSide(res, over), over) == Some(out) && i < |over.claims|
    ensures exists k :: 0 <= k < |out.claims| && out.claims[k].name == over.claims[i].name
  {
    assert MergesLike(smp, RuntimeSide(res, over), over);
    var merged := MergeClaims(RuntimeSide(res, over).claims, over.claims);
    MergeHasNames(RuntimeSide(res, over).claims, over.claims, i);
    var k :| 0 <= k < |merged| && merged[k].name == over.claims[i].name;
    hide MergeClaims, RuntimeSide;
    assert merged[k] in multiset(out.claims);
    var j := IndexOf(out.claims, merged[k]);
  }

  // ---- overlaying twice ----

  /** The same template up to the order of claims inside a container. */
  ghost predicate SameTemplate(a: Job, b: Job)
  {
    && a.name == b.name && a.replicas == b.replicas && a.ancestor == b.ancestor
    && a.pod.initContainers == b.pod.initContainers && a.pod.claims == b.pod.claims
    && |a.pod.containers| == |b.pod.containers|
    && forall k :: 0 <= k < |a.pod.containers| ==>
         a.pod.containers[k].name == b.pod.containers[k].name &&
         SameResources(a.pod.containers[k].resources, b.pod.containers[k].resources)
  }

  /** apply.FromTypedObjWithFields on one replicated job. */
  function FromTypedContainers(cs: seq<Container>): (r: seq<ApplyContainer>)
    ensures |r| == |cs|
    ensures forall k :: 0 <= k < |cs| ==> r[k] == ApplyContainer(Some(cs[k].name), Some(ToApply(cs[k].resources)))
  {
    seq(|cs|, k requires 0 <= k < |cs| => ApplyContainer(Some(cs[k].name), Some(ToApply(cs[k].resources))))
  }

  function FromTypedClaims(cs: seq<(string, Source)>): (r: seq<PodClaim>)
    ensures |r| == |cs|
    ensures forall k :: 0 <= k < |cs| ==> r[k] == Entry(Some(cs[k].0), cs[k].1)
  {
    seq(|cs|, k requires 0 <= k < |cs| => Entry(Some(cs[k].0), cs[k].1))
  }

  function FromTyped(job: Job): (r: ApplyJob)
  {
    ApplyJob(Some(job.name), job.ancestor,
             ApplyPod(FromTypedContainers(job.pod.containers), FromTypedContainers(job.pod.initContainers),
                      FromTypedClaims(job.pod.claims)))
  }

  /** A freshly built apply configuration agrees with its template. */
  lemma FreshAgrees(job: Job)
    ensures Agrees(Pair(job, FromTyped(job)))
  { }

  /** The part of a job that says whether and where it is overlaid. */
  ghost predicate SameShape(a: ApplyJob, b: ApplyJob)
  {
    && a.name == b.name && a.ancestor == b.ancestor
    && |a.pod.containers| == |b.pod.containers|
    && forall i :: 0 <= i < |a.pod.containers| ==> a.pod.containers[i].name == b.pod.containers[i].name
  }

  lemma OverlayKeepsShape(p: Pair, inp: Inputs, smp: Smp)
    requires Aligned(p) && OverlayJob(p, inp, smp).Some?
    ensures SameShape(p.app, OverlayJob(p, inp, smp).value.app)
    ensures OverlayJob(p, inp, smp).value.job.name == p.job.name && OverlayJob(p, inp, smp).value.job.ancestor == p.job.ancestor
    ensures OverlayJob(p, inp, smp).value.job.pod.claims == p.job.pod.claims
  {
    hide NodeMerged, PodClaimsAfter, ToApply, NodeIndex;
  }

  lemma SameNodeIndex(a: ApplyJob, b: ApplyJob)
    requires SameShape(a, b)
    ensures NodeIndex(a.pod.containers) == NodeIndex(b.pod.containers)
  { }

  /** once has resources r1 at container k and twice has r2 there, and else they are job. */
  lemma OneNodeChanged(job: Job, once: Job, twice: Job, k: nat, r1: Resources, r2: Resources)
    requires k < |job.pod.containers| && SameResources(r1, r2)
    requires once == job.(pod := job.pod.(containers := job.pod.containers[k := job.pod.containers[k].(resources := r1)]))
    requires twice == once.(pod := once.pod.(containers := once.pod.containers[k := once.pod.containers[k].(resources := r2)]))
    ensures SameTemplate(once, twice)
  { }

  /** Overlaying again, with any apply configuration of the same shape that agrees with the
      overlaid template, leaves the template as it is. */
  lemma OverlayTwice(p: Pair, again: ApplyJob, inp: Inputs, smp: Smp)
    requires Agrees(p) && Strategic(smp) && OverlayJob(p, inp, smp).Some?
    requires SameShape(p.app, again) && Agrees(Pair(OverlayJob(p, inp, smp).value.job, again))
    requires OverlayJob(Pair(OverlayJob(p, inp, smp).value.job, again), inp, smp).Some?
    ensures SameTemplate(OverlayJob(p, inp, smp).value.job, OverlayJob(Pair(OverlayJob(p, inp, smp).value.job, again), inp, smp).value.job)
  {
    SameNodeIndex(p.app, again);
    hide NodeMerged, FromApply, ToApply, Strategic, PodClaimsAfter, NodeIndex;
    var once := OverlayJob(p, inp, smp).value;
    var second := Pair(once.job, again);
    if inp.trainer.Some? && Selected(p.app, inp.policy) {
      var t, k := inp.trainer.value, NodeIndex(p.app.pod.containers);
      if HasNodeResources(t, inp.gate) && k < |p.app.pod.containers| {
        var r1 := NodeMerged(p.app.pod.containers[k], t, inp.gate, smp).value;
        var r2 := NodeMerged(again.pod.containers[k], t, inp.gate, smp).value;
        assert once == WithNode(WithClaims(p, t, inp.gate), k, r1);
        assert OverlayJob(second, inp, smp).value == WithNode(WithClaims(second, t, inp.gate), k, r2);
        hide OverlayJob, WithClaims;
        assert FromApply(again.pod.containers[k].resources) == r1;
        NodeTwice(p.app.pod.containers[k], again.pod.containers[k], t, inp.gate, smp, r1, r2);
        OneNodeChanged(p.job, once.job, OverlayJob(second, inp, smp).value.job, k, r1, r2);
      }
    }
  }

  /** The node container's second merge starts from the first one's result. */
  lemma NodeTwice(node: ApplyContainer, again: ApplyContainer, t: Trainer, gate: bool, smp: Smp, once: Resources, twice: Resources)
    requires Strategic(smp) && NodeMerged(node, t, gate, smp) == Some(once) && NodeMerged(again, t, gate, smp) == Some(twice)
    requires FromApply(again.resources) == once
    ensures SameResources(once, twice)
  {
    var over := NodeResources(t, gate);
    var base := FromApply(node.resources);
    assert MergesLike(smp, RuntimeSide(base, over), over) && MergesLike(smp, RuntimeSide(once, over), over);
    MergeTwice(base, over, once, twice);
    hide FromApply, RuntimeSide, NodeResources;
  }

  /** Overlaying the same TrainJob a second time changes nothing. */
  lemma OverlayIsIdempotent(p: Pair, inp: Inputs, smp: Smp)
    requires Agrees(p) && Strategic(smp) && OverlayJob(p, inp, smp).Some?
    requires OverlayJob(OverlayJob(p, inp, smp).value, inp, smp).Some?
    ensures var once := OverlayJob(p, inp, smp).value;
      var twice := OverlayJob(once, inp, smp).value;
      SameTemplate(once.job, twice.job) && once.app.pod.claims == twice.app.pod.claims && Agrees(twice)
  {
    var once := OverlayJob(p, inp, smp).value;
    OverlayKeepsAgreement(p, inp, smp);
    OverlayKeepsAgreement(once, inp, smp);
    OverlayKeepsShape(p, inp, smp);
    OverlayTwice(p, once.app, inp, smp);
    OverlayGivesClaims(p, inp, smp);
    OverlayGivesClaims(once, inp, smp);
    if inp.trainer.Some? {
      UpsertIsIdempotent(p.app.pod.claims, PodClaims(inp.trainer.value.claims));
    }
    hide OverlayJob, SameContainers, SameTemplate, UpsertAll, PodClaims;
  }

  /** A later build that starts from the typed template the first build wrote through gets the
      same template and the same Pod claims as one that starts from the original. */
  lemma RebuildIsIdempotent(job: Job, inp: Inputs, smp: Smp)
    requires Strategic(smp)
    requires FreshOverlay(job, inp, smp).Some? && FreshOverlay(FreshOverlay(job, inp, smp).value.job, inp, smp).Some?
    ensures var once := FreshOverlay(job, inp, smp).value;
      var again := FreshOverlay(once.job, inp, smp).value;
      SameTemplate(once.job, again.job) && once.app.pod.claims == again.app.pod.claims && Agrees(again)
  {
    var p := Pair(job, FromTyped(job));
    FreshAgrees(job);
    var once := FreshOverlay(job, inp, smp).value;
    FreshAgrees(once.job);
    OverlayKeepsShape(p, inp, smp);
    TypedShape(p, inp, smp);
    OverlayTwice(p, FromTyped(once.job), inp, smp);
    OverlayKeepsAgreement(Pair(once.job, FromTyped(once.job)), inp, smp);
    OverlayGivesClaims(p, inp, smp);
    OverlayGivesClaims(Pair(once.job, FromTyped(once.job)), inp, smp);
    hide OverlayJob, SameContainers, SameTemplate, PodClaimsAfter;
  }

  function FreshOverlay(job: Job, inp: Inputs, smp: Smp): (r: Option<Pair>)
  {
    OverlayJob(Pair(job, FromTyped(job)), inp, smp)
  }

  lemma TypedShape(p: Pair, inp: Inputs, smp: Smp)
    requires p.app == FromTyped(p.job) && OverlayJob(p, inp, smp).Some?
    ensures SameShape(p.app, FromTyped(OverlayJob(p, inp, smp).value.job))
  {
    hide NodeMerged, ToApply, NodeIndex, PodClaimsAfter;
  }

  // ---- the whole template ----

  /** The typed template, shared with the caller through its slice, and the apply configuration. */
  class Template {
    var typed: seq<Job>
    var applied: seq<ApplyJob>

    ghost predicate Valid()
      reads this
    {
      |typed| == |applied| && forall i :: 0 <= i < |typed| ==> Agrees(Pair(typed[i], applied[i]))
    }

    constructor (typed: seq<Job>, applied: seq<ApplyJob>)
      ensures this.typed == typed && this.applied == applied
    {
      this.typed, this.applied := typed, applied;
    }

    /** The loop of newRuntimeInfo over the replicated jobs. */
    method Overlay(inp: Inputs, smp: Smp) returns (ok: bool)
      requires Valid() && Strategic(smp)
      modifies this
      ensures Valid() && |typed| == old(|typed|)
      ensures ok <==> forall i :: 0 <= i < old(|typed|) ==> OverlayJob(Pair(old(typed)[i], old(applied)[i]), inp, smp).Some?
      ensures ok ==> forall i :: 0 <= i < |typed| ==>
                       OverlayJob(Pair(old(typed)[i], old(applied)[i]), inp, smp) == Some(Pair(typed[i], applied[i]))
      ensures ok ==> forall i :: 0 <= i < |typed| && Closed(old(applied)[i].pod) ==> Closed(applied[i].pod)
      ensures ok ==> forall i :: 0 <= i < |typed| ==> (Closed(applied[i].pod) <==> AllCovered(old(applied)[i], inp))
    {
      hide OverlayJob, SameContainers, Closed, Strategic, AllCovered;
      for i := 0 to |typed|
        invariant |typed| == |applied| == old(|typed|)
        invariant forall j :: 0 <= j < |typed| ==> Agrees(Pair(typed[j], applied[j]))
        invariant forall j :: i <= j < |typed| ==> typed[j] == old(typed)[j] && applied[j] == old(applied)[j]
        invariant forall j :: 0 <= j < i ==>
                    OverlayJob(Pair(old(typed)[j], old(applied)[j]), inp, smp) == Some(Pair(typed[j], applied[j]))
        invariant forall j :: 0 <= j < i && Closed(old(applied)[j].pod) ==> Closed(applied[j].pod)
        invariant forall j :: 0 <= j < i ==> (Closed(applied[j].pod) <==> AllCovered(old(applied)[j], inp))
      {
        var p := Pair(typed[i], applied[i]);
        var q := OverlayOne(p, inp, smp);
        if q.None? {
          return false;
        }
        OverlayKeepsAgreement(p, inp, smp);
        ClosedExactly(p, inp, smp);
        if Closed(p.app.pod) {
          ClaimsStayClosed(p, inp, smp);
        }
        typed, applied := typed[i := q.value.job], applied[i := q.value.app];
      }
      ok := true;
    }
  }
}
