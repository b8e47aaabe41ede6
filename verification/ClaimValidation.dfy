/** The JobSet plugin's last look at the claims of the merged template, when a TrainJob is
    admitted, and what it makes of patches. */
module ClaimValidation {
  import opened Common
  import opened Upsert
  import opened NodeOverlay
  import opened TemplateOverlay
  import opened RuntimeValidation

  /** An error: the container is counted over the init containers and then the containers. */
  datatype Dangling = Dangling(job: nat, container: nat, claim: nat)

  predicate Named(cs: seq<PodClaim>, name: string)
  {
    exists i :: 0 <= i < |cs| && cs[i].key.GetOr("") == name
  }

  predicate DanglesIn(cs: seq<ApplyContainer>, podClaims: seq<PodClaim>, k: nat, m: nat)
  {
    && k < |cs| && cs[k].resources.Some? && m < |cs[k].resources.value.claims|
    && !Named(podClaims, cs[k].resources.value.claims[m].name.GetOr(""))
  }

  predicate Dangles(jobs: seq<ApplyJob>, d: Dangling)
  {
    d.job < |jobs| && DanglesIn(jobs[d.job].pod.initContainers + jobs[d.job].pod.containers, jobs[d.job].pod.claims, d.container, d.claim)
  }

  method PodClaimNames(cs: seq<PodClaim>) returns (names: set<string>)
    ensures forall name :: name in names <==> Named(cs, name)
  {
    names := {};
    for i := 0 to |cs|
      invariant forall name :: name in names <==> exists k :: 0 <= k < i && cs[k].key.GetOr("") == name
    {
      names := names + {cs[i].key.GetOr("")};
    }
  }

  method ValidateContainers(idx: nat, cs: seq<ApplyContainer>, podClaims: seq<PodClaim>) returns (errs: seq<Dangling>)
    ensures Distinct(errs)
    ensures forall d :: d in errs <==> d.job == idx && DanglesIn(cs, podClaims, d.container, d.claim)
  {
    var names := PodClaimNames(podClaims);
    hide Named;
    errs := [];
    for k := 0 to |cs|
      invariant Distinct(errs)
      invariant forall d :: d in errs <==> d.job == idx && d.container < k && DanglesIn(cs, podClaims, d.container, d.claim)
    {
      if cs[k].resources.None? {
        continue;
      }
      ghost var before := errs;
      var claims := cs[k].resources.value.claims;
      for m := 0 to |claims|
        invariant Distinct(errs)
        invariant forall d :: d in errs <==>
                    d in before || (d.job == idx && d.container == k && d.claim < m && DanglesIn(cs, podClaims, k, d.claim))
      {
        if claims[m].name.GetOr("") !in names {
          errs := errs + [Dangling(idx, k, m)];
        }
      }
    }
  }

  /** Exactly the dangling references of the merged template are reported, each once. */
  method ValidateMergedClaims(jobs: seq<ApplyJob>) returns (errs: seq<Dangling>)
    ensures Distinct(errs)
    ensures forall d :: d in errs <==> Dangles(jobs, d)
  {
    errs := [];
    for i := 0 to |jobs|
      invariant Distinct(errs)
      invariant forall d :: d in errs <==> d.job < i && Dangles(jobs, d)
    {
      var here := ValidateContainers(i, jobs[i].pod.initContainers + jobs[i].pod.containers, jobs[i].pod.claims);
      hide DanglesIn;
      DistinctConcat(errs, here);
      errs := errs + here;
    }
  }

  // ---- against closure ----

  /** Every Pod-level claim has a name, as it has in a configuration built from a typed template. */
  ghost predicate AllNamed(cs: seq<PodClaim>)
  {
    forall i :: 0 <= i < |cs| ==> cs[i].key.Some?
  }

  lemma NamedIsHasPodClaim(cs: seq<PodClaim>, name: string)
    requires AllNamed(cs)
    ensures Named(cs, name) <==> HasPodClaim(cs, name)
  {
    if HasPodClaim(cs, name) {
      assert cs[Position(cs, Some(name))].key.GetOr("") == name;
    }
    if i :| 0 <= i < |cs| && cs[i].key.GetOr("") == name {
      assert cs[i].key == Some(name);
    }
  }

  lemma NoneDangles(cs: seq<ApplyContainer>, podClaims: seq<PodClaim>)
    requires AllNamed(podClaims)
    ensures (forall k: nat, m: nat :: !DanglesIn(cs, podClaims, k, m)) <==> ClaimsWithin(cs, podClaims)
  {
    forall name ensures Named(podClaims, name) <==> HasPodClaim(podClaims, name) {
      NamedIsHasPodClaim(podClaims, name);
    }
    hide Named, HasPodClaim;
    if forall k: nat, m: nat :: !DanglesIn(cs, podClaims, k, m) {
      forall k, x | 0 <= k < |cs| && x in FromApply(cs[k].resources).claims ensures HasPodClaim(podClaims, x.name) {
        var m := IndexOf(FromApply(cs[k].resources).claims, x);
        assert !DanglesIn(cs, podClaims, k, m);
      }
    }
    if k: nat, m: nat :| DanglesIn(cs, podClaims, k, m) {
      assert FromApply(cs[k].resources).claims[m] in FromApply(cs[k].resources).claims;
    }
  }

  lemma {:induction false} UpsertStaysNamed(cs: seq<PodClaim>, es: seq<PodClaim>)
    requires AllNamed(cs) && AllNamed(es)
    ensures AllNamed(UpsertAll(cs, es))
  {
    if es != [] {
      UpsertStaysNamed(cs, es[..|es| - 1]);
    }
  }

  /** The check and closure agree on what a build hands to it. */
  lemma ReportsNoneIffClosed(job: Job, inp: Inputs, smp: Smp)
    requires FreshOverlay(job, inp, smp).Some?
    ensures var app := FreshOverlay(job, inp, smp).value.app;
      (forall d :: !Dangles([app], d)) <==> Closed(app.pod)
  {
    var app := FreshOverlay(job, inp, smp).value.app;
    OverlayGivesClaims(Pair(job, FromTyped(job)), inp, smp);
    if inp.trainer.Some? {
      UpsertStaysNamed(FromTypedClaims(job.pod.claims), PodClaims(inp.trainer.value.claims));
    }
    assert AllNamed(app.pod.claims);
    hide OverlayJob;
    var inits, mains := app.pod.initContainers, app.pod.containers;
    NoneDangles(inits + mains, app.pod.claims);
    WithinConcat(inits, mains, app.pod.claims);
    hide DanglesIn, ClaimsWithin;
    if forall d :: !Dangles([app], d) {
      forall k: nat, m: nat ensures !DanglesIn(inits + mains, app.pod.claims, k, m) {
        assert !Dangles([app], Dangling(0, k, m));
      }
    }
  }

  lemma WithinConcat(a: seq<ApplyContainer>, b: seq<ApplyContainer>, podClaims: seq<PodClaim>)
    ensures ClaimsWithin(a + b, podClaims) <==> ClaimsWithin(a, podClaims) && ClaimsWithin(b, podClaims)
  {
    hide HasPodClaim, FromApply;
    if ClaimsWithin(a + b, podClaims) {
      assert forall k :: 0 <= k < |a| ==> (a + b)[k] == a[k];
      assert forall k :: 0 <= k < |b| ==> (a + b)[|a| + k] == b[k];
    }
  }

  /** Whatever the patches made of a replicated job, its merged template passes this check if and
      only if every claim of the patched job is defined by its Pod or by the TrainJob. */
  lemma PatchedTemplateIsAdmitted(patched: Job, inp: Inputs, smp: Smp)
    requires Strategic(smp) && FreshOverlay(patched, inp, smp).Some?
    ensures (forall d :: !Dangles([FreshOverlay(patched, inp, smp).value.app], d)) <==>
            AllDefined(patched, inp, InitContainers) && AllDefined(patched, inp, Containers)
  {
    ReportsNoneIffClosed(patched, inp, smp);
    PatchedTemplateIsClosed(patched, inp, smp);
    hide FreshOverlay, Dangles, AllDefined, Closed, Strategic;
  }
}
