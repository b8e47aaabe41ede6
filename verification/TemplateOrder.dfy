/** mergeRuntimePatches: overlaying the TrainJob's patches on the runtime template and
    restoring the template's order of replicated jobs. */
module TemplateOrder {
  import opened Common

  /** body stands for everything in a replicated job other than its name. */
  datatype ReplicatedJob = ReplicatedJob(name: string, body: int)

  /** A runtime patch; spec is None when the patch does not reach the JobSet spec. */
  datatype RuntimePatch = RuntimePatch(spec: Option<int>)

  /** Strategic merge of one patch into the list, or None when the library reports an error. */
  type Merge = (seq<ReplicatedJob>, int) -> Option<seq<ReplicatedJob>>

  function JobNames(jobs: seq<ReplicatedJob>): (r: seq<string>)
    ensures |r| == |jobs|
    ensures forall i :: 0 <= i < |jobs| ==> r[i] == jobs[i].name
  {
    seq(|jobs|, i requires 0 <= i < |jobs| => jobs[i].name)
  }

  /** Go's map read: 0 for a name the template does not have. */
  function Rank(order: map<string, int>, name: string): (r: int)
  {
    if name in order then order[name] else 0
  }

  // ---- sort.SliceStable ----

  function InsertLast(s: seq<ReplicatedJob>, x: ReplicatedJob, order: map<string, int>): (r: seq<ReplicatedJob>)
  {
    if s == [] || Rank(order, s[|s| - 1].name) <= Rank(order, x.name) then s + [x]
    else InsertLast(s[..|s| - 1], x, order) + [s[|s| - 1]]
  }

  function StableSort(s: seq<ReplicatedJob>, order: map<string, int>): (r: seq<ReplicatedJob>)
  {
    if s == [] then [] else InsertLast(StableSort(s[..|s| - 1], order), s[|s| - 1], order)
  }

  ghost predicate Sorted(s: seq<ReplicatedJob>, order: map<string, int>)
  {
    forall i, j :: 0 <= i < j < |s| ==> Rank(order, s[i].name) <= Rank(order, s[j].name)
  }

  /** The jobs of one rank, in order. */
  function OfRank(s: seq<ReplicatedJob>, order: map<string, int>, v: int): (r: seq<ReplicatedJob>)
  {
    if s == [] then []
    else if Rank(order, s[|s| - 1].name) == v then OfRank(s[..|s| - 1], order, v) + [s[|s| - 1]]
    else OfRank(s[..|s| - 1], order, v)
  }

  lemma {:induction false} InsertPermutes(s: seq<ReplicatedJob>, x: ReplicatedJob, order: map<string, int>)
    ensures multiset(InsertLast(s, x, order)) == multiset(s) + multiset{x}
  {
    hide Rank;
    if s != [] && Rank(order, s[|s| - 1].name) > Rank(order, x.name) {
      InsertPermutes(s[..|s| - 1], x, order);
      assert s == s[..|s| - 1] + [s[|s| - 1]];
    }
  }

  lemma {:induction false} SortPermutes(s: seq<ReplicatedJob>, order: map<string, int>)
    ensures multiset(StableSort(s, order)) == multiset(s)
  {
    hide InsertLast;
    if s != [] {
      var front, last := s[..|s| - 1], s[|s| - 1];
      SortPermutes(front, order);
      InsertPermutes(StableSort(front, order), last, order);
      assert s == front + [last];
      assert multiset(s) == multiset(front) + multiset{last};
    }
  }

  lemma AppendSorts(s: seq<ReplicatedJob>, x: ReplicatedJob, order: map<string, int>)
    requires Sorted(s, order) && forall y :: y in s ==> Rank(order, y.name) <= Rank(order, x.name)
    ensures Sorted(s + [x], order)
  { }

  lemma {:induction false} InsertMembers(s: seq<ReplicatedJob>, x: ReplicatedJob, order: map<string, int>)
    ensures forall y :: y in InsertLast(s, x, order) <==> y in s || y == x
  {
    hide Rank;
    if s != [] && Rank(order, s[|s| - 1].name) > Rank(order, x.name) {
      InsertMembers(s[..|s| - 1], x, order);
      assert s == s[..|s| - 1] + [s[|s| - 1]];
    }
  }

  lemma {:induction false} InsertSorts(s: seq<ReplicatedJob>, x: ReplicatedJob, order: map<string, int>)
    requires Sorted(s, order)
    ensures Sorted(InsertLast(s, x, order), order)
  {
    hide Rank;
    if s == [] {
    } else if Rank(order, s[|s| - 1].name) <= Rank(order, x.name) {
      AppendSorts(s, x, order);
    } else {
      var front, last := s[..|s| - 1], s[|s| - 1];
      InsertSorts(front, x, order);
      InsertMembers(front, x, order);
      AppendSorts(InsertLast(front, x, order), last, order);
    }
  }

  lemma {:induction false} SortSorts(s: seq<ReplicatedJob>, order: map<string, int>)
    ensures Sorted(StableSort(s, order), order)
  {
    if s != [] {
      SortSorts(s[..|s| - 1], order);
      InsertSorts(StableSort(s[..|s| - 1], order), s[|s| - 1], order);
    }
  }

  lemma OfRankSnoc(s: seq<ReplicatedJob>, x: ReplicatedJob, order: map<string, int>, v: int)
    ensures OfRank(s + [x], order, v) ==
            if Rank(order, x.name) == v then OfRank(s, order, v) + [x] else OfRank(s, order, v)
  {
    assert (s + [x])[..|s|] == s;
  }

  /** Two jobs of different rank can be swapped without any rank noticing. */
  lemma SwapKeepsRanks(s: seq<ReplicatedJob>, x: ReplicatedJob, y: ReplicatedJob, order: map<string, int>, v: int)
    requires Rank(order, x.name) != Rank(order, y.name)
    ensures OfRank(s + [x] + [y], order, v) == OfRank(s + [y] + [x], order, v)
  {
    hide OfRank, Rank;
    OfRankSnoc(s, x, order, v);
    OfRankSnoc(s, y, order, v);
    OfRankSnoc(s + [x], y, order, v);
    OfRankSnoc(s + [y], x, order, v);
  }

  lemma {:induction false} InsertIsStable(s: seq<ReplicatedJob>, x: ReplicatedJob, order: map<string, int>, v: int)
    ensures OfRank(InsertLast(s, x, order), order, v) == OfRank(s + [x], order, v)
  {
    hide OfRank;
    if s != [] && Rank(order, s[|s| - 1].name) > Rank(order, x.name) {
      var front, last := s[..|s| - 1], s[|s| - 1];
      assert InsertLast(s, x, order) == InsertLast(front, x, order) + [last];
      assert front + [last] == s;
      hide Rank, InsertLast;
      InsertIsStable(front, x, order, v);
      OfRankSnoc(InsertLast(front, x, order), last, order, v);
      OfRankSnoc(front + [x], last, order, v);
      SwapKeepsRanks(front, x, last, order, v);
    }
  }

  /** The sort is stable: jobs of equal rank keep their order. */
  lemma {:induction false} SortIsStable(s: seq<ReplicatedJob>, order: map<string, int>, v: int)
    ensures OfRank(StableSort(s, order), order, v) == OfRank(s, order, v)
  {
    if s != [] {
      var front, last := s[..|s| - 1], s[|s| - 1];
      SortIsStable(front, order, v);
      InsertIsStable(StableSort(front, order), last, order, v);
      OfRankSnoc(StableSort(front, order), last, order, v);
    }
  }

  // ---- the merge ----

  /** The position of each template name; the last one wins if a name repeats. */
  function Order(jobs: seq<ReplicatedJob>): (r: map<string, int>)
  {
    if jobs == [] then map[] else Order(jobs[..|jobs| - 1])[jobs[|jobs| - 1].name := |jobs| - 1]
  }

  function Overlaid(jobs: seq<ReplicatedJob>, patches: seq<RuntimePatch>, merge: Merge): (r: Option<seq<ReplicatedJob>>)
  {
    if patches == [] then Some(jobs)
    else
      var before := Overlaid(jobs, patches[..|patches| - 1], merge);
      var patch := patches[|patches| - 1];
      if before.None? || patch.spec.None? then before else merge(before.value, patch.spec.value)
  }

  lemma {:induction false} FailureLasts(jobs: seq<ReplicatedJob>, patches: seq<RuntimePatch>, merge: Merge, k: nat)
    requires k <= |patches| && Overlaid(jobs, patches[..k], merge).None?
    ensures Overlaid(jobs, patches, merge).None?
  {
    if k < |patches| {
      assert patches[..|patches| - 1][..k] == patches[..k];
      FailureLasts(jobs, patches[..|patches| - 1], merge, k);
    } else {
      assert patches[..k] == patches;
    }
  }

  /** The JobSet specs of the patches that have one, in order. */
  function SpecsOf(patches: seq<RuntimePatch>): (r: seq<int>)
  {
    if patches == [] then []
    else if patches[0].spec.Some? then [patches[0].spec.value] + SpecsOf(patches[1..])
    else SpecsOf(patches[1..])
  }

  /** Merging the specs one after the other, the first one first, until one fails. */
  function MergedInOrder(jobs: seq<ReplicatedJob>, specs: seq<int>, merge: Merge): (r: Option<seq<ReplicatedJob>>)
    decreases |specs|
  {
    if specs == [] then Some(jobs)
    else match merge(jobs, specs[0])
      case None => None
      case Some(next) => MergedInOrder(next, specs[1..], merge)
  }

  lemma {:induction false} SpecsSnoc(patches: seq<RuntimePatch>, p: RuntimePatch)
    ensures SpecsOf(patches + [p]) == SpecsOf(patches) + if p.spec.Some? then [p.spec.value] else []
  {
    if patches == [] {
      assert ([] + [p])[1..] == [];
    } else {
      assert (patches + [p])[1..] == patches[1..] + [p];
      SpecsSnoc(patches[1..], p);
    }
  }

  lemma {:induction false} MergedSnoc(jobs: seq<ReplicatedJob>, specs: seq<int>, p: int, merge: Merge)
    ensures var before := MergedInOrder(jobs, specs, merge);
      MergedInOrder(jobs, specs + [p], merge) == if before.None? then None else merge(before.value, p)
    decreases |specs|
  {
    if specs == [] {
      assert ([] + [p])[1..] == [];
      if merge(jobs, p).Some? {
        assert MergedInOrder(merge(jobs, p).value, [], merge) == merge(jobs, p);
      }
    } else {
      assert (specs + [p])[1..] == specs[1..] + [p];
      if merge(jobs, specs[0]).Some? {
        MergedSnoc(merge(jobs, specs[0]).value, specs[1..], p, merge);
      }
    }
  }

  /** The patches are merged in their order, those without a JobSet spec left out, and the first
      failing merge fails the whole. */
  lemma {:induction false} PatchesMergeInOrder(jobs: seq<ReplicatedJob>, patches: seq<RuntimePatch>, merge: Merge)
    ensures Overlaid(jobs, patches, merge) == MergedInOrder(jobs, SpecsOf(patches), merge)
  {
    if patches != [] {
      var front, last := patches[..|patches| - 1], patches[|patches| - 1];
      PatchesMergeInOrder(jobs, front, merge);
      assert patches == front + [last];
      SpecsSnoc(front, last);
      if last.spec.Some? {
        MergedSnoc(jobs, SpecsOf(front), last.spec.value, merge);
      } else {
        assert SpecsOf(patches) == SpecsOf(front);
      }
    }
  }

  method MergeRuntimePatches(jobs: seq<ReplicatedJob>, patches: seq<RuntimePatch>, merge: Merge)
    returns (r: Option<seq<ReplicatedJob>>)
    ensures r == match Overlaid(jobs, patches, merge) case None => None case Some(m) => Some(StableSort(m, Order(jobs)))
  {
    var order: map<string, int> := map[];
    for i := 0 to |jobs|
      invariant order == Order(jobs[..i])
    {
      assert jobs[..i + 1][..i] == jobs[..i];
      order := order[jobs[i].name := i];
    }
    assert jobs[..|jobs|] == jobs;
    var spec := jobs;
    for i := 0 to |patches|
      invariant Overlaid(jobs, patches[..i], merge) == Some(spec)
    {
      assert patches[..i + 1][..i] == patches[..i];
      if patches[i].spec.None? {
        continue;
      }
      var merged := merge(spec, patches[i].spec.value);
      if merged.None? {
        FailureLasts(jobs, patches, merge, i + 1);
        return None;
      }
      spec := merged.value;
    }
    assert patches[..|patches|] == patches;
    r := Some(StableSort(spec, order));
  }

  // ---- the template's order is restored ----

  /** The jobs whose names the template has, in order. */
  function OwnJobs(s: seq<ReplicatedJob>, order: map<string, int>): (r: seq<ReplicatedJob>)
  {
    if s == [] then []
    else if s[|s| - 1].name in order then OwnJobs(s[..|s| - 1], order) + [s[|s| - 1]]
    else OwnJobs(s[..|s| - 1], order)
  }

  /** How many jobs of the list have the name. */
  function Occurs(s: seq<ReplicatedJob>, n: string): (r: nat)
  {
    if s == [] then 0 else Occurs(s[..|s| - 1], n) + (if s[|s| - 1].name == n then 1 else 0)
  }

  ghost predicate KeepsNamesOf(merge: Merge, s: seq<ReplicatedJob>, p: int)
  {
    merge(s, p).Some? ==> forall n :: Occurs(s, n) > 0 ==> Occurs(merge(s, p).value, n) == Occurs(s, n)
  }

  /** A merge that drops no name of the list, repeats none and adds what it likes. */
  ghost predicate KeepsNames(merge: Merge)
  {
    forall s, p :: KeepsNamesOf(merge, s, p)
  }

  lemma OccursSnoc(s: seq<ReplicatedJob>, x: ReplicatedJob, n: string)
    ensures Occurs(s + [x], n) == Occurs(s, n) + (if x.name == n then 1 else 0)
  {
    assert (s + [x])[..|s|] == s;
  }

  lemma {:induction false} InsertOccurs(s: seq<ReplicatedJob>, x: ReplicatedJob, order: map<string, int>, n: string)
    ensures Occurs(InsertLast(s, x, order), n) == Occurs(s, n) + (if x.name == n then 1 else 0)
  {
    hide Rank;
    OccursSnoc(s, x, n);
    if s != [] && Rank(order, s[|s| - 1].name) > Rank(order, x.name) {
      InsertOccurs(s[..|s| - 1], x, order, n);
      OccursSnoc(InsertLast(s[..|s| - 1], x, order), s[|s| - 1], n);
    }
  }

  lemma {:induction false} SortOccurs(s: seq<ReplicatedJob>, order: map<string, int>, n: string)
    ensures Occurs(StableSort(s, order), n) == Occurs(s, n)
  {
    if s != [] {
      SortOccurs(s[..|s| - 1], order, n);
      InsertOccurs(StableSort(s[..|s| - 1], order), s[|s| - 1], order, n);
    }
  }

  lemma {:induction false} OccursMember(s: seq<ReplicatedJob>, i: nat)
    requires i < |s|
    ensures Occurs(s, s[i].name) >= 1
  {
    if i < |s| - 1 {
      OccursMember(s[..|s| - 1], i);
    }
  }

  lemma {:induction false} OccursTwice(s: seq<ReplicatedJob>, i: nat, j: nat)
    requires i < j < |s| && s[i].name == s[j].name
    ensures Occurs(s, s[i].name) >= 2
  {
    if j < |s| - 1 {
      OccursTwice(s[..|s| - 1], i, j);
    } else {
      OccursMember(s[..|s| - 1], i);
    }
  }

  lemma {:induction false} OccursFound(s: seq<ReplicatedJob>, n: string)
    requires Occurs(s, n) > 0
    ensures n in JobNames(s)
  {
    assert JobNames(s) == JobNames(s[..|s| - 1]) + [s[|s| - 1].name];
    if s[|s| - 1].name != n {
      OccursFound(s[..|s| - 1], n);
    }
  }

  lemma {:induction false} AbsentOccurs(s: seq<ReplicatedJob>, n: string)
    requires forall k :: 0 <= k < |s| ==> s[k].name != n
    ensures Occurs(s, n) == 0
  {
    if s != [] {
      AbsentOccurs(s[..|s| - 1], n);
    }
  }

  lemma {:induction false} OwnOccurs(s: seq<ReplicatedJob>, order: map<string, int>, n: string)
    ensures Occurs(OwnJobs(s, order), n) == if n in order then Occurs(s, n) else 0
  {
    if s != [] {
      var front, last := s[..|s| - 1], s[|s| - 1];
      var own := OwnJobs(front, order);
      OwnOccurs(front, order, n);
      assert OwnJobs(s, order) == if last.name in order then own + [last] else own;
      assert s == front + [last];
      hide OwnJobs, Occurs;
      OccursSnoc(own, last, n);
      OccursSnoc(front, last, n);
    }
  }

  lemma {:induction false} OwnMembers(s: seq<ReplicatedJob>, order: map<string, int>)
    ensures forall x :: x in OwnJobs(s, order) <==> x in s && x.name in order
  {
    if s != [] {
      OwnMembers(s[..|s| - 1], order);
      assert s == s[..|s| - 1] + [s[|s| - 1]];
    }
  }

  lemma {:induction false} OwnSorted(s: seq<ReplicatedJob>, order: map<string, int>)
    requires Sorted(s, order)
    ensures Sorted(OwnJobs(s, order), order)
  {
    if s != [] {
      var n := |s| - 1;
      OwnSorted(s[..n], order);
      OwnMembers(s[..n], order);
      var front := OwnJobs(s[..n], order);
      forall i | 0 <= i < |front| ensures Rank(order, front[i].name) <= Rank(order, s[n].name) {
        assert front[i] in s[..n];
        var k := IndexOf(s[..n], front[i]);
      }
    }
  }

  lemma {:induction false} DistinctSize(names: seq<string>)
    requires Distinct(names)
    ensures |set x | x in names| == |names|
  {
    if names != [] {
      var n := |names| - 1;
      DistinctSize(names[..n]);
      assert names == names[..n] + [names[n]];
      assert (set x | x in names) == (set x | x in names[..n]) + {names[n]};
    }
  }

  lemma {:induction false} OrderIsIndex(jobs: seq<ReplicatedJob>)
    requires Distinct(JobNames(jobs))
    ensures forall n :: n in Order(jobs) <==> n in JobNames(jobs)
    ensures forall i :: 0 <= i < |jobs| ==> jobs[i].name in Order(jobs) && Order(jobs)[jobs[i].name] == i
  {
    if jobs != [] {
      var n := |jobs| - 1;
      var front := jobs[..n];
      assert JobNames(jobs) == JobNames(front) + [jobs[n].name];
      assert Distinct(JobNames(front)) by {
        forall i, j | 0 <= i < j < |front| ensures JobNames(front)[i] != JobNames(front)[j] {
          assert JobNames(jobs)[i] != JobNames(jobs)[j];
        }
      }
      OrderIsIndex(front);
      forall i | 0 <= i < |jobs| ensures jobs[i].name in Order(jobs) && Order(jobs)[jobs[i].name] == i {
        if i < n {
          assert front[i] == jobs[i];
          assert JobNames(jobs)[i] != JobNames(jobs)[n];
        }
      }
    }
  }

  /** Keys that strictly increase inside 0..n and number n are 0, 1, ..., n - 1. */
  lemma {:induction false} KeysAreIndices(keys: seq<int>, n: nat)
    requires |keys| == n
    requires forall i, j :: 0 <= i < j < n ==> keys[i] < keys[j]
    requires forall i :: 0 <= i < n ==> 0 <= keys[i] < n
    ensures forall i :: 0 <= i < n ==> keys[i] == i
  {
    if n > 0 {
      AtLeastIndex(keys, n - 1);
      assert keys[n - 1] == n - 1;
      KeysAreIndices(keys[..n - 1], n - 1);
      forall i | 0 <= i < n ensures keys[i] == i {
        if i < n - 1 { assert keys[..n - 1][i] == keys[i]; }
      }
    }
  }

  lemma {:induction false} AtLeastIndex(keys: seq<int>, i: nat)
    requires i < |keys|
    requires forall i, j :: 0 <= i < j < |keys| ==> keys[i] < keys[j]
    requires forall i :: 0 <= i < |keys| ==> 0 <= keys[i]
    ensures keys[i] >= i
  {
    if i > 0 {
      AtLeastIndex(keys, i - 1);
    }
  }

  lemma OnceEachIsDistinct(own: seq<ReplicatedJob>)
    requires forall i :: 0 <= i < |own| ==> Occurs(own, own[i].name) == 1
    ensures Distinct(JobNames(own))
  {
    hide Occurs;
    forall i, j | 0 <= i < j < |own| ensures own[i].name != own[j].name {
      if own[i].name == own[j].name { OccursTwice(own, i, j); }
    }
  }

  lemma SameNamesSameSize(a: seq<string>, b: seq<string>)
    requires Distinct(a) && Distinct(b) && forall n :: n in a <==> n in b
    ensures |a| == |b|
  {
    DistinctSize(a);
    DistinctSize(b);
    assert (set x | x in a) == (set x | x in b);
  }

  /** A sorted list holding each template name exactly once, and nothing else, is the template. */
  lemma SortedOwnIsTemplate(jobs: seq<ReplicatedJob>, own: seq<ReplicatedJob>)
    requires Distinct(JobNames(jobs)) && Sorted(own, Order(jobs))
    requires forall i :: 0 <= i < |own| ==> own[i].name in Order(jobs)
    requires forall n :: n in Order(jobs) ==> Occurs(own, n) == 1
    ensures JobNames(own) == JobNames(jobs)
  {
    OrderIsIndex(jobs);
    hide Order, Sorted, Distinct, Occurs;
    OnceEachIsDistinct(own);
    forall n ensures n in JobNames(own) <==> n in JobNames(jobs) {
      if n in JobNames(jobs) { OccursFound(own, n); }
    }
    SameNamesSameSize(JobNames(own), JobNames(jobs));
    RanksGiveNames(jobs, own, Order(jobs));
  }

  lemma RanksGiveNames(jobs: seq<ReplicatedJob>, own: seq<ReplicatedJob>, order: map<string, int>)
    requires |own| == |jobs| && Sorted(own, order) && Distinct(JobNames(own))
    requires forall i :: 0 <= i < |own| ==> own[i].name in JobNames(jobs)
    requires forall i :: 0 <= i < |jobs| ==> jobs[i].name in order && order[jobs[i].name] == i
    ensures JobNames(own) == JobNames(jobs)
  {
    var keys := seq(|own|, i requires 0 <= i < |own| => Rank(order, own[i].name));
    forall i | 0 <= i < |own| ensures 0 <= keys[i] < |jobs| && jobs[keys[i]].name == own[i].name {
      var k := IndexOf(JobNames(jobs), own[i].name);
    }
    forall i, j | 0 <= i < j < |own| ensures keys[i] < keys[j] {
      assert JobNames(own)[i] != JobNames(own)[j];
    }
    KeysAreIndices(keys, |jobs|);
  }

  lemma {:induction false} OverlayKeepsNames(jobs: seq<ReplicatedJob>, patches: seq<RuntimePatch>, merge: Merge, n: string)
    requires KeepsNames(merge) && Overlaid(jobs, patches, merge).Some? && Occurs(jobs, n) > 0
    ensures Occurs(Overlaid(jobs, patches, merge).value, n) == Occurs(jobs, n)
  {
    if patches != [] {
      OverlayKeepsNames(jobs, patches[..|patches| - 1], merge, n);
      var before, patch := Overlaid(jobs, patches[..|patches| - 1], merge).value, patches[|patches| - 1];
      if patch.spec.Some? {
        assert KeepsNamesOf(merge, before, patch.spec.value);
      }
    }
  }

  /** Whatever sequence of patches is merged, and whatever names they add, the template's own
      jobs come out in the template's order. */
  lemma TemplateOrderIsRestored(jobs: seq<ReplicatedJob>, patches: seq<RuntimePatch>, merge: Merge)
    requires Distinct(JobNames(jobs)) && KeepsNames(merge) && Overlaid(jobs, patches, merge).Some?
    ensures JobNames(OwnJobs(StableSort(Overlaid(jobs, patches, merge).value, Order(jobs)), Order(jobs))) == JobNames(jobs)
  {
    var order, merged := Order(jobs), Overlaid(jobs, patches, merge).value;
    var sorted := StableSort(merged, order);
    var own := OwnJobs(sorted, order);
    SortSorts(merged, order);
    OwnSorted(sorted, order);
    OwnMembers(sorted, order);
    OrderIsIndex(jobs);
    hide Order, Sorted, OwnJobs, StableSort, Overlaid, KeepsNames, Occurs;
    forall n | n in order ensures Occurs(own, n) == 1 {
      var i := IndexOf(JobNames(jobs), n);
      OnceInTemplate(jobs, i);
      OverlayKeepsNames(jobs, patches, merge, n);
      SortOccurs(merged, order, n);
      OwnOccurs(sorted, order, n);
    }
    forall i | 0 <= i < |own| ensures own[i].name in order { assert own[i] in own; }
    SortedOwnIsTemplate(jobs, own);
  }

  lemma {:induction false} OnceInTemplate(jobs: seq<ReplicatedJob>, i: nat)
    requires Distinct(JobNames(jobs)) && i < |jobs|
    ensures Occurs(jobs, jobs[i].name) == 1
  {
    var n := |jobs| - 1;
    var front := jobs[..n];
    assert Distinct(JobNames(front)) by {
      forall a, b | 0 <= a < b < |front| ensures front[a].name != front[b].name {
        assert JobNames(jobs)[a] != JobNames(jobs)[b];
      }
    }
    if i < n {
      assert JobNames(jobs)[i] != JobNames(jobs)[n];
      OnceInTemplate(front, i);
    } else {
      forall k | 0 <= k < n ensures front[k].name != jobs[n].name {
        assert JobNames(jobs)[k] != JobNames(jobs)[n];
      }
      AbsentOccurs(front, jobs[n].name);
    }
  }

  /** When the patches add no name, the whole list of names is the template's. */
  lemma OrderWithoutAdditions(jobs: seq<ReplicatedJob>, patches: seq<RuntimePatch>, merge: Merge)
    requires Distinct(JobNames(jobs)) && KeepsNames(merge) && Overlaid(jobs, patches, merge).Some?
    requires forall n :: n in JobNames(Overlaid(jobs, patches, merge).value) ==> n in JobNames(jobs)
    ensures JobNames(StableSort(Overlaid(jobs, patches, merge).value, Order(jobs))) == JobNames(jobs)
  {
    var order, merged := Order(jobs), Overlaid(jobs, patches, merge).value;
    TemplateOrderIsRestored(jobs, patches, merge);
    OrderIsIndex(jobs);
    SortPermutes(merged, order);
    hide Order, Overlaid, KeepsNames, StableSort;
    var sorted := StableSort(merged, order);
    forall i | 0 <= i < |sorted| ensures sorted[i].name in order {
      assert sorted[i] in multiset(sorted);
      assert sorted[i] in merged;
      var k := IndexOf(merged, sorted[i]);
      assert JobNames(merged)[k] in JobNames(merged);
    }
    AllOwn(sorted, order);
  }

  lemma {:induction false} AllOwn(s: seq<ReplicatedJob>, order: map<string, int>)
    requires forall i :: 0 <= i < |s| ==> s[i].name in order
    ensures OwnJobs(s, order) == s
  {
    if s != [] {
      AllOwn(s[..|s| - 1], order);
    }
  }

  /** A name the patches add reads as rank 0, so it lands ahead of every template job but the
      first. */
  lemma AddedJobsGoFirst(merged: seq<ReplicatedJob>, order: map<string, int>, i: nat, j: nat)
    requires var s := StableSort(merged, order);
      i < |s| && j < |s| && s[i].name !in order && s[j].name in order && order[s[j].name] > 0
    ensures i < j
  {
    SortSorts(merged, order);
  }
}
