/** The mutating TrainJob webhook: how the Time of a runtime patch comes about over the
    history of admitted writes to one TrainJob. */
module PatchTimes {
  import opened Common
  import opened Conditions

  /** content stands for every field of the patch but manager and time. */
  datatype Patch = Patch(manager: string, content: string, time: Option<Time>)

  ghost predicate UniqueManagers(ps: seq<Patch>)
  {
    forall i, j :: 0 <= i < j < |ps| ==> ps[i].manager != ps[j].manager
  }

  /** The manager's patch; the last one if it has several. */
  function PatchOf(ps: seq<Patch>, manager: string): (r: Option<Patch>)
    ensures r.None? <==> forall i :: 0 <= i < |ps| ==> ps[i].manager != manager
    ensures r.Some? ==> r.value in ps && r.value.manager == manager
  {
    if ps == [] then None
    else if ps[|ps| - 1].manager == manager then Some(ps[|ps| - 1])
    else PatchOf(ps[..|ps| - 1], manager)
  }

  lemma {:induction false} PatchOfUnique(ps: seq<Patch>, i: nat)
    requires UniqueManagers(ps) && i < |ps|
    ensures PatchOf(ps, ps[i].manager) == Some(ps[i])
  { }

  // ---- one admission ----

  /** What the webhook makes of one submitted patch, given the patches of the stored object
      (None on create). */
  function Defaulted(prior: Option<seq<Patch>>, p: Patch, now: Time): (r: Patch)
  {
    var was := if prior.Some? then PatchOf(prior.value, p.manager) else None;
    p.(time := if was.Some? then (if was.value.content == p.content then was.value.time else Some(now))
               else if p.time.Some? then p.time else Some(now))
  }

  function DefaultedAll(prior: Option<seq<Patch>>, ps: seq<Patch>, now: Time): (r: seq<Patch>)
    ensures |r| == |ps|
    ensures forall i :: 0 <= i < |ps| ==> r[i] == Defaulted(prior, ps[i], now)
  {
    seq(|ps|, i requires 0 <= i < |ps| => Defaulted(prior, ps[i], now))
  }

  /** The TrainJob under admission. */
  class TrainJob {
    var patches: seq<Patch>

    constructor (patches: seq<Patch>)
      ensures this.patches == patches
    {
      this.patches := patches;
    }

    /** TrainJobDefaulter.Default. prior is None on create. */
    method Default(prior: Option<seq<Patch>>, now: Time)
      modifies this
      ensures patches == DefaultedAll(prior, old(patches), now)
    {
      ghost var given := patches;
      if prior.None? {
        for i := 0 to |patches|
          invariant |patches| == |given| && patches[i..] == given[i..]
          invariant forall k :: 0 <= k < i ==> patches[k] == Defaulted(prior, given[k], now)
        {
          assert patches[i] == patches[i..][0] == given[i];
          if patches[i].time.None? {
            patches := patches[i := patches[i].(time := Some(now))];
          }
        }
        return;
      }
      var byManager := ByManager(prior.value);
      for i := 0 to |patches|
        invariant |patches| == |given| && patches[i..] == given[i..]
        invariant forall k :: 0 <= k < i ==> patches[k] == Defaulted(prior, given[k], now)
      {
        var patch := patches[i];
        assert patch == patches[i..][0] == given[i];
        if patch.manager in byManager {
          var was := byManager[patch.manager];
          if was.(time := None) == patch.(time := None) {
            patch := patch.(time := was.time);
          } else {
            patch := patch.(time := Some(now));
          }
        } else if patch.time.None? {
          patch := patch.(time := Some(now));
        }
        patches := patches[i := patch];
      }
    }
  }

  /** The map keyed by manager; a later patch overwrites an earlier one. */
  method ByManager(ps: seq<Patch>) returns (m: map<string, Patch>)
    ensures forall k :: k in m <==> PatchOf(ps, k).Some?
    ensures forall k :: k in m ==> Some(m[k]) == PatchOf(ps, k)
  {
    m := map[];
    for i := 0 to |ps|
      invariant forall k :: k in m <==> PatchOf(ps[..i], k).Some?
      invariant forall k :: k in m ==> Some(m[k]) == PatchOf(ps[..i], k)
    {
      assert ps[..i + 1][..i] == ps[..i];
      m := m[ps[i].manager := ps[i]];
    }
    assert ps[..|ps|] == ps;
  }

  // ---- histories ----

  /** An admitted write: the patches submitted and the clock at admission. The first write of
      a history creates the object. */
  datatype Write = Write(patches: seq<Patch>, now: Time)

  /** Stored objects keep whole seconds. */
  function Stored(p: Patch): (r: Patch)
  {
    p.(time := if p.time.Some? then Some(WholeSecond(p.time.value)) else None)
  }

  function StoredAll(ps: seq<Patch>): (r: seq<Patch>)
    ensures |r| == |ps|
    ensures forall i :: 0 <= i < |ps| ==> r[i] == Stored(ps[i])
  {
    seq(|ps|, i requires 0 <= i < |ps| => Stored(ps[i]))
  }

  function Next(prior: Option<seq<Patch>>, w: Write): (r: seq<Patch>)
  {
    StoredAll(DefaultedAll(prior, w.patches, w.now))
  }

  /** The stored object after the history; None before the first write. */
  function After(ws: seq<Write>): (r: Option<seq<Patch>>)
  {
    if ws == [] then None else Some(Next(After(ws[..|ws| - 1]), ws[|ws| - 1]))
  }

  /** What the list's map key guarantees of every write the API server admits. */
  ghost predicate Admissible(ws: seq<Write>)
  {
    forall k :: 0 <= k < |ws| ==> UniqueManagers(ws[k].patches)
  }

  ghost predicate Present(w: Write, manager: string)
  {
    PatchOf(w.patches, manager).Some?
  }

  ghost function ContentOf(w: Write, manager: string): (r: Option<string>)
  {
    var p := PatchOf(w.patches, manager);
    if p.Some? then Some(p.value.content) else None
  }

  /** Everything but the time is stored as submitted. */
  lemma NextPatch(prior: Option<seq<Patch>>, w: Write, manager: string)
    requires UniqueManagers(w.patches)
    ensures PatchOf(Next(prior, w), manager) ==
            match PatchOf(w.patches, manager) case None => None case Some(p) => Some(Stored(Defaulted(prior, p, w.now)))
  {
    hide Defaulted, Stored;
    var out, p := Next(prior, w), PatchOf(w.patches, manager);
    NextKeepsManagers(prior, w);
    if p.Some? {
      var i := IndexOf(w.patches, p.value);
      assert out[i] == Stored(Defaulted(prior, w.patches[i], w.now));
      PatchOfUnique(out, i);
    }
    hide PatchOf;
  }

  lemma NextKeepsManagers(prior: Option<seq<Patch>>, w: Write)
    ensures |Next(prior, w)| == |w.patches|
    ensures forall i :: 0 <= i < |w.patches| ==> Next(prior, w)[i].manager == w.patches[i].manager
    ensures UniqueManagers(w.patches) ==> UniqueManagers(Next(prior, w))
  { }

  /** Every stored patch has a Time, in whole seconds. */
  lemma {:induction false} EveryPatchHasATime(ws: seq<Write>)
    requires ws != []
    ensures forall i :: 0 <= i < |After(ws).value| ==> After(ws).value[i].time.Some? && After(ws).value[i].time.value % SECOND == 0
  {
    var front := ws[..|ws| - 1];
    if front != [] {
      EveryPatchHasATime(front);
    }
    var out := After(ws).value;
    forall i | 0 <= i < |out| ensures out[i].time.Some? && out[i].time.value % SECOND == 0 {
      var p := ws[|ws| - 1].patches[i];
      assert out[i] == Stored(Defaulted(After(front), p, ws[|ws| - 1].now));
      if After(front).Some? && PatchOf(After(front).value, p.manager).Some? {
        var j := IndexOf(After(front).value, PatchOf(After(front).value, p.manager).value);
      }
    }
  }

  /** The write the manager's current content goes back to: it has been there unchanged ever
      since, and before that write it was different or absent. */
  ghost predicate IsOrigin(ws: seq<Write>, manager: string, c: nat)
  {
    && c < |ws| && Present(ws[c], manager)
    && (forall k :: c <= k < |ws| ==> ContentOf(ws[k], manager) == ContentOf(ws[c], manager))
    && (c > 0 ==> ContentOf(ws[c - 1], manager) != ContentOf(ws[c], manager))
  }

  /** The clock of a write that changed the content; for a first admission, the Time the client
      gave, or the clock if it gave none. */
  ghost function OriginTime(ws: seq<Write>, manager: string, c: nat): (r: Time)
    requires c < |ws| && Present(ws[c], manager)
  {
    var given := PatchOf(ws[c].patches, manager).value.time;
    if c > 0 && Present(ws[c - 1], manager) then ws[c].now
    else given.GetOr(ws[c].now)
  }

  lemma AfterPatch(ws: seq<Write>, manager: string)
    requires Admissible(ws) && ws != []
    ensures var p, front := PatchOf(ws[|ws| - 1].patches, manager), After(ws[..|ws| - 1]);
      PatchOf(After(ws).value, manager) ==
      if p.None? then None else Some(Stored(Defaulted(front, p.value, ws[|ws| - 1].now)))
  {
    NextPatch(After(ws[..|ws| - 1]), ws[|ws| - 1], manager);
  }

  lemma AfterContent(ws: seq<Write>, manager: string)
    requires Admissible(ws) && ws != []
    ensures var p := PatchOf(After(ws).value, manager);
      (if p.Some? then Some(p.value.content) else None) == ContentOf(ws[|ws| - 1], manager)
  { }

  /** A write that brings new content gets the origin's time. */
  lemma OriginDefaults(ws: seq<Write>, manager: string)
    requires ws != [] && Admissible(ws) && IsOrigin(ws, manager, |ws| - 1)
    ensures var n := |ws| - 1;
      var p := PatchOf(ws[n].patches, manager).value;
      Defaulted(After(ws[..n]), p, ws[n].now) == p.(time := Some(OriginTime(ws, manager, n)))
  {
    var n := |ws| - 1;
    assert After(ws[..n]).Some? <==> n > 0;
    if n > 0 {
      AfterContent(ws[..n], manager);
      assert ws[..n][n - 1] == ws[n - 1];
    }
    hide PatchOf, After, UniqueManagers;
  }

  lemma OriginStores(ws: seq<Write>, manager: string)
    requires ws != [] && Admissible(ws) && IsOrigin(ws, manager, |ws| - 1)
    ensures PatchOf(After(ws).value, manager) ==
            Some(Patch(manager, ContentOf(ws[|ws| - 1], manager).value, Some(WholeSecond(OriginTime(ws, manager, |ws| - 1)))))
  {
    OriginDefaults(ws, manager);
    AfterPatch(ws, manager);
    hide PatchOf, After, Defaulted, OriginTime, WholeSecond, UniqueManagers;
  }

  /** A write that repeats the stored content. */
  lemma RepeatKeeps(ws: seq<Write>, manager: string, stored: Patch)
    requires |ws| > 1 && Admissible(ws) && stored.time.Some? && stored.time.value % SECOND == 0
    requires PatchOf(After(ws[..|ws| - 1]).value, manager) == Some(stored) && ContentOf(ws[|ws| - 1], manager) == Some(stored.content)
    ensures PatchOf(After(ws).value, manager) == Some(stored)
  { }

  /** The stored Time is the origin's, in whole seconds, whatever Time later writes sent. */
  lemma {:induction false} TimeIsTheOriginTime(ws: seq<Write>, manager: string, c: nat)
    requires Admissible(ws) && IsOrigin(ws, manager, c)
    ensures PatchOf(After(ws).value, manager) ==
            Some(Patch(manager, ContentOf(ws[c], manager).value, Some(WholeSecond(OriginTime(ws, manager, c)))))
  {
    var n := |ws| - 1;
    assert ContentOf(ws[n], manager) == ContentOf(ws[c], manager);
    hide ContentOf, After, PatchOf;
    if c < n {
      var front := ws[..n];
      assert forall k :: 0 <= k < n ==> front[k] == ws[k];
      assert IsOrigin(front, manager, c) && OriginTime(front, manager, c) == OriginTime(ws, manager, c);
      TimeIsTheOriginTime(front, manager, c);
      RepeatKeeps(ws, manager, PatchOf(After(front).value, manager).value);
    } else {
      OriginStores(ws, manager);
    }
  }

  lemma SameContentSamePresence(a: Write, b: Write, manager: string)
    requires ContentOf(a, manager) == ContentOf(b, manager)
    ensures Present(a, manager) == Present(b, manager)
  { }

  /** Every manager of the last write has exactly one origin, so the law above always applies. */
  lemma {:induction false} OriginExists(ws: seq<Write>, manager: string) returns (c: nat)
    requires ws != [] && Present(ws[|ws| - 1], manager)
    ensures IsOrigin(ws, manager, c) && forall d: nat :: IsOrigin(ws, manager, d) ==> d == c
  {
    hide ContentOf, Present;
    var n := |ws| - 1;
    if n > 0 && ContentOf(ws[n - 1], manager) == ContentOf(ws[n], manager) {
      SameContentSamePresence(ws[n - 1], ws[n], manager);
      c := OriginExists(ws[..n], manager);
      assert forall k :: 0 <= k < n ==> ws[..n][k] == ws[k];
    } else {
      c := n;
    }
  }

  // ---- client times, resubmission ----

  /** The same writes, except that patches of managers already present may carry any Time. */
  ghost predicate SameButLaterTimes(ws: seq<Write>, vs: seq<Write>)
  {
    |ws| == |vs| && forall k :: 0 <= k < |ws| ==> SameButTimes(ws, vs, k)
  }

  ghost predicate SameButTimes(ws: seq<Write>, vs: seq<Write>, k: nat)
    requires k < |ws| == |vs|
  {
    && ws[k].now == vs[k].now && |ws[k].patches| == |vs[k].patches|
    && forall i :: 0 <= i < |ws[k].patches| ==>
         var p, q := ws[k].patches[i], vs[k].patches[i];
         p.manager == q.manager && p.content == q.content &&
         (k == 0 || !Present(ws[k - 1], p.manager) ==> p.time == q.time)
  }

  /** A Time sent for a manager that is already stored has no effect. */
  lemma {:induction false} ClientTimesAreIgnored(ws: seq<Write>, vs: seq<Write>)
    requires Admissible(ws) && SameButLaterTimes(ws, vs)
    ensures After(ws) == After(vs)
  {
    if ws != [] {
      var n := |ws| - 1;
      forall k | 0 <= k < n ensures SameButTimes(ws[..n], vs[..n], k) {
        assert SameButTimes(ws, vs, k);
      }
      ClientTimesAreIgnored(ws[..n], vs[..n]);
      assert SameButTimes(ws, vs, n);
      var prior := After(ws[..n]);
      forall i | 0 <= i < |ws[n].patches|
        ensures Defaulted(prior, ws[n].patches[i], ws[n].now) == Defaulted(prior, vs[n].patches[i], vs[n].now)
      {
        if n > 0 {
          AfterPatch(ws[..n], ws[n].patches[i].manager);
          hide PatchOf, After;
        }
      }
      assert DefaultedAll(prior, ws[n].patches, ws[n].now) == DefaultedAll(prior, vs[n].patches, vs[n].now);
    }
  }

  /** Resubmitting the stored object, at any time, is a no-op. */
  lemma ResubmitIsNoOp(ws: seq<Write>, now: Time)
    requires Admissible(ws) && ws != []
    ensures After(ws + [Write(After(ws).value, now)]) == After(ws)
  {
    var out := After(ws).value;
    assert (ws + [Write(out, now)])[..|ws|] == ws;
    EveryPatchHasATime(ws);
    StoredUnique(ws);
    forall i | 0 <= i < |out| ensures Stored(Defaulted(Some(out), out[i], now)) == out[i] {
      PatchOfUnique(out, i);
    }
    assert Next(Some(out), Write(out, now)) == out;
  }

  lemma StoredUnique(ws: seq<Write>)
    requires Admissible(ws) && ws != []
    ensures UniqueManagers(After(ws).value)
  { }

  /** Without unique managers resubmission does change the object: of two patches of one
      manager with different contents, the first gets a new Time. */
  lemma DuplicatesDoNotResubmit(p: Patch, q: Patch, now: Time)
    requires p.manager == q.manager && p.content != q.content && p.time.Some?
    requires WholeSecond(now) != p.time.value
    ensures Next(Some([p, q]), Write([p, q], now)) != [p, q]
  {
    var out := Next(Some([p, q]), Write([p, q], now));
    assert PatchOf([p, q], p.manager) == Some(q);
    assert out[0] == Stored(Defaulted(Some([p, q]), p, now));
  }
}
