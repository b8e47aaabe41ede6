/** The TrainJob controller over whole histories of suspensions, resumptions and reconciles. */
module TrainJobHistories {
  import opened Common
  import opened Conditions
  import opened TrainJobController

  datatype Event = Edit(suspend: Option<bool>) | Reconcile(c: Calls)

  function Step(s: State, e: Event): (r: State)
  {
    match e
    case Edit(suspend) => s.(spec := s.spec.(suspend := suspend))
    case Reconcile(c) => Reconciled(s, c).state
  }

  function After(s: State, es: seq<Event>): (r: State)
  {
    if es == [] then s else Step(After(s, es[..|es| - 1]), es[|es| - 1])
  }

  /** The status plugin may return anything, but it carries the Suspended condition over. */
  ghost predicate CarriesSuspended(s: State, c: Calls)
  {
    c.plugin.NewStatus? ==> Find(c.plugin.status.conditions, SUSPENDED) == Find(s.status.conditions, SUSPENDED)
  }

  ghost predicate IsRun(s: State, es: seq<Event>)
  {
    es == [] ||
    (IsRun(s, es[..|es| - 1]) &&
     (es[|es| - 1].Reconcile? ==> CarriesSuspended(After(s, es[..|es| - 1]), es[|es| - 1].c)))
  }

  // ---- what the controller saw ----

  /** One acting reconcile: its clock, whether the spec asked for suspension, and whether the
      status it computed is the stored one afterwards. */
  datatype Observation = Observation(wall: Time, suspended: bool, saved: bool)

  predicate Saved(s: State, c: Calls)
  {
    FinalStatus(s, c) == s.status || c.patch.Takes()
  }

  function Observe(s: State, e: Event): (r: seq<Observation>)
  {
    if e.Reconcile? && Acts(s, e.c) then [Observation(e.c.wall, s.spec.suspend.GetOr(false), Saved(s, e.c))] else []
  }

  function Observations(s: State, es: seq<Event>): (r: seq<Observation>)
  {
    if es == [] then []
    else Observations(s, es[..|es| - 1]) + Observe(After(s, es[..|es| - 1]), es[|es| - 1])
  }

  /** No saved reconcile saw a suspension. */
  ghost predicate NeverSuspended(obs: seq<Observation>)
  {
    forall k :: 0 <= k < |obs| && obs[k].saved ==> !obs[k].suspended
  }

  /** The last saved reconcile, at k, saw a suspension. */
  ghost predicate SuspendedAt(obs: seq<Observation>, k: int)
  {
    0 <= k < |obs| && obs[k].saved && obs[k].suspended && forall j :: k < j < |obs| ==> !obs[j].saved
  }

  /** The saved reconcile at i was the first to see the job resumed after the saved suspension
      at k, and no saved reconcile has seen a suspension since. */
  ghost predicate ResumedAt(obs: seq<Observation>, k: int, i: int)
  {
    && 0 <= k < i < |obs| && obs[k].saved && obs[k].suspended && obs[i].saved && !obs[i].suspended
    && (forall j :: k < j < i ==> !obs[j].saved)
    && (forall j :: i < j < |obs| && obs[j].saved ==> !obs[j].suspended)
  }

  /** The Suspended condition is a faithful record of the history. */
  ghost predicate Tells(obs: seq<Observation>, mark: Option<Condition>)
  {
    match mark
    case None => NeverSuspended(obs)
    case Some(c) =>
      match c.status
      case IsTrue => exists k :: SuspendedAt(obs, k)
      case IsFalse => exists k, i :: ResumedAt(obs, k, i) && c.lastTransition == WholeSecond(obs[i].wall)
      case IsUnknown => false
  }

  /** What one more saved observation does to the record. */
  lemma TellsSaved(obs: seq<Observation>, mark: Option<Condition>, o: Observation, mark': Option<Condition>)
    requires Tells(obs, mark) && o.saved
    requires o.suspended ==> mark'.Some? && mark'.value.status == IsTrue
    requires !o.suspended && mark.Some? && mark.value.status == IsTrue ==>
               mark'.Some? && mark'.value.status == IsFalse && mark'.value.lastTransition == WholeSecond(o.wall)
    requires !o.suspended && !(mark.Some? && mark.value.status == IsTrue) ==> mark' == mark
    ensures Tells(obs + [o], mark')
  {
    var obs' := obs + [o];
    if o.suspended {
      assert SuspendedAt(obs', |obs|);
    } else if mark.Some? && mark.value.status == IsTrue {
      var k :| SuspendedAt(obs, k);
      assert ResumedAt(obs', k, |obs|);
      assert obs'[|obs|] == o;
    } else if mark.Some? {
      var k, i :| ResumedAt(obs, k, i) && mark.value.lastTransition == WholeSecond(obs[i].wall);
      assert ResumedAt(obs', k, i) && obs'[i] == obs[i];
    }
  }

  lemma TellsUnsaved(obs: seq<Observation>, mark: Option<Condition>, o: Observation)
    requires Tells(obs, mark) && !o.saved
    ensures Tells(obs + [o], mark)
  {
    var obs' := obs + [o];
    if mark.Some? && mark.value.status == IsTrue {
      var k :| SuspendedAt(obs, k);
      assert SuspendedAt(obs', k);
    } else if mark.Some? {
      var k, i :| ResumedAt(obs, k, i) && mark.value.lastTransition == WholeSecond(obs[i].wall);
      assert ResumedAt(obs', k, i) && obs'[i] == obs[i];
    }
  }

  // ---- the Suspended condition through one reconcile ----

  lemma FailKeepsSuspended(cs: seq<Condition>, reason: string, message: string, now: Time)
    ensures Find(Fail(cs, reason, message, now), SUSPENDED) == Find(cs, SUSPENDED)
  {
    SetThenFind(cs, Condition(FAILED, IsTrue, reason, message, ZERO_TIME), now);
  }

  lemma PluginKeepsSuspended(s: State, c: Calls)
    requires CarriesSuspended(s, c)
    ensures Find(PluginStep(s.status, c.plugin, c.wall).conditions, SUSPENDED) == Find(s.status.conditions, SUSPENDED)
  {
    var mark := DeadlineMark(s.status.conditions);
    if mark.Some? && !c.plugin.StatusError? {
      FindGivesKind(s.status.conditions, FAILED);
      var next := if c.plugin.NewStatus? then c.plugin.status else s.status;
      SetThenFind(next.conditions, mark.value, c.wall);
    }
  }

  /** The Suspended condition the reconcile computes: true while the spec asks for it; false,
      stamped with this clock, when it was true and the spec no longer asks; else untouched. */
  lemma SuspendedComputed(s: State, c: Calls)
    requires CarriesSuspended(s, c)
    ensures var f, g := Find(s.status.conditions, SUSPENDED), Find(BeforeDeadline(s, c).conditions, SUSPENDED);
      && (s.spec.suspend.GetOr(false) ==> g.Some? && g.value.status == IsTrue && g.value.reason == "Suspended")
      && (!s.spec.suspend.GetOr(false) && f.Some? && f.value.status == IsTrue ==>
            g.Some? && g.value.status == IsFalse && g.value.reason == "Resumed" && g.value.lastTransition == c.wall)
      && (!s.spec.suspend.GetOr(false) && !(f.Some? && f.value.status == IsTrue) ==> g == f)
    ensures Find(FinalStatus(s, c).conditions, SUSPENDED) == Find(BeforeDeadline(s, c).conditions, SUSPENDED)
  {
    var st := if c.registered then PluginStep(s.status, c.plugin, c.wall)
              else s.status.(conditions := Fail(s.status.conditions, NOT_SUPPORTED, "unsupported runtime", c.wall));
    PluginKeepsSuspended(s, c);
    FailKeepsSuspended(s.status.conditions, NOT_SUPPORTED, "unsupported runtime", c.wall);
    FailKeepsSuspended(BeforeDeadline(s, c).conditions, DEADLINE_EXCEEDED, "TrainJob exceeded its active deadline", c.wall);
    hide PluginStep, Fail, Expired, Find, Set;
    SetThenFind(st.conditions, Condition(SUSPENDED, IsTrue, "Suspended", "TrainJob is suspended", ZERO_TIME), c.wall);
    SetThenFind(st.conditions, Condition(SUSPENDED, IsFalse, "Resumed", "TrainJob is resumed", ZERO_TIME), c.wall);
  }

  /** Stored transition times are whole seconds. */
  ghost predicate Whole(mark: Option<Condition>)
  {
    mark.Some? ==> mark.value.lastTransition % SECOND == 0
  }

  lemma WholeSecondIdempotent(t: Time)
    requires t % SECOND == 0
    ensures WholeSecond(t) == t
  { }

  lemma ReconcileTells(s: State, c: Calls, obs: seq<Observation>)
    requires Acts(s, c) && CarriesSuspended(s, c)
    requires Tells(obs, Find(s.status.conditions, SUSPENDED)) && Whole(Find(s.status.conditions, SUSPENDED))
    ensures var g := Find(Reconciled(s, c).state.status.conditions, SUSPENDED);
      Tells(obs + [Observation(c.wall, s.spec.suspend.GetOr(false), Saved(s, c))], g) && Whole(g)
  {
    var s' := Reconciled(s, c).state;
    var f, g := Find(s.status.conditions, SUSPENDED), Find(s'.status.conditions, SUSPENDED);
    var o := Observation(c.wall, s.spec.suspend.GetOr(false), Saved(s, c));
    SuspendedComputed(s, c);
    FindSerialised(FinalStatus(s, c).conditions, SUSPENDED);
    if f.Some? {
      WholeSecondIdempotent(f.value.lastTransition);
    }
    hide FinalStatus, BeforeDeadline, Tells, Find, WholeSecond, RequeueAfter, Attempts, ObjectsFail;
    if !Saved(s, c) {
      assert s'.status == s.status;
      TellsUnsaved(obs, f, o);
    } else {
      TellsSaved(obs, f, o, g);
    }
  }

  ghost predicate Fresh(s: State)
  {
    s.status.conditions == []
  }

  lemma {:induction false} HistoryIsTold(s: State, es: seq<Event>)
    requires Fresh(s) && IsRun(s, es)
    ensures var f := Find(After(s, es).status.conditions, SUSPENDED); Tells(Observations(s, es), f) && Whole(f)
  {
    if es != [] {
      var n := |es| - 1;
      var before, e := After(s, es[..n]), es[n];
      HistoryIsTold(s, es[..n]);
      hide Reconciled, Tells, Whole, Acts, Saved;
      if e.Reconcile? && Acts(before, e.c) {
        ReconcileTells(before, e.c, Observations(s, es[..n]));
      } else {
        Idle(before, e);
        assert Observations(s, es) == Observations(s, es[..n]) + [];
        assert Observations(s, es) == Observations(s, es[..n]);
      }
    }
  }

  lemma Idle(s: State, e: Event)
    requires !(e.Reconcile? && Acts(s, e.c))
    ensures Step(s, e).status == s.status
  { }

  // ---- the deadline over histories ----

  const MAX_SECONDS: int := 9_223_372_036

  /** deadlineSeconds fits a 64-bit count of nanoseconds. */
  predicate Fits(seconds: int)
  {
    -MAX_SECONDS <= seconds <= MAX_SECONDS
  }

  lemma WrapFits(seconds: int)
    requires Fits(seconds)
    ensures Wrap64(seconds * SECOND) == seconds * SECOND
  { }

  /** Past the deadline as the code computes it, and as it is meant. */
  predicate PastWrapped(start: Time, seconds: int, clock: Time)
  {
    clock > start + Wrap64(seconds * SECOND)
  }

  predicate Past(start: Time, seconds: int, clock: Time)
  {
    clock > start + seconds * SECOND
  }

  /** The 64-bit comparison agrees with the real one at every instant exactly when the
      deadline fits; the API admits larger values, which wrap around. */
  lemma DeadlineWrapsBeyondFit(seconds: int)
    ensures (forall start: Time, clock: Time :: PastWrapped(start, seconds, clock) == Past(start, seconds, clock)) <==> Fits(seconds)
  {
    if Fits(seconds) {
      WrapFits(seconds);
    } else {
      var d := Wrap64(seconds * SECOND);
      assert d != seconds * SECOND;
      var clock: Time := if d < seconds * SECOND then seconds * SECOND else d;
      assert PastWrapped(0, seconds, clock) != Past(0, seconds, clock);
    }
  }

  /** A deadline just past the limit wraps to a negative duration: the job expires at once. */
  lemma OverflowExpiresAtOnce(s: Spec, cs: seq<Condition>)
    requires s.deadlineSeconds == MAX_SECONDS + 1 && Watched(s, cs)
    ensures Expired(s, cs, StartTime(s, cs))
  {
    assert Wrap64(s.deadlineSeconds * SECOND) < 0;
  }

  /** The reconcile marks the job DeadlineExceeded. */
  predicate Marks(s: State, c: Calls)
  {
    Acts(s, c) && Expired(s.spec, BeforeDeadline(s, c).conditions, c.clock)
  }

  /** The instant the active period began, told by the history alone: creation if no
      suspension was ever recorded, the recorded resumption otherwise, and this very
      reconcile if it is the first to see the job resumed. */
  ghost predicate ActiveSince(created: Time, obs: seq<Observation>, wall: Time, t: Time)
  {
    || (NeverSuspended(obs) && t == created)
    || (exists k, i :: ResumedAt(obs, k, i) && t == WholeSecond(obs[i].wall))
    || (exists k :: SuspendedAt(obs, k) && t == wall)
  }

  lemma StartIsActiveSince(s: State, c: Calls, obs: seq<Observation>)
    requires CarriesSuspended(s, c) && Tells(obs, Find(s.status.conditions, SUSPENDED)) && !s.spec.suspend.GetOr(false)
    ensures ActiveSince(s.spec.created, obs, c.wall, StartTime(s.spec, BeforeDeadline(s, c).conditions))
  {
    SuspendedComputed(s, c);
    hide BeforeDeadline, Find;
    var f := Find(s.status.conditions, SUSPENDED);
    if f.Some? && f.value.status == IsFalse {
      var k, i :| ResumedAt(obs, k, i) && f.value.lastTransition == WholeSecond(obs[i].wall);
    } else if f.Some? {
      var k :| SuspendedAt(obs, k);
    }
  }

  /** The three readings of a history exclude each other, so the active period has one start. */
  lemma ActiveSinceIsUnique(created: Time, obs: seq<Observation>, wall: Time, t: Time, u: Time)
    requires ActiveSince(created, obs, wall, t) && ActiveSince(created, obs, wall, u)
    ensures t == u
  {
    if k, i :| ResumedAt(obs, k, i) && t == WholeSecond(obs[i].wall) {
      if k', i' :| ResumedAt(obs, k', i') && u == WholeSecond(obs[i'].wall) {
        ResumptionIsUnique(obs, k, i, k', i');
      }
    }
  }

  lemma ResumptionIsUnique(obs: seq<Observation>, k: int, i: int, k': int, i': int)
    requires ResumedAt(obs, k, i) && ResumedAt(obs, k', i')
    ensures i == i'
  { }

  /** Deadline exactness over suspend and resume histories. From a fresh TrainJob, after any
      run, a reconcile marks the job DeadlineExceeded if and only if the job is not finished, not
      even by the status just adopted, a deadline is set, the job is not suspended, and the clock is more than that many
      seconds past the start of the active period, which must not be the zero time. */
  lemma DeadlineIsExact(s: State, es: seq<Event>, c: Calls, start: Time)
    requires Fresh(s) && IsRun(s, es)
    requires var before := After(s, es);
      && Acts(before, c) && CarriesSuspended(before, c) && Fits(before.spec.deadlineSeconds)
      && ActiveSince(before.spec.created, Observations(s, es), c.wall, start)
    ensures var before := After(s, es);
      var cs := BeforeDeadline(before, c).conditions;
      Marks(before, c) <==>
        !Holds(cs, "Complete") && !Holds(cs, "Failed") &&
        before.spec.deadlineSeconds != 0 && !before.spec.suspend.GetOr(false) && start != ZERO_TIME &&
        c.clock > start + before.spec.deadlineSeconds * SECOND
  {
    var before, obs := After(s, es), Observations(s, es);
    HistoryIsTold(s, es);
    hide After, Observations, IsRun, ActiveSince, BeforeDeadline, Tells, StartTime, CarriesSuspended;
    WrapFits(before.spec.deadlineSeconds);
    if !before.spec.suspend.GetOr(false) {
      StartIsActiveSince(before, c, obs);
      ActiveSinceIsUnique(before.spec.created, obs, c.wall, start, StartTime(before.spec, BeforeDeadline(before, c).conditions));
    }
  }

  /** No recorded suspension falls inside the counted interval: at the resolution times are
      stored with, each came no later than the start. */
  lemma NoSuspensionCounted(created: Time, obs: seq<Observation>, wall: Time, start: Time, k: int)
    requires ActiveSince(created, obs, wall, start)
    requires forall i, j :: 0 <= i <= j < |obs| ==> obs[i].wall <= obs[j].wall
    requires forall j :: 0 <= j < |obs| ==> obs[j].wall <= wall
    requires 0 <= k < |obs| && obs[k].saved && obs[k].suspended
    ensures WholeSecond(obs[k].wall) <= start
  {
    if k', i :| ResumedAt(obs, k', i) && start == WholeSecond(obs[i].wall) {
      assert k <= k' < i;
      WholeSecondMonotone(obs[k].wall, obs[i].wall);
    }
  }

  lemma WholeSecondMonotone(t: Time, u: Time)
    requires t <= u
    ensures WholeSecond(t) <= WholeSecond(u)
  { }

  // ---- a suspension nobody recorded ----

  lemma {:induction false} AfterConcat(s: State, pre: seq<Event>, es: seq<Event>)
    ensures After(s, pre + es) == After(After(s, pre), es)
  {
    if es == [] {
      assert pre + es == pre;
    } else {
      var n := |es| - 1;
      AfterConcat(s, pre, es[..n]);
      assert (pre + es)[..|pre| + n] == pre + es[..n];
      hide Step;
    }
  }

  /** A stretch in which no reconcile is saved leaves the status alone. */
  lemma {:induction false} UnsavedKeepsStatus(s: State, es: seq<Event>)
    requires forall o :: o in Observations(s, es) ==> !o.saved
    ensures After(s, es).status == s.status
    ensures After(s, es).spec == s.spec.(suspend := After(s, es).spec.suspend)
  {
    if es != [] {
      var n := |es| - 1;
      var before := After(s, es[..n]);
      UnsavedKeepsStatus(s, es[..n]);
      if es[n].Reconcile? && Acts(before, es[n].c) {
        var o := Observe(before, es[n])[0];
        assert o in Observations(s, es);
      }
      hide FinalStatus, RequeueAfter, Attempts, ObjectsFail, BeforeDeadline;
    }
  }

  /** A suspension that begins and ends between two saved reconciles leaves no trace: the
      condition and the start of the active period are those of before, so the time spent
      suspended counts as active. */
  lemma UnseenSuspensionCounts(s: State, pre: seq<Event>, mid: seq<Event>, c: Calls)
    requires var s0 := After(s, pre);
      !s0.spec.suspend.GetOr(false) && CarriesSuspended(s0, c) &&
      forall o :: o in Observations(Step(s0, Edit(Some(true))), mid) ==> !o.saved
    ensures var s0, s1 := After(s, pre), After(s, pre + [Edit(Some(true))] + mid + [Edit(Some(false))]);
      && s1.status == s0.status
      && StartTime(s1.spec, BeforeDeadline(s1, c).conditions) == StartTime(s0.spec, BeforeDeadline(s0, c).conditions)
      && Marks(s1, c) == Marks(s0, c)
  {
    var s0, on, off := After(s, pre), Edit(Some(true)), Edit(Some(false));
    AfterConcat(s, pre, [on]);
    AfterConcat(s, pre + [on], mid);
    assert (pre + [on] + mid + [off])[..|pre| + 1 + |mid|] == pre + [on] + mid;
    assert After(s0, [on]) == Step(s0, on) by { assert [on][..0] == []; }
    UnsavedKeepsStatus(Step(s0, on), mid);
    hide Observations, PluginStep, Fail, SuspendStep, Find;
  }

  /** A reconcile at the given second, with a runtime that reports no status of its own. */
  function PlainCalls(second: int, patch: ApiWrite): (r: Calls)
  {
    Calls(Found, true, 0, false, None, Some([]), NoStatus, second * SECOND, second * SECOND, patch)
  }

  /** A job created at second 10 and suspended from then on; a reconcile at second 11 sees the
      suspension, and its patch fares as given; then the job is resumed. */
  function ResumedJob(patch: ApiWrite): (r: State)
  {
    var s := State(Spec(None, 60, None, 10 * SECOND), Status([], 0), 0);
    After(s, [Edit(Some(true)), Reconcile(PlainCalls(11, patch)), Edit(Some(false))])
  }

  lemma ResumedJobIs(patch: ApiWrite)
    ensures ResumedJob(patch).spec == Spec(Some(false), 60, None, 10 * SECOND)
    ensures ResumedJob(patch).status.conditions ==
            if patch.Takes() then [Condition(SUSPENDED, IsTrue, "Suspended", "TrainJob is suspended", 11 * SECOND)] else []
  {
    var s := State(Spec(None, 60, None, 10 * SECOND), Status([], 0), 0);
    var on, seen, off := Edit(Some(true)), Reconcile(PlainCalls(11, patch)), Edit(Some(false));
    assert [on, seen, off][..2] == [on, seen] && [on, seen][..1] == [on] && [on][..0] == [];
    var s1 := Step(s, on);
    assert After(s, [on]) == s1;
    var c := PlainCalls(11, patch);
    var cond := Condition(SUSPENDED, IsTrue, "Suspended", "TrainJob is suspended", 11 * SECOND);
    assert BeforeDeadline(s1, c).conditions == [cond];
    assert FinalStatus(s1, c).conditions == [cond];
    assert Serialised([cond]) == [cond];
    assert After(s, [on, seen]) == Step(s1, seen);
  }

  /** The same job, reconciled at second 100 with a deadline of 60 seconds: it is marked exactly
      when the patch that recorded the suspension was lost, although it has just been resumed. */
  lemma LostSuspensionMarks(patch: ApiWrite)
    ensures Marks(ResumedJob(patch), PlainCalls(100, Accepted)) <==> !patch.Takes()
  {
    ResumedJobIs(patch);
    var s, c := ResumedJob(patch), PlainCalls(100, Accepted);
    hide ResumedJob;
    SuspendedComputed(s, c);
    WrapFits(60);
    if patch.Takes() {
      assert StartTime(s.spec, BeforeDeadline(s, c).conditions) == 100 * SECOND;
    } else {
      assert BeforeDeadline(s, c).conditions == [];
    }
  }

  // ---- a passed deadline is permanent ----

  predicate DeadlineFailed(st: Status)
  {
    var f := Find(st.conditions, FAILED);
    f.Some? && f.value.status == IsTrue && f.value.reason == DEADLINE_EXCEEDED
  }

  lemma PluginKeepsDeadline(st: Status, plugin: PluginStatus, now: Time)
    requires DeadlineFailed(st)
    ensures DeadlineFailed(PluginStep(st, plugin, now))
  {
    var mark := Find(st.conditions, FAILED).value;
    FindGivesKind(st.conditions, FAILED);
    var next := if plugin.NewStatus? then plugin.status else st;
    SetThenFind(next.conditions, mark, now);
  }

  lemma SuspendKeepsFailed(cs: seq<Condition>, suspended: bool, now: Time)
    ensures Find(SuspendStep(cs, suspended, now), FAILED) == Find(cs, FAILED)
  {
    hide Find, Set;
    SetThenFind(cs, Condition(SUSPENDED, IsTrue, "Suspended", "TrainJob is suspended", ZERO_TIME), now);
    SetThenFind(cs, Condition(SUSPENDED, IsFalse, "Resumed", "TrainJob is resumed", ZERO_TIME), now);
  }

  lemma DeadlineSerialised(st: Status)
    ensures DeadlineFailed(Serialise(st)) <==> DeadlineFailed(st)
  {
    FindSerialised(st.conditions, FAILED);
  }

  /** One reconcile of a TrainJob whose deadline has passed: with a registered runtime it
      stays so, whatever status or error the plugin returns, nothing is applied and nothing
      is scheduled. */
  lemma DeadlineStays(s: State, c: Calls)
    requires DeadlineFailed(s.status) && c.registered
    ensures DeadlineFailed(Reconciled(s, c).state.status)
    ensures Reconciled(s, c).state.applied == s.applied && Reconciled(s, c).requeueAfter == 0
  {
    PluginKeepsDeadline(s.status, c.plugin, c.wall);
    var st := PluginStep(s.status, c.plugin, c.wall);
    SuspendKeepsFailed(st.conditions, s.spec.suspend.GetOr(false), c.wall);
    hide PluginStep, SuspendStep, Find, StartTime, Serialise, External;
    assert DeadlineFailed(BeforeDeadline(s, c));
    assert FinalStatus(s, c) == BeforeDeadline(s, c);
    DeadlineSerialised(FinalStatus(s, c));
  }

  /** Over a run with the runtime registered throughout, a stored deadline failure is never
      lost and no object is applied again. */
  lemma {:induction false} DeadlineIsPermanent(s: State, es: seq<Event>)
    requires DeadlineFailed(s.status) && forall e :: e in es && e.Reconcile? ==> e.c.registered
    ensures DeadlineFailed(After(s, es).status) && After(s, es).applied == s.applied
  {
    if es != [] {
      var n := |es| - 1;
      DeadlineIsPermanent(s, es[..n]);
      assert es[n] in es;
      hide DeadlineFailed, Reconciled;
      if es[n].Reconcile? {
        DeadlineStays(After(s, es[..n]), es[n].c);
      }
    }
  }

  /** The registration is needed: a reconcile that finds the runtime unregistered and saves
      its status replaces the reason. */
  lemma DeadlineNeedsRegistration(s: State, c: Calls)
    requires DeadlineFailed(s.status) && Acts(s, c) && c.patch.Takes()
    ensures DeadlineFailed(Reconciled(s, c).state.status) <==> c.registered
  {
    if c.registered {
      DeadlineStays(s, c);
    } else {
      var cs := Fail(s.status.conditions, NOT_SUPPORTED, "unsupported runtime", c.wall);
      SetThenFind(s.status.conditions, Condition(FAILED, IsTrue, NOT_SUPPORTED, "unsupported runtime", ZERO_TIME), c.wall);
      SuspendKeepsFailed(cs, s.spec.suspend.GetOr(false), c.wall);
      assert NOT_SUPPORTED != DEADLINE_EXCEEDED by { assert NOT_SUPPORTED[0] == 'T' && DEADLINE_EXCEEDED[0] == 'D'; }
      hide SuspendStep, Find, StartTime, Serialise, External, Fail;
      assert !DeadlineFailed(BeforeDeadline(s, c)) && Finished(BeforeDeadline(s, c).conditions);
      assert FinalStatus(s, c) == BeforeDeadline(s, c);
      DeadlineSerialised(FinalStatus(s, c));
    }
  }

  // ---- the requeue chain ----

  /** A delay is scheduled exactly while the deadline is watched and not passed; it is
      positive and never reaches past the deadline except for the one second added when the
      reconcile lands exactly on it. */
  lemma RequeueIsPositive(s: State, c: Calls)
    requires Acts(s, c)
    ensures var cs, r := BeforeDeadline(s, c).conditions, Reconciled(s, c).requeueAfter;
      && r >= 0
      && (r > 0 <==> Watched(s.spec, cs) && !Marks(s, c))
      && (r > 0 ==> c.clock + r <= Deadline(s.spec, cs) || (r == SECOND && c.clock == Deadline(s.spec, cs)))
      && (r > 0 && Deadline(s.spec, cs) - c.clock < TWO_63 ==> c.clock + r >= Deadline(s.spec, cs))
      && (r > 0 && Deadline(s.spec, cs) - c.clock >= TWO_63 ==> r == TWO_63 - 1)
  {
    hide BeforeDeadline, Watched, StartTime;
  }

  /** Between two reconciles of an unsuspended job the start can only lose its fraction of a
      second, unless the patch that would record a resumption is lost. */
  lemma StartKept(s: State, c: Calls, c': Calls)
    requires Acts(s, c) && CarriesSuspended(s, c) && !s.spec.suspend.GetOr(false)
    requires Saved(s, c) || !Holds(s.status.conditions, SUSPENDED)
    requires CarriesSuspended(Reconciled(s, c).state, c')
    ensures var start := StartTime(s.spec, BeforeDeadline(s, c).conditions);
      var s' := Reconciled(s, c).state;
      && s'.spec == s.spec && !Holds(s'.status.conditions, SUSPENDED)
      && WholeSecond(start) <= StartTime(s'.spec, BeforeDeadline(s', c').conditions) <= start
  {
    var s' := Reconciled(s, c).state;
    SuspendedComputed(s, c);
    SuspendedComputed(s', c');
    FindSerialised(FinalStatus(s, c).conditions, SUSPENDED);
    hide BeforeDeadline, FinalStatus, Find, Attempts, RequeueAfter, ObjectsFail, CarriesSuspended, External;
  }

  /** The other half: when that patch is lost the resumption stays pending, and the start moves
      from this reconcile's clock to the next one's. */
  lemma StartMoves(s: State, c: Calls, c': Calls)
    requires Acts(s, c) && CarriesSuspended(s, c) && !s.spec.suspend.GetOr(false)
    requires !Saved(s, c) && Holds(s.status.conditions, SUSPENDED)
    requires CarriesSuspended(Reconciled(s, c).state, c')
    ensures var s' := Reconciled(s, c).state;
      && s'.spec == s.spec && Holds(s'.status.conditions, SUSPENDED)
      && StartTime(s.spec, BeforeDeadline(s, c).conditions) == c.wall
      && StartTime(s'.spec, BeforeDeadline(s', c').conditions) == c'.wall
  {
    SuspendedComputed(s, c);
    SuspendedComputed(Reconciled(s, c).state, c');
    hide BeforeDeadline, FinalStatus, Find, Attempts, RequeueAfter, ObjectsFail, CarriesSuspended, External;
  }

  /** As long as patches are lost while a resumption is pending, over any run, the active period
      starts at the very reconcile that looks. */
  lemma PendingResumption(s: State, es: seq<Event>, c: Calls)
    requires Holds(s.status.conditions, SUSPENDED) && forall o :: o in Observations(s, es) ==> !o.saved
    requires !After(s, es).spec.suspend.GetOr(false) && CarriesSuspended(After(s, es), c)
    ensures StartTime(s.spec, BeforeDeadline(After(s, es), c).conditions) == c.wall
  {
    UnsavedKeepsStatus(s, es);
    SuspendedComputed(After(s, es), c);
    hide BeforeDeadline, Find, After, Observations;
  }

  /** From a reconcile that scheduled a check, the reconcile at or after the due time marks the
      job, or else lands exactly on the deadline and the next one marks it. With exact timers
      the mark comes at most one second after the deadline. Patches may be lost, except one
      that would record a resumption. */
  lemma FailedWithinTwoRequeues(s0: State, c0: Calls, c1: Calls, c2: Calls)
    requires Acts(s0, c0) && CarriesSuspended(s0, c0) && Fits(s0.spec.deadlineSeconds)
    requires Saved(s0, c0) || !Holds(s0.status.conditions, SUSPENDED)
    requires var cs := BeforeDeadline(s0, c0).conditions;
      Watched(s0.spec, cs) && StartTime(s0.spec, cs) >= SECOND && c0.clock <= Deadline(s0.spec, cs) < c0.clock + TWO_63
    requires var s1 := Reconciled(s0, c0).state;
      c1.get == Found && CarriesSuspended(s1, c1) && !Finished(BeforeDeadline(s1, c1).conditions)
    requires c1.clock >= c0.clock + Reconciled(s0, c0).requeueAfter
    requires var s1 := Reconciled(s0, c0).state; var s2 := Reconciled(s1, c1).state;
      !Marks(s1, c1) ==> c2.get == Found && CarriesSuspended(s2, c2) && !Finished(BeforeDeadline(s2, c2).conditions) &&
                         c2.clock >= c1.clock + Reconciled(s1, c1).requeueAfter
    ensures var s1 := Reconciled(s0, c0).state; var s2 := Reconciled(s1, c1).state;
      var due := Deadline(s0.spec, BeforeDeadline(s0, c0).conditions);
      && (Marks(s1, c1) || (Marks(s2, c2) && c1.clock == due && Reconciled(s1, c1).requeueAfter == SECOND))
      && (c1.clock == c0.clock + Reconciled(s0, c0).requeueAfter ==>
            c1.clock <= due + SECOND &&
            (!Marks(s1, c1) && c2.clock == c1.clock + Reconciled(s1, c1).requeueAfter ==> c2.clock == due + SECOND))
  {
    var s1 := Reconciled(s0, c0).state;
    var s2 := Reconciled(s1, c1).state;
    RequeueIsPositive(s0, c0);
    StartKept(s0, c0, c1);
    RequeueIsPositive(s1, c1);
    WholeSecondMonotone(SECOND, StartTime(s0.spec, BeforeDeadline(s0, c0).conditions));
    if !Marks(s1, c1) {
      StartKept(s1, c1, c2);
      WholeSecondMonotone(SECOND, StartTime(s1.spec, BeforeDeadline(s1, c1).conditions));
    }
    hide BeforeDeadline, Reconciled, StartTime, CarriesSuspended, Saved, Finished, WholeSecond, Holds;
    assert WholeSecond(SECOND) == SECOND by { WholeSecondIdempotent(SECOND); }
  }

  /** What a mark leaves in the store once the patch goes through. */
  lemma MarkIsStored(s: State, c: Calls)
    requires Marks(s, c) && c.patch.Takes()
    ensures DeadlineFailed(Reconciled(s, c).state.status)
  {
    var cs := BeforeDeadline(s, c).conditions;
    SetThenFind(cs, Condition(FAILED, IsTrue, DEADLINE_EXCEEDED, "TrainJob exceeded its active deadline", ZERO_TIME), c.wall);
    assert DeadlineFailed(FinalStatus(s, c));
    DeadlineSerialised(FinalStatus(s, c));
  }
}
