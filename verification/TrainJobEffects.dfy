/** What one reconcile of a TrainJob stores and sends: the runtime's status, the objects, and when
    it reports an error. */
module TrainJobEffects {
  import opened Common
  import opened Conditions
  import opened TrainJobController
  import opened TrainJobHistories

  // ---- whose TrainJobs are touched ----

  /** A TrainJob that names another controller is left alone; any other that is found is acted on. */
  lemma ManagedByDecides(s: State, c: Calls)
    ensures s.spec.managedBy.Some? && s.spec.managedBy.value != "trainer.kubeflow.org/trainjob-controller" ==>
            Reconciled(s, c) == Outcome(s, 0, c.get == FetchError)
    ensures c.get != Found ==> Reconciled(s, c) == Outcome(s, 0, c.get == FetchError)
    ensures c.get == Found && s.spec.managedBy.GetOr("trainer.kubeflow.org/trainjob-controller") == "trainer.kubeflow.org/trainjob-controller"
            ==> Acts(s, c)
  {
    hide FinalStatus, RequeueAfter, BeforeDeadline, Attempts, ObjectsFail;
  }

  // ---- the runtime's status ----

  /** The stored Failed entry has the deadline's reason. */
  predicate KeepsDeadline(st: Status)
  {
    var f := Find(st.conditions, "Failed");
    f.Some? && f.value.reason == "DeadlineExceeded"
  }

  /** A status the plugin returns is the status the step leaves, unless a deadline failure is
      stored; then all of it but Failed is, and Failed stays what it was. */
  lemma PluginIsAdopted(st: Status, plugin: PluginStatus, now: Time)
    requires plugin.NewStatus?
    ensures var next := PluginStep(st, plugin, now);
      && (!KeepsDeadline(st) ==> next == plugin.status)
      && next.rest == plugin.status.rest
      && (KeepsDeadline(st) ==>
            var f, g := Find(st.conditions, "Failed").value, Find(next.conditions, "Failed");
            g.Some? && g.value.status == f.status && g.value.reason == f.reason && g.value.message == f.message)
      && forall k :: k != "Failed" ==> Find(next.conditions, k) == Find(plugin.status.conditions, k)
  {
    if KeepsDeadline(st) {
      FindGivesKind(st.conditions, FAILED);
      SetThenFind(plugin.status.conditions, Find(st.conditions, FAILED).value, now);
      WrittenCondition(plugin.status.conditions, Find(st.conditions, FAILED).value, now);
    }
  }

  /** Without a status from the plugin nothing but Failed is written, and that with itself. */
  lemma PluginSilent(st: Status, plugin: PluginStatus, now: Time)
    requires !plugin.NewStatus?
    ensures var next := PluginStep(st, plugin, now);
      && next.rest == st.rest && (!KeepsDeadline(st) ==> next == st)
      && forall k :: k != "Failed" ==> Find(next.conditions, k) == Find(st.conditions, k)
  {
    if KeepsDeadline(st) {
      FindGivesKind(st.conditions, FAILED);
      SetThenFind(st.conditions, Find(st.conditions, FAILED).value, now);
    }
  }

  /** The same entry up to the fraction of a second of its transition time. */
  predicate SameEntry(a: Option<Condition>, b: Option<Condition>)
  {
    match (a, b)
    case (None, None) => true
    case (Some(x), Some(y)) =>
      x.(lastTransition := 0) == y.(lastTransition := 0) && WholeSecond(x.lastTransition) == WholeSecond(y.lastTransition)
    case _ => false
  }

  lemma SerialisedIsSame(cs: seq<Condition>, kind: string)
    ensures SameEntry(Find(Serialised(cs), kind), Find(cs, kind))
  {
    FindSerialised(cs, kind);
    var f := Find(cs, kind);
    if f.Some? {
      WholeSecondIdempotent(WholeSecond(f.value.lastTransition));
    }
    hide Find, Serialised, WholeSecond;
  }

  lemma SuspendLeavesOthers(cs: seq<Condition>, suspended: bool, now: Time, k: string)
    requires k != SUSPENDED
    ensures Find(SuspendStep(cs, suspended, now), k) == Find(cs, k)
  {
    hide Find, Set;
    SetThenFind(cs, Condition(SUSPENDED, IsTrue, "Suspended", "TrainJob is suspended", ZERO_TIME), now);
    SetThenFind(cs, Condition(SUSPENDED, IsFalse, "Resumed", "TrainJob is resumed", ZERO_TIME), now);
  }

  lemma FailLeavesOthers(cs: seq<Condition>, reason: string, message: string, now: Time, k: string)
    requires k != FAILED
    ensures Find(Fail(cs, reason, message, now), k) == Find(cs, k)
  {
    SetThenFind(cs, Condition(FAILED, IsTrue, reason, message, ZERO_TIME), now);
  }

  lemma FinalEntry(s: State, c: Calls, k: string)
    requires c.registered && k != SUSPENDED && (k == FAILED ==> !Expired(s.spec, BeforeDeadline(s, c).conditions, c.clock))
    ensures Find(FinalStatus(s, c).conditions, k) == Find(PluginStep(s.status, c.plugin, c.wall).conditions, k)
    ensures FinalStatus(s, c).rest == PluginStep(s.status, c.plugin, c.wall).rest
  {
    var st := PluginStep(s.status, c.plugin, c.wall);
    SuspendLeavesOthers(st.conditions, s.spec.suspend.GetOr(false), c.wall, k);
    if k != FAILED {
      FailLeavesOthers(BeforeDeadline(s, c).conditions, DEADLINE_EXCEEDED, "TrainJob exceeded its active deadline", c.wall, k);
    }
    hide PluginStep, SuspendStep, Find, Fail, Expired;
  }

  /** What a saved reconcile stores: for a registered runtime, everything but Suspended and Failed
      is the status the plugin returned, or what was stored if it returned none; and Failed too,
      unless a deadline has passed. */
  lemma StoredStatusIsThePlugins(s: State, c: Calls, k: string)
    requires Acts(s, c) && c.registered && Saved(s, c)
    requires k != "Suspended" && (k == "Failed" ==> !KeepsDeadline(s.status) && !Marks(s, c))
    ensures var given, stored := if c.plugin.NewStatus? then c.plugin.status else s.status, Reconciled(s, c).state.status;
      stored.rest == given.rest && SameEntry(Find(stored.conditions, k), Find(given.conditions, k))
  {
    FinalEntry(s, c, k);
    SerialisedIsSame(FinalStatus(s, c).conditions, k);
    if c.plugin.NewStatus? {
      PluginIsAdopted(s.status, c.plugin, c.wall);
    } else {
      PluginSilent(s.status, c.plugin, c.wall);
    }
    hide PluginStep, FinalStatus, BeforeDeadline, Find, Serialised, KeepsDeadline, RequeueAfter, Attempts, ObjectsFail, WholeSecond;
  }

  /** So a runtime that reports the TrainJob complete completes it. */
  lemma CompletionIsStored(s: State, c: Calls)
    requires Acts(s, c) && c.registered && Saved(s, c) && c.plugin.NewStatus?
    ensures Holds(Reconciled(s, c).state.status.conditions, "Complete") <==> Holds(c.plugin.status.conditions, "Complete")
  {
    StoredStatusIsThePlugins(s, c, COMPLETE);
    hide Reconciled, Find, WholeSecond, Saved;
  }

  /** An unregistered runtime fails the TrainJob with its own reason; nothing is sent, nothing is
      scheduled, and an error is reported. */
  lemma UnsupportedRuntimeFails(s: State, c: Calls)
    requires Acts(s, c) && !c.registered
    ensures var o := Reconciled(s, c);
      && o.err && o.requeueAfter == 0 && o.state.applied == s.applied
      && (c.patch.Takes() ==>
            var f := Find(o.state.status.conditions, "Failed");
            f.Some? && f.value.status == IsTrue && f.value.reason == "TrainingRuntimeNotSupported")
  {
    var cs := Fail(s.status.conditions, NOT_SUPPORTED, "unsupported runtime", c.wall);
    WrittenCondition(s.status.conditions, Condition(FAILED, IsTrue, NOT_SUPPORTED, "unsupported runtime", ZERO_TIME), c.wall);
    SuspendLeavesOthers(cs, s.spec.suspend.GetOr(false), c.wall, FAILED);
    var st := BeforeDeadline(s, c);
    assert Find(st.conditions, FAILED) == Find(cs, FAILED);
    hide SuspendStep, Find, Fail, StartTime, Set, ObjectsFail, Attempts, External;
    assert Finished(st.conditions);
    assert FinalStatus(s, c) == st;
    FindSerialised(st.conditions, FAILED);
  }

  // ---- the objects ----

  /** How many objects are sent: none for a finished TrainJob or an unregistered runtime; else one
      after the other, all of them unless one fails, and none behind one that failed. */
  lemma ObjectsAreApplied(s: State, c: Calls)
    requires Acts(s, c)
    ensures var sent := Reconciled(s, c).state.applied - s.applied;
      && (!c.registered || Finished(s.status.conditions) ==> sent == 0)
      && (c.registered && !Finished(s.status.conditions) ==>
            && 0 <= sent <= c.objects
            && (sent < c.objects ==> sent > 0 && c.failingApply == Some(sent - 1))
            && (forall i: nat :: i < sent - 1 ==> c.failingApply != Some(i)))
  {
    hide FinalStatus, RequeueAfter, BeforeDeadline, ObjectsFail, Finished, External;
  }

  /** The reconcile has a new status to store. */
  predicate StatusMoves(s: State, c: Calls)
  {
    FinalStatus(s, c) != s.status
  }

  /** An error is reported exactly when the runtime is not registered or a call the reconcile made
      has failed. */
  lemma ErrorIsExact(s: State, c: Calls)
    requires Acts(s, c)
    ensures Reconciled(s, c).err <==>
      || !c.registered
      || (!Finished(s.status.conditions) && (c.newObjectsFails || exists i: nat :: i < c.objects && c.failingApply == Some(i)))
      || c.deletions.None? || (exists j :: 0 <= j < |c.deletions.value| && c.deletions.value[j])
      || c.plugin.StatusError?
      || (StatusMoves(s, c) && c.patch.Rejected?)
  {
    hide FinalStatus, RequeueAfter, BeforeDeadline, Finished, External, Attempts;
    if c.failingApply.Some? && c.failingApply.value < c.objects {
      assert c.failingApply == Some(c.failingApply.value);
    }
  }
}
