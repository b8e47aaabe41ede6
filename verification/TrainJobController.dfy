/** TrainJobReconciler: the status machine of one TrainJob, with the runtime plugin, the API
    server and the clocks as the environment. */
module TrainJobController {
  import opened Common
  import opened Conditions

  const SUSPENDED: string := "Suspended"
  const DEADLINE_EXCEEDED: string := "DeadlineExceeded"
  const NOT_SUPPORTED: string := "TrainingRuntimeNotSupported"
  const CONTROLLER_NAME: string := "trainer.kubeflow.org/trainjob-controller"

  const TWO_63: int := 0x8000_0000_0000_0000
  const TWO_64: int := 0x1_0000_0000_0000_0000

  /** deadlineSeconds is 0 when no deadline is set; created is ZERO_TIME when unset. */
  datatype Spec = Spec(suspend: Option<bool>, deadlineSeconds: int, managedBy: Option<string>, created: Time)

  /** rest stands for every status field other than the conditions. */
  datatype Status = Status(conditions: seq<Condition>, rest: int)

  /** The stored TrainJob, and how many objects have been sent to the API server for it. */
  datatype State = State(spec: Spec, status: Status, applied: nat)

  /** What the runtime's status plugin returns. */
  datatype PluginStatus = StatusError | NoStatus | NewStatus(status: Status)

  /** One reconcile's answers. objects is how many objects NewObjects returns and failingApply
      the index of the first Apply that fails. deletions is None when the plugins cannot say
      what to delete, else one flag per Delete call, true for failure. wall is time.Now()
      inside SetStatusCondition and clock is the controller's own clock. */
  datatype Calls = Calls(
    get: Fetch, registered: bool, objects: nat, newObjectsFails: bool, failingApply: Option<nat>,
    deletions: Option<seq<bool>>, plugin: PluginStatus, wall: Time, clock: Time, patch: ApiWrite)

  datatype Outcome = Outcome(state: State, requeueAfter: int, err: bool)

  predicate External(spec: Spec)
  {
    spec.managedBy.GetOr(CONTROLLER_NAME) != CONTROLLER_NAME
  }

  function Fail(cs: seq<Condition>, reason: string, message: string, now: Time): (r: seq<Condition>)
  {
    Set(cs, Condition(FAILED, IsTrue, reason, message, ZERO_TIME), now)
  }

  // ---- the objects ----

  /** How many Apply calls are made: none once finished, else up to the first failure. */
  function Attempts(cs: seq<Condition>, c: Calls): (r: nat)
  {
    if Finished(cs) then 0
    else if c.failingApply.Some? && c.failingApply.value < c.objects then c.failingApply.value + 1
    else c.objects
  }

  predicate ObjectsFail(cs: seq<Condition>, c: Calls)
  {
    || (!Finished(cs) && (c.newObjectsFails || (c.failingApply.Some? && c.failingApply.value < c.objects)))
    || c.deletions.None? || true in c.deletions.value
  }

  // ---- the status steps ----

  /** The Failed condition if it records a passed deadline. */
  function DeadlineMark(cs: seq<Condition>): (r: Option<Condition>)
  {
    var f := Find(cs, FAILED);
    if f.Some? && f.value.reason != DEADLINE_EXCEEDED then None else f
  }

  /** setTrainJobStatus: the plugin's status replaces everything except a recorded deadline. */
  function PluginStep(st: Status, plugin: PluginStatus, now: Time): (r: Status)
  {
    if plugin.StatusError? then st
    else
      var next := if plugin.NewStatus? then plugin.status else st;
      match DeadlineMark(st.conditions)
      case None => next
      case Some(mark) => next.(conditions := Set(next.conditions, mark, now))
  }

  /** setSuspendedCondition. */
  function SuspendStep(cs: seq<Condition>, suspended: bool, now: Time): (r: seq<Condition>)
  {
    if suspended then Set(cs, Condition(SUSPENDED, IsTrue, "Suspended", "TrainJob is suspended", ZERO_TIME), now)
    else if Holds(cs, SUSPENDED) then Set(cs, Condition(SUSPENDED, IsFalse, "Resumed", "TrainJob is resumed", ZERO_TIME), now)
    else cs
  }

  // ---- the deadline ----

  /** Two's complement 64-bit wrap-around of time.Duration arithmetic. */
  function Wrap64(x: int): (r: int)
    ensures -TWO_63 <= r < TWO_63
  {
    (x + TWO_63) % TWO_64 - TWO_63
  }

  /** time.Time.Sub saturates. */
  function Saturate64(x: int): (r: int)
  {
    if x < -TWO_63 then -TWO_63 else if x >= TWO_63 then TWO_63 - 1 else x
  }

  /** The instant the active time is counted from. */
  function StartTime(spec: Spec, cs: seq<Condition>): (r: Time)
  {
    var s := Find(cs, SUSPENDED);
    if s.Some? && s.value.status == IsFalse then s.value.lastTransition else spec.created
  }

  function Deadline(spec: Spec, cs: seq<Condition>): (r: Time)
  {
    StartTime(spec, cs) + Wrap64(spec.deadlineSeconds * SECOND)
  }

  /** The deadline is being watched at all. */
  predicate Watched(spec: Spec, cs: seq<Condition>)
  {
    spec.deadlineSeconds != 0 && !Finished(cs) && !spec.suspend.GetOr(false) && StartTime(spec, cs) != ZERO_TIME
  }

  predicate Expired(spec: Spec, cs: seq<Condition>, clock: Time)
  {
    Watched(spec, cs) && clock > Deadline(spec, cs)
  }

  function RequeueAfter(spec: Spec, cs: seq<Condition>, clock: Time): (r: int)
  {
    if !Watched(spec, cs) || Expired(spec, cs, clock) then 0
    else
      var d := Saturate64(Deadline(spec, cs) - clock);
      if d <= 0 then SECOND else d
  }

  // ---- one reconcile ----

  /** The status before the deadline is looked at. */
  function BeforeDeadline(s: State, c: Calls): (r: Status)
  {
    var st := if c.registered then PluginStep(s.status, c.plugin, c.wall)
              else s.status.(conditions := Fail(s.status.conditions, NOT_SUPPORTED, "unsupported runtime", c.wall));
    st.(conditions := SuspendStep(st.conditions, s.spec.suspend.GetOr(false), c.wall))
  }

  /** The in-memory status at the end. */
  function FinalStatus(s: State, c: Calls): (r: Status)
  {
    var st := BeforeDeadline(s, c);
    if Expired(s.spec, st.conditions, c.clock) then
      st.(conditions := Fail(st.conditions, DEADLINE_EXCEEDED, "TrainJob exceeded its active deadline", c.wall))
    else st
  }

  function Serialise(st: Status): (r: Status)
  {
    st.(conditions := Serialised(st.conditions))
  }

  predicate Acts(s: State, c: Calls)
  {
    c.get == Found && !External(s.spec)
  }

  function Reconciled(s: State, c: Calls): (r: Outcome)
  {
    if !Acts(s, c) then Outcome(s, 0, c.get == FetchError)
    else
      var st := FinalStatus(s, c);
      var patched := st != s.status;
      Outcome(
        State(s.spec,
              if patched && c.patch.Takes() then Serialise(st) else s.status,
              s.applied + (if c.registered then Attempts(s.status.conditions, c) else 0)),
        RequeueAfter(s.spec, BeforeDeadline(s, c).conditions, c.clock),
        !c.registered || ObjectsFail(s.status.conditions, c) || c.plugin.StatusError? || (patched && c.patch.Rejected?))
  }

  class TrainJobReconciler {
    var spec: Spec
    var stored: Status
    var applied: nat
    // The copy of the status that one reconcile works on.
    var current: Status

    function Contents(): (s: State)
      reads this
    {
      State(spec, stored, applied)
    }

    constructor (s: State)
      ensures Contents() == s
    {
      spec, stored, applied, current := s.spec, s.status, s.applied, s.status;
    }

    method ReconcileObjects(c: Calls) returns (err: bool)
      modifies this`applied
      ensures applied == old(applied) + Attempts(current.conditions, c)
      ensures err == ObjectsFail(current.conditions, c)
    {
      err := false;
      if !Finished(current.conditions) {
        if c.newObjectsFails {
          err := true;
        }
        var i := 0;
        while i < c.objects
          invariant 0 <= i <= c.objects && applied == old(applied) + i && err == c.newObjectsFails
          invariant c.failingApply.Some? ==> i <= c.failingApply.value || c.failingApply.value >= c.objects
        {
          applied := applied + 1;
          if c.failingApply == Some(i) {
            err := true;
            break;
          }
          i := i + 1;
        }
      }
      if c.deletions.None? {
        return true;
      }
      for j := 0 to |c.deletions.value|
        invariant true !in c.deletions.value[..j]
      {
        assert c.deletions.value[..j + 1] == c.deletions.value[..j] + [c.deletions.value[j]];
        if c.deletions.value[j] {
          assert c.deletions.value[j] in c.deletions.value;
          return true;
        }
      }
      assert c.deletions.value[..|c.deletions.value|] == c.deletions.value;
    }

    method SetFailedCondition(reason: string, message: string, now: Time)
      modifies this`current
      ensures current == old(current).(conditions := Fail(old(current).conditions, reason, message, now))
    {
      var newCond := Condition(FAILED, IsTrue, reason, message, ZERO_TIME);
      current := current.(conditions := Set(current.conditions, newCond, now));
    }

    method SetTrainJobStatus(plugin: PluginStatus, now: Time) returns (err: bool)
      modifies this`current
      ensures current == PluginStep(old(current), plugin, now) && err == plugin.StatusError?
    {
      var deadlineCond := Find(current.conditions, FAILED);
      if deadlineCond.Some? && deadlineCond.value.reason != DEADLINE_EXCEEDED {
        deadlineCond := None;
      }
      if plugin.StatusError? {
        return true;
      }
      if plugin.NewStatus? {
        current := plugin.status;
      }
      if deadlineCond.Some? {
        current := current.(conditions := Set(current.conditions, deadlineCond.value, now));
      }
      err := false;
    }

    method SetSuspendedCondition(now: Time)
      modifies this`current
      ensures current == old(current).(conditions := SuspendStep(old(current).conditions, spec.suspend.GetOr(false), now))
    {
      var newCond;
      if spec.suspend.GetOr(false) {
        newCond := Condition(SUSPENDED, IsTrue, "Suspended", "TrainJob is suspended", ZERO_TIME);
      } else if Holds(current.conditions, SUSPENDED) {
        newCond := Condition(SUSPENDED, IsFalse, "Resumed", "TrainJob is resumed", ZERO_TIME);
      } else {
        return;
      }
      current := current.(conditions := Set(current.conditions, newCond, now));
    }

    method ReconcileDeadline(clock: Time, wall: Time) returns (requeueAfter: int)
      modifies this`current
      ensures requeueAfter == RequeueAfter(spec, old(current).conditions, clock)
      ensures current == if Expired(spec, old(current).conditions, clock)
                         then old(current).(conditions := Fail(old(current).conditions, DEADLINE_EXCEEDED,
                                                               "TrainJob exceeded its active deadline", wall))
                         else old(current)
    {
      if spec.deadlineSeconds == 0 || Finished(current.conditions) || spec.suspend.GetOr(false) {
        return 0;
      }
      var startTime := spec.created;
      var suspendedCond := Find(current.conditions, SUSPENDED);
      if suspendedCond.Some? && suspendedCond.value.status == IsFalse {
        startTime := suspendedCond.value.lastTransition;
      }
      if startTime == ZERO_TIME {
        return 0;
      }
      var deadline := startTime + Wrap64(spec.deadlineSeconds * SECOND);
      if clock > deadline {
        SetFailedCondition(DEADLINE_EXCEEDED, "TrainJob exceeded its active deadline", wall);
        return 0;
      }
      requeueAfter := Saturate64(deadline - clock);
      if requeueAfter <= 0 {
        requeueAfter := SECOND;
      }
    }

    method Reconcile(c: Calls) returns (requeueAfter: int, err: bool)
      modifies this
      ensures Outcome(Contents(), requeueAfter, err) == Reconciled(old(Contents()), c)
    {
      hide PluginStep, SuspendStep, Attempts, ObjectsFail, RequeueAfter, Expired, Fail;
      if c.get != Found {
        return 0, c.get == FetchError;
      }
      if spec.managedBy.GetOr(CONTROLLER_NAME) != CONTROLLER_NAME {
        return 0, false;
      }
      current := stored;
      if !c.registered {
        err := true;
        SetFailedCondition(NOT_SUPPORTED, "unsupported runtime", c.wall);
      } else {
        err := ReconcileObjects(c);
        var statusErr := SetTrainJobStatus(c.plugin, c.wall);
        if statusErr {
          err := true;
        }
      }
      SetSuspendedCondition(c.wall);
      requeueAfter := ReconcileDeadline(c.clock, c.wall);
      if current != stored {
        if c.patch.Takes() {
          stored := current.(conditions := Serialised(current.conditions));
        }
        if c.patch.Rejected? {
          err := true;
        }
      }
    }
  }
}
