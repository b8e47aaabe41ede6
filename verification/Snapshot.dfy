/** The runtime snapshot: the first build of a TrainJob freezes its runtime into a ConfigMap,
    and every later build and validation reads it back. */
module Snapshot {
  import opened Common

  const SUFFIX: string := "-runtime-snapshot"
  const DATA_KEY: string := "runtime"
  const GROUP: string := "trainer.kubeflow.org"

  /** TrainingRuntimes live in a namespace, ClusterTrainingRuntimes do not. */
  datatype Scope = Namespaced | ClusterScoped

  function KindFor(scope: Scope): (r: string)
  {
    if scope == Namespaced then "TrainingRuntime" else "ClusterTrainingRuntime"
  }

  datatype RuntimeRef = RuntimeRef(name: string, kind: Option<string>, group: Option<string>)

  datatype TrainJob = TrainJob(namespace: string, name: string, uid: string, runtimeRef: RuntimeRef)

  /** A runtime object; content stands for its labels and spec. A typed Get leaves group and
      kind empty. */
  datatype Runtime = Runtime(group: string, kind: string, name: string, content: int)

  /** A stored YAML text, by what it decodes to. */
  datatype Yaml = Document(runtime: Runtime) | Undecodable

  /** owner is the UID of the controller owner reference, if any. */
  datatype ConfigMap = ConfigMap(owner: Option<string>, data: map<string, Yaml>)

  datatype Key = Key(namespace: string, name: string)

  datatype LiveKey = LiveKey(scope: Scope, namespace: string, name: string)

  datatype Cluster = Cluster(configMaps: map<Key, ConfigMap>, live: map<LiveKey, int>)

  /** The outcomes of the API calls and library calls one resolution makes. */
  datatype Calls = Calls(readFails: bool, liveReadFails: bool, schemeFails: bool, marshalFails: bool, apply: ApiWrite)

  datatype Fetched = NotFound | ReadError | InvalidSnapshot | Snapshot(runtime: Runtime)

  datatype Resolution = Resolved(runtime: Runtime) | Unresolved

  function SnapshotKey(tj: TrainJob): (r: Key)
  {
    Key(tj.namespace, tj.name + SUFFIX)
  }

  function LiveKeyOf(tj: TrainJob, scope: Scope): (r: LiveKey)
  {
    LiveKey(scope, if scope == Namespaced then tj.namespace else "", tj.runtimeRef.name)
  }

  /** The snapshot is of the runtime the TrainJob refers to. */
  predicate Matches(ref: RuntimeRef, rt: Runtime)
  {
    && (ref.kind.None? || rt.kind == ref.kind.value)
    && (ref.group.None? || rt.group == ref.group.value)
    && rt.name == ref.name
  }

  /** The store holds, under the TrainJob's key, a snapshot of rt that belongs to it. */
  predicate FrozenAs(configMaps: map<Key, ConfigMap>, tj: TrainJob, rt: Runtime)
  {
    var k := SnapshotKey(tj);
    k in configMaps && configMaps[k].owner == Some(tj.uid) && DATA_KEY in configMaps[k].data &&
    configMaps[k].data[DATA_KEY] == Document(rt) && Matches(tj.runtimeRef, rt)
  }

  class RuntimeResolver {
    var configMaps: map<Key, ConfigMap>
    var live: map<LiveKey, int>

    function Contents(): (c: Cluster)
      reads this
    {
      Cluster(configMaps, live)
    }

    method GetRuntimeSnapshot(tj: TrainJob, c: Calls) returns (r: Fetched)
      ensures r == ReadError <==> c.readFails
      ensures r == NotFound <==> !c.readFails && SnapshotKey(tj) !in configMaps
      ensures forall rt :: r == Snapshot(rt) <==> !c.readFails && FrozenAs(configMaps, tj, rt)
    {
      if c.readFails {
        return ReadError;
      }
      var key := Key(tj.namespace, tj.name + SUFFIX);
      if key !in configMaps {
        return NotFound;
      }
      var cm := configMaps[key];
      if cm.owner.None? || cm.owner.value != tj.uid {
        return InvalidSnapshot;
      }
      if DATA_KEY !in cm.data {
        return InvalidSnapshot;
      }
      var yaml := cm.data[DATA_KEY];
      if yaml.Undecodable? {
        return InvalidSnapshot;
      }
      var rt := yaml.runtime;
      var kindMismatch := tj.runtimeRef.kind.Some? && rt.kind != tj.runtimeRef.kind.value;
      var groupMismatch := tj.runtimeRef.group.Some? && rt.group != tj.runtimeRef.group.value;
      var nameMismatch := rt.name != tj.runtimeRef.name;
      if kindMismatch || groupMismatch || nameMismatch {
        return InvalidSnapshot;
      }
      r := Snapshot(rt);
    }

    /** Callers only invoke this when no snapshot exists. The runtime is returned because its
        group and kind are set in place. */
    method CreateRuntimeSnapshot(tj: TrainJob, scope: Scope, runtime: Runtime, c: Calls) returns (rt: Runtime, err: bool)
      requires SnapshotKey(tj) !in configMaps
      modifies this`configMaps
      ensures configMaps == Written(old(configMaps), tj, scope, runtime, c)
      ensures err == (c.schemeFails || c.marshalFails || c.apply.Rejected?)
      ensures !err ==> rt == Typed(runtime, scope)
    {
      rt := runtime;
      if c.schemeFails {
        return rt, true;
      }
      rt := rt.(group := GROUP, kind := KindFor(scope));
      if c.marshalFails {
        return rt, true;
      }
      if c.apply.Takes() {
        configMaps := configMaps[Key(tj.namespace, tj.name + SUFFIX) := ConfigMap(Some(tj.uid), map[DATA_KEY := Document(rt)])];
      }
      err := c.apply.Rejected?;
    }

    method NewObjects(tj: TrainJob, scope: Scope, c: Calls) returns (r: Resolution)
      modifies this`configMaps
      ensures configMaps == Built(old(Contents()), tj, scope, c)
      ensures r == BuildResolves(old(Contents()), tj, scope, c)
    {
      var fetched := GetRuntimeSnapshot(tj, c);
      var rt;
      match fetched {
        case Snapshot(frozen) => rt := frozen;
        case NotFound =>
          var key := LiveKeyOf(tj, scope);
          if c.liveReadFails || key !in live {
            return Unresolved;
          }
          var err;
          rt, err := CreateRuntimeSnapshot(tj, scope, Runtime("", "", tj.runtimeRef.name, live[key]), c);
          if err {
            return Unresolved;
          }
        case _ => return Unresolved;
      }
      r := Resolved(rt);
    }

    method ValidateObjects(tj: TrainJob, scope: Scope, c: Calls) returns (r: Resolution)
      ensures r == ValidateResolves(Contents(), tj, scope, c)
    {
      var fetched := GetRuntimeSnapshot(tj, c);
      match fetched {
        case Snapshot(frozen) => return Resolved(frozen);
        case NotFound =>
          var key := LiveKeyOf(tj, scope);
          if c.liveReadFails || key !in live {
            return Unresolved;
          }
          return Resolved(Runtime("", "", tj.runtimeRef.name, live[key]));
        case _ => return Unresolved;
      }
    }
  }

  // ---- the same, on values ----

  /** The frozen runtime, if the snapshot is good. */
  function Frozen(configMaps: map<Key, ConfigMap>, tj: TrainJob): (r: Option<Runtime>)
    ensures r.Some? ==> FrozenAs(configMaps, tj, r.value)
    ensures r.None? ==> forall rt :: !FrozenAs(configMaps, tj, rt)
  {
    var k := SnapshotKey(tj);
    if k in configMaps && DATA_KEY in configMaps[k].data && configMaps[k].data[DATA_KEY].Document? &&
       FrozenAs(configMaps, tj, configMaps[k].data[DATA_KEY].runtime)
    then Some(configMaps[k].data[DATA_KEY].runtime) else None
  }

  function Typed(rt: Runtime, scope: Scope): (r: Runtime)
  {
    rt.(group := GROUP, kind := KindFor(scope))
  }

  function LiveRuntime(c: Cluster, tj: TrainJob, scope: Scope): (r: Option<Runtime>)
  {
    var key := LiveKeyOf(tj, scope);
    if key in c.live then Some(Runtime("", "", tj.runtimeRef.name, c.live[key])) else None
  }

  function Written(configMaps: map<Key, ConfigMap>, tj: TrainJob, scope: Scope, rt: Runtime, c: Calls): (r: map<Key, ConfigMap>)
  {
    if !c.schemeFails && !c.marshalFails && c.apply.Takes() then
      configMaps[SnapshotKey(tj) := ConfigMap(Some(tj.uid), map[DATA_KEY := Document(Typed(rt, scope))])]
    else configMaps
  }

  /** A build reaches the live runtime. */
  predicate ReadsLive(cl: Cluster, tj: TrainJob, scope: Scope, c: Calls)
  {
    !c.readFails && SnapshotKey(tj) !in cl.configMaps && !c.liveReadFails && LiveRuntime(cl, tj, scope).Some?
  }

  function Built(cl: Cluster, tj: TrainJob, scope: Scope, c: Calls): (r: map<Key, ConfigMap>)
  {
    if ReadsLive(cl, tj, scope, c) then Written(cl.configMaps, tj, scope, LiveRuntime(cl, tj, scope).value, c)
    else cl.configMaps
  }

  function BuildResolves(cl: Cluster, tj: TrainJob, scope: Scope, c: Calls): (r: Resolution)
  {
    if c.readFails then Unresolved
    else if Frozen(cl.configMaps, tj).Some? then Resolved(Frozen(cl.configMaps, tj).value)
    else if ReadsLive(cl, tj, scope, c) && !c.schemeFails && !c.marshalFails && c.apply.Accepted? then
      Resolved(Typed(LiveRuntime(cl, tj, scope).value, scope))
    else Unresolved
  }

  function ValidateResolves(cl: Cluster, tj: TrainJob, scope: Scope, c: Calls): (r: Resolution)
  {
    if c.readFails then Unresolved
    else if Frozen(cl.configMaps, tj).Some? then Resolved(Frozen(cl.configMaps, tj).value)
    else if ReadsLive(cl, tj, scope, c) then Resolved(LiveRuntime(cl, tj, scope).value)
    else Unresolved
  }

  // ---- runs ----

  /** Collect removes what a deleted TrainJob owned. */
  datatype Event =
    | Build(tj: TrainJob, scope: Scope, c: Calls)
    | Validate(tj: TrainJob, scope: Scope, c: Calls)
    | EditLive(live: map<LiveKey, int>)
    | Collect(uid: string)

  function Next(cl: Cluster, e: Event): (r: Cluster)
  {
    match e
    case Build(tj, scope, c) => cl.(configMaps := Built(cl, tj, scope, c))
    case Validate(_, _, _) => cl
    case EditLive(live) => cl.(live := live)
    case Collect(uid) => cl.(configMaps := map k | k in cl.configMaps && cl.configMaps[k].owner != Some(uid) :: cl.configMaps[k])
  }

  function After(cl: Cluster, es: seq<Event>): (r: Cluster)
    decreases |es|
  {
    if es == [] then cl else After(Next(cl, es[0]), es[1..])
  }

  /** The controller dispatches on the reference, so the scope is the one it names. */
  predicate RefersTo(tj: TrainJob, scope: Scope)
  {
    && tj.runtimeRef.group == Some("trainer.kubeflow.org")
    && tj.runtimeRef.kind == Some(if scope.Namespaced? then "TrainingRuntime" else "ClusterTrainingRuntime")
  }

  /** tj still exists, and a UID stands for one TrainJob with an immutable name and reference. */
  ghost predicate Alive(tj: TrainJob, es: seq<Event>)
  {
    forall e :: e in es ==>
      match e
      case Build(tj', _, _) => tj'.uid == tj.uid ==> tj' == tj
      case Validate(tj', _, _) => tj'.uid == tj.uid ==> tj' == tj
      case EditLive(_) => true
      case Collect(uid) => uid != tj.uid
  }

  lemma GroupAndKind(scope: Scope)
    ensures GROUP == "trainer.kubeflow.org"
    ensures KindFor(scope) == if scope.Namespaced? then "TrainingRuntime" else "ClusterTrainingRuntime"
  { }

  /** What create wrote passes every check of get: after a build that resolved, the TrainJob is
      frozen as exactly the runtime that was built from. */
  lemma BuildFreezes(cl: Cluster, tj: TrainJob, scope: Scope, c: Calls)
    requires RefersTo(tj, scope) && BuildResolves(cl, tj, scope, c).Resolved?
    ensures FrozenAs(Built(cl, tj, scope, c), tj, BuildResolves(cl, tj, scope, c).runtime)
    ensures SnapshotKey(tj) !in cl.configMaps ==>
              LiveRuntime(cl, tj, scope).Some? &&
              BuildResolves(cl, tj, scope, c).runtime.content == LiveRuntime(cl, tj, scope).value.content
  {
    GroupAndKind(scope);
    hide KindFor;
    assert Built(cl, tj, scope, c) == cl.configMaps || SnapshotKey(tj) in Built(cl, tj, scope, c);
  }

  /** The same when the write reached the store although the call reported an error. */
  lemma WrittenIsFrozen(cl: Cluster, tj: TrainJob, scope: Scope, c: Calls)
    requires RefersTo(tj, scope) && Built(cl, tj, scope, c) != cl.configMaps
    ensures FrozenAs(Built(cl, tj, scope, c), tj, Typed(LiveRuntime(cl, tj, scope).value, scope))
  {
    GroupAndKind(scope);
    hide KindFor;
    assert SnapshotKey(tj) in Built(cl, tj, scope, c);
  }

  /** The live runtime of that name: a TrainingRuntime of the TrainJob's namespace, or a
      ClusterTrainingRuntime, which has none. */
  predicate IsLive(cl: Cluster, tj: TrainJob, scope: Scope, content: int)
  {
    var key := if scope.Namespaced? then LiveKey(Namespaced, tj.namespace, tj.runtimeRef.name)
               else LiveKey(ClusterScoped, "", tj.runtimeRef.name);
    key in cl.live && cl.live[key] == content
  }

  lemma LiveRuntimeIs(cl: Cluster, tj: TrainJob, scope: Scope, rt: Runtime)
    ensures LiveRuntime(cl, tj, scope) == Some(rt) <==>
            rt.group == "" && rt.kind == "" && rt.name == tj.runtimeRef.name && IsLive(cl, tj, scope, rt.content)
  { }

  /** With no ConfigMap under the TrainJob's name, a build resolves exactly when its calls succeed
      and the live runtime exists, to that runtime with its kind set, and stores it for this
      UID; a validation resolves to the same live runtime, and stores nothing. */
  lemma FirstResolution(cl: Cluster, tj: TrainJob, scope: Scope, c: Calls, rt: Runtime)
    requires Key(tj.namespace, tj.name + "-runtime-snapshot") !in cl.configMaps
    ensures var readable := !c.readFails && !c.liveReadFails;
      var typed := Runtime("trainer.kubeflow.org",
                           if scope.Namespaced? then "TrainingRuntime" else "ClusterTrainingRuntime",
                           tj.runtimeRef.name, rt.content);
      && (BuildResolves(cl, tj, scope, c) == Resolved(rt) <==>
            readable && !c.schemeFails && !c.marshalFails && c.apply.Accepted? && IsLive(cl, tj, scope, rt.content) && rt == typed)
      && (ValidateResolves(cl, tj, scope, c) == Resolved(rt) <==>
            readable && IsLive(cl, tj, scope, rt.content) && rt == typed.(group := "", kind := ""))
      && (BuildResolves(cl, tj, scope, c) == Resolved(rt) ==>
            Built(cl, tj, scope, c) == cl.configMaps[Key(tj.namespace, tj.name + "-runtime-snapshot") :=
              ConfigMap(Some(tj.uid), map["runtime" := Document(typed)])])
  {
    var live := Runtime("", "", tj.runtimeRef.name, rt.content);
    LiveRuntimeIs(cl, tj, scope, live);
    LiveRuntimeIs(cl, tj, scope, LiveRuntime(cl, tj, scope).GetOr(live));
    GroupAndKind(scope);
    assert SnapshotKey(tj) == Key(tj.namespace, tj.name + "-runtime-snapshot") && DATA_KEY == "runtime";
    hide LiveRuntime, IsLive, KindFor, SnapshotKey;
  }

  /** With a ConfigMap under that name, build and validation resolve exactly to the runtime it
      holds, provided it belongs to this UID, has the data key, decodes, and is the runtime the
      reference names; otherwise to an error, never to the live runtime. Nothing is stored. */
  lemma StoredResolution(cl: Cluster, tj: TrainJob, scope: Scope, c: Calls, rt: Runtime)
    requires Key(tj.namespace, tj.name + "-runtime-snapshot") in cl.configMaps
    ensures var cm, ref := cl.configMaps[Key(tj.namespace, tj.name + "-runtime-snapshot")], tj.runtimeRef;
      var good := !c.readFails && cm.owner == Some(tj.uid) && "runtime" in cm.data && cm.data["runtime"] == Document(rt) &&
        rt.name == ref.name && (ref.kind.Some? ==> ref.kind.value == rt.kind) && (ref.group.Some? ==> ref.group.value == rt.group);
      && (BuildResolves(cl, tj, scope, c) == Resolved(rt) <==> good)
      && (ValidateResolves(cl, tj, scope, c) == Resolved(rt) <==> good)
      && Built(cl, tj, scope, c) == cl.configMaps
  {
    hide LiveRuntime, Typed;
  }

  lemma FrozenIsUnique(configMaps: map<Key, ConfigMap>, tj: TrainJob, rt: Runtime)
    requires FrozenAs(configMaps, tj, rt)
    ensures Frozen(configMaps, tj) == Some(rt)
  { }

  lemma SameKey(a: TrainJob, b: TrainJob)
    ensures SnapshotKey(a) == SnapshotKey(b) <==> a.namespace == b.namespace && a.name == b.name
  {
    var x, y := a.name + SUFFIX, b.name + SUFFIX;
    assert x[..|x| - |SUFFIX|] == a.name && y[..|y| - |SUFFIX|] == b.name;
  }

  lemma {:induction false} SnapshotStays(cl: Cluster, tj: TrainJob, rt: Runtime, es: seq<Event>)
    requires FrozenAs(cl.configMaps, tj, rt) && Alive(tj, es)
    ensures FrozenAs(After(cl, es).configMaps, tj, rt)
    decreases |es|
  {
    if es != [] {
      var cl' := Next(cl, es[0]);
      assert es[0] in es;
      hide Matches, Typed;
      assert FrozenAs(cl'.configMaps, tj, rt);
      assert Alive(tj, es[1..]) by { forall e | e in es[1..] ensures e in es { } }
      hide FrozenAs, Next, Alive;
      SnapshotStays(cl', tj, rt, es[1..]);
    }
  }

  /** Snapshot stability: once a build of the TrainJob has resolved, then after any run every
      build and every validation of that TrainJob resolves the very same runtime, whatever
      happened to the live one; only a failing read gives an error instead. */
  lemma SnapshotIsStable(cl: Cluster, tj: TrainJob, scope: Scope, c: Calls, es: seq<Event>, c': Calls)
    requires RefersTo(tj, scope) && BuildResolves(cl, tj, scope, c).Resolved? && Alive(tj, es)
    ensures var later := After(Next(cl, Build(tj, scope, c)), es);
      var expected := if c'.readFails then Unresolved else BuildResolves(cl, tj, scope, c);
      BuildResolves(later, tj, scope, c') == expected && ValidateResolves(later, tj, scope, c') == expected
  {
    var rt := BuildResolves(cl, tj, scope, c).runtime;
    BuildFreezes(cl, tj, scope, c);
    SnapshotStays(Next(cl, Build(tj, scope, c)), tj, rt, es);
    FrozenIsUnique(After(Next(cl, Build(tj, scope, c)), es).configMaps, tj, rt);
    hide After, Alive, FrozenAs, ReadsLive, RefersTo;
  }

  /** Isolation: while the snapshot of one TrainJob is stored, a TrainJob of the same name
      with another UID gets an error, never that snapshot, and leaves the store alone. */
  lemma SnapshotIsIsolated(cl: Cluster, tj: TrainJob, rt: Runtime, other: TrainJob, scope: Scope, c: Calls)
    requires FrozenAs(cl.configMaps, tj, rt)
    requires other.namespace == tj.namespace && other.name == tj.name && other.uid != tj.uid
    ensures BuildResolves(cl, other, scope, c) == Unresolved && ValidateResolves(cl, other, scope, c) == Unresolved
    ensures Built(cl, other, scope, c) == cl.configMaps
  {
    SameKey(tj, other);
  }

  /** Isolation over runs: once a build of the TrainJob has resolved, then after any run in which
      it lives, the other TrainJob still gets an error and still leaves the store alone. */
  lemma SnapshotStaysIsolated(cl: Cluster, tj: TrainJob, scope: Scope, c: Calls, es: seq<Event>,
                              other: TrainJob, scope': Scope, c': Calls)
    requires RefersTo(tj, scope) && BuildResolves(cl, tj, scope, c).Resolved? && Alive(tj, es)
    requires other.namespace == tj.namespace && other.name == tj.name && other.uid != tj.uid
    ensures var later := After(Next(cl, Build(tj, scope, c)), es);
      && BuildResolves(later, other, scope', c') == Unresolved && ValidateResolves(later, other, scope', c') == Unresolved
      && Built(later, other, scope', c') == later.configMaps
  {
    var rt := BuildResolves(cl, tj, scope, c).runtime;
    var built := Next(cl, Build(tj, scope, c));
    BuildFreezes(cl, tj, scope, c);
    SnapshotStays(built, tj, rt, es);
    hide FrozenAs, After, BuildResolves, ValidateResolves, Built, Alive;
    SnapshotIsIsolated(After(built, es), tj, rt, other, scope', c');
  }

  /** A TrainJob under any other name is not affected by the snapshot at all. */
  lemma OtherNamesUnaffected(cl: Cluster, tj: TrainJob, scope: Scope, c: Calls, other: TrainJob)
    requires other.namespace != tj.namespace || other.name != tj.name
    ensures Frozen(Built(cl, tj, scope, c), other) == Frozen(cl.configMaps, other)
  {
    SameKey(tj, other);
    hide Typed, LiveRuntime, Matches, ReadsLive;
  }
}
