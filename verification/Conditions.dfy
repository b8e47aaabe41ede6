/** Status conditions as k8s.io/apimachinery's meta package keeps them: a list with at most
    one entry per type, whose transition time records the last change of status. */
module Conditions {
  import opened Common

  /** Nanoseconds on one clock. Go's zero time is ZERO_TIME. */
  type Time = int

  const ZERO_TIME: Time := 0
  const SECOND: int := 1_000_000_000

  /** The terminal condition types, which TrainJobs and OptimizationJobs share. */
  const COMPLETE: string := "Complete"
  const FAILED: string := "Failed"

  datatype ConditionStatus = IsTrue | IsFalse | IsUnknown

  datatype Condition = Condition(
    kind: string, status: ConditionStatus, reason: string, message: string, lastTransition: Time)

  /** meta.FindStatusCondition. */
  function Find(cs: seq<Condition>, kind: string): (r: Option<Condition>)
  {
    if cs == [] then None
    else if cs[0].kind == kind then Some(cs[0])
    else Find(cs[1..], kind)
  }

  /** meta.IsStatusConditionTrue. */
  predicate Holds(cs: seq<Condition>, kind: string)
  {
    var c := Find(cs, kind);
    c.Some? && c.value.status == IsTrue
  }

  /** The object has come to an end, well or badly. */
  predicate Finished(cs: seq<Condition>)
  {
    Holds(cs, COMPLETE) || Holds(cs, FAILED)
  }

  /** What meta.SetStatusCondition writes over an existing entry. */
  function Overwritten(prior: Condition, c: Condition, now: Time): (r: Condition)
  {
    Condition(prior.kind, c.status, c.reason, c.message,
              if prior.status == c.status then prior.lastTransition
              else if c.lastTransition != ZERO_TIME then c.lastTransition
              else now)
  }

  function Stamped(c: Condition, now: Time): (r: Condition)
  {
    if c.lastTransition == ZERO_TIME then c.(lastTransition := now) else c
  }

  /** meta.SetStatusCondition, with time.Now() as the parameter now. */
  function Set(cs: seq<Condition>, c: Condition, now: Time): (r: seq<Condition>)
  {
    if cs == [] then [Stamped(c, now)]
    else if cs[0].kind == c.kind then [Overwritten(cs[0], c, now)] + cs[1..]
    else [cs[0]] + Set(cs[1..], c, now)
  }

  function Kinds(cs: seq<Condition>): (r: seq<string>)
    ensures |r| == |cs|
    ensures forall i :: 0 <= i < |cs| ==> r[i] == cs[i].kind
  {
    seq(|cs|, i requires 0 <= i < |cs| => cs[i].kind)
  }

  ghost predicate OnePerKind(cs: seq<Condition>)
  {
    Distinct(Kinds(cs))
  }

  /** The entry that is read back is the one written. Its transition time moves exactly
      when the status changed, and no entry of another type is touched. */
  lemma {:induction false} SetThenFind(cs: seq<Condition>, c: Condition, now: Time)
    ensures Find(Set(cs, c, now), c.kind)
         == Some(match Find(cs, c.kind) case None => Stamped(c, now) case Some(prior) => Overwritten(prior, c, now))
    ensures forall k :: k != c.kind ==> Find(Set(cs, c, now), k) == Find(cs, k)
  {
    if cs == [] {
    } else if cs[0].kind == c.kind {
      assert Set(cs, c, now)[1..] == cs[1..];
    } else {
      SetThenFind(cs[1..], c, now);
      var r := Set(cs, c, now);
      assert r[0] == cs[0] && r[1..] == Set(cs[1..], c, now);
      FindSkips(cs, c.kind);
      forall k | k != c.kind ensures Find(r, k) == Find(cs, k) { }
    }
  }

  /** The same, field by field. */
  lemma WrittenCondition(cs: seq<Condition>, c: Condition, now: Time)
    ensures var f, r := Find(cs, c.kind), Find(Set(cs, c, now), c.kind);
      && r.Some? && r.value.kind == c.kind
      && r.value.status == c.status && r.value.reason == c.reason && r.value.message == c.message
      && (f.Some? && f.value.status == c.status ==> r.value.lastTransition == f.value.lastTransition)
      && (f.None? || f.value.status != c.status ==>
            r.value.lastTransition == if c.lastTransition != ZERO_TIME then c.lastTransition else now)
    ensures Holds(Set(cs, c, now), c.kind) <==> c.status.IsTrue?
  {
    SetThenFind(cs, c, now);
    FindGivesKind(cs, c.kind);
    hide Find, Set;
  }

  lemma FindSkips(cs: seq<Condition>, kind: string)
    requires cs != [] && cs[0].kind != kind
    ensures Find(cs, kind) == Find(cs[1..], kind)
  { }

  lemma {:induction false} FindGivesKind(cs: seq<Condition>, kind: string)
    ensures Find(cs, kind).Some? <==> kind in Kinds(cs)
    ensures Find(cs, kind).Some? ==> Find(cs, kind).value.kind == kind && Find(cs, kind).value in cs
  {
    if cs != [] {
      FindGivesKind(cs[1..], kind);
      assert Kinds(cs) == [cs[0].kind] + Kinds(cs[1..]);
    }
  }

  /** Types keep their position; a new type goes last. */
  lemma {:induction false} SetKeepsKinds(cs: seq<Condition>, c: Condition, now: Time)
    ensures Kinds(Set(cs, c, now)) == if c.kind in Kinds(cs) then Kinds(cs) else Kinds(cs) + [c.kind]
  {
    if cs == [] || cs[0].kind == c.kind {
      assert cs != [] ==> c.kind == Kinds(cs)[0];
    } else {
      var rest := Set(cs[1..], c, now);
      SetKeepsKinds(cs[1..], c, now);
      assert Set(cs, c, now) == [cs[0]] + rest && cs == [cs[0]] + cs[1..];
      hide Set, Kinds;
      KindsCons(cs[0], cs[1..]);
      KindsCons(cs[0], rest);
    }
  }

  lemma KindsCons(c: Condition, cs: seq<Condition>)
    ensures Kinds([c] + cs) == [c.kind] + Kinds(cs)
  { }

  lemma SetKeepsOnePerKind(cs: seq<Condition>, c: Condition, now: Time)
    requires OnePerKind(cs)
    ensures OnePerKind(Set(cs, c, now))
  {
    SetKeepsKinds(cs, c, now);
    var r := Set(cs, c, now);
    forall i, j | 0 <= i < j < |r| ensures r[i].kind != r[j].kind {
      assert r[i].kind == Kinds(r)[i] && r[j].kind == Kinds(r)[j];
      assert j < |cs| ==> Kinds(cs)[i] == cs[i].kind && Kinds(cs)[j] == cs[j].kind;
      assert i < |cs| ==> Kinds(cs)[i] == cs[i].kind;
    }
  }

  /** Writing the same condition twice is writing it once, whatever the second clock reads. */
  lemma SetTwice(cs: seq<Condition>, c: Condition, now: Time, later: Time)
    ensures Set(Set(cs, c, now), c, later) == Set(cs, c, now)
    decreases cs
  {
    if cs == [] {
    } else if cs[0].kind == c.kind {
    } else {
      SetTwice(cs[1..], c, now, later);
      var r := Set(cs, c, now);
      assert r[0] == cs[0] && r[1..] == Set(cs[1..], c, now);
    }
  }

  /** The whole second a time is serialised to. */
  function WholeSecond(t: Time): (r: Time)
    ensures r <= t < r + SECOND && r % SECOND == 0
  {
    t - t % SECOND
  }

  /** A condition list after a trip through the API server, which stores whole seconds. */
  function Serialised(cs: seq<Condition>): (r: seq<Condition>)
    ensures |r| == |cs|
    ensures forall i :: 0 <= i < |cs| ==> r[i] == cs[i].(lastTransition := WholeSecond(cs[i].lastTransition))
  {
    seq(|cs|, i requires 0 <= i < |cs| => cs[i].(lastTransition := WholeSecond(cs[i].lastTransition)))
  }

  lemma {:induction false} FindSerialised(cs: seq<Condition>, kind: string)
    ensures Find(Serialised(cs), kind)
         == match Find(cs, kind) case None => None case Some(c) => Some(c.(lastTransition := WholeSecond(c.lastTransition)))
  {
    if cs != [] {
      FindSerialised(cs[1..], kind);
      assert Serialised(cs)[1..] == Serialised(cs[1..]);
    }
  }
}
