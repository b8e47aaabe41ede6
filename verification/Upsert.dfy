/** The keyed upserts of pkg/apply: environment variables and volumes are matched by name,
    volume mounts by path, container ports by name or by port and protocol. */
module Upsert {
  import opened Common

  /** A list entry: the optional field it is matched by, and everything else. */
  datatype Entry<V> = Entry(key: Option<string>, value: V)

  /** The first entry with the key, or the length of the list. Two nil keys are equal, as
      ptr.Equal has it. */
  function Position<V>(s: seq<Entry<V>>, key: Option<string>): (r: nat)
    ensures r <= |s|
    ensures r < |s| ==> s[r].key == key
    ensures forall i :: 0 <= i < r ==> s[i].key != key
  {
    if s == [] then 0 else if s[0].key == key then 0 else 1 + Position(s[1..], key)
  }

  function UpsertOne<V>(s: seq<Entry<V>>, e: Entry<V>): (r: seq<Entry<V>>)
  {
    var i := Position(s, e.key);
    if i < |s| then s[i := e] else s + [e]
  }

  function UpsertAll<V>(s: seq<Entry<V>>, es: seq<Entry<V>>): (r: seq<Entry<V>>)
  {
    if es == [] then s else UpsertOne(UpsertAll(s, es[..|es| - 1]), es[|es| - 1])
  }

  /** The slice that the Upsert functions change for their caller. */
  class List<V> {
    var items: seq<Entry<V>>

    constructor (items: seq<Entry<V>>)
      ensures this.items == items
    {
      this.items := items;
    }

    method Upsert(item: Entry<V>)
      modifies this
      ensures items == UpsertOne(old(items), item)
    {
      for i := 0 to |items|
        invariant items == old(items)
        invariant forall k :: 0 <= k < i ==> items[k].key != item.key
      {
        if items[i].key == item.key {
          assert Position(items, item.key) == i;
          items := items[i := item];
          return;
        }
      }
      items := items + [item];
    }

    /** UpsertEnvVars, UpsertVolumes and UpsertVolumeMounts. */
    method UpsertEach(up: seq<Entry<V>>)
      modifies this
      ensures items == UpsertAll(old(items), up)
    {
      for i := 0 to |up|
        invariant items == UpsertAll(old(items), up[..i])
      {
        assert up[..i + 1][..i] == up[..i];
        Upsert(up[i]);
      }
      assert up[..|up|] == up;
    }
  }

  // ---- the map behind the list ----

  function ValueAt<V>(s: seq<Entry<V>>, key: Option<string>): (r: Option<V>)
  {
    var i := Position(s, key);
    if i < |s| then Some(s[i].value) else None
  }

  /** The last value the upserts give the key. */
  function Given<V>(es: seq<Entry<V>>, key: Option<string>): (r: Option<V>)
  {
    if es == [] then None
    else if es[|es| - 1].key == key then Some(es[|es| - 1].value)
    else Given(es[..|es| - 1], key)
  }

  ghost predicate UniqueKeys<V>(s: seq<Entry<V>>)
  {
    forall i, j :: 0 <= i < j < |s| ==> s[i].key != s[j].key
  }

  lemma PositionIs<V>(s: seq<Entry<V>>, key: Option<string>, i: nat)
    requires i < |s| && s[i].key == key && forall k :: 0 <= k < i ==> s[k].key != key
    ensures Position(s, key) == i
  { }

  lemma PositionMissing<V>(s: seq<Entry<V>>, key: Option<string>)
    requires forall k :: 0 <= k < |s| ==> s[k].key != key
    ensures Position(s, key) == |s|
  { }

  /** One upsert is one map update. */
  lemma UpsertOneView<V>(s: seq<Entry<V>>, e: Entry<V>, key: Option<string>)
    ensures ValueAt(UpsertOne(s, e), key) == if key == e.key then Some(e.value) else ValueAt(s, key)
  {
    var r := UpsertOne(s, e);
    var k, i := Position(s, e.key), Position(s, key);
    if key == e.key {
      PositionIs(r, key, k);
    } else if i < |s| {
      PositionIs(r, key, i);
    } else {
      PositionMissing(r, key);
    }
  }

  /** Upserting a list overrides the map, entry by entry. */
  lemma {:induction false} UpsertAllView<V>(s: seq<Entry<V>>, es: seq<Entry<V>>, key: Option<string>)
    ensures ValueAt(UpsertAll(s, es), key) == if Given(es, key).Some? then Given(es, key) else ValueAt(s, key)
  {
    if es != [] {
      hide UpsertOne, ValueAt;
      UpsertAllView(s, es[..|es| - 1], key);
      UpsertOneView(UpsertAll(s, es[..|es| - 1]), es[|es| - 1], key);
    }
  }

  lemma UpsertOneUnique<V>(s: seq<Entry<V>>, e: Entry<V>)
    requires UniqueKeys(s)
    ensures UniqueKeys(UpsertOne(s, e))
  { }

  lemma {:induction false} UpsertAllUnique<V>(s: seq<Entry<V>>, es: seq<Entry<V>>)
    requires UniqueKeys(s)
    ensures UniqueKeys(UpsertAll(s, es))
  {
    if es != [] {
      hide UpsertOne, UniqueKeys;
      UpsertAllUnique(s, es[..|es| - 1]);
      UpsertOneUnique(UpsertAll(s, es[..|es| - 1]), es[|es| - 1]);
    }
  }

  /** Old entries keep their positions; new keys come after them. */
  lemma {:induction false} UpsertAllKeepsPositions<V>(s: seq<Entry<V>>, es: seq<Entry<V>>)
    ensures |s| <= |UpsertAll(s, es)|
    ensures forall i :: 0 <= i < |s| ==> UpsertAll(s, es)[i].key == s[i].key
  {
    if es != [] {
      UpsertAllKeepsPositions(s, es[..|es| - 1]);
    }
  }

  /** Upserts of keys that are all present already move no key. */
  lemma {:induction false} PresentKeysStay<V>(s: seq<Entry<V>>, es: seq<Entry<V>>)
    requires forall i :: 0 <= i < |es| ==> Position(s, es[i].key) < |s|
    ensures |UpsertAll(s, es)| == |s|
    ensures forall i :: 0 <= i < |s| ==> UpsertAll(s, es)[i].key == s[i].key
    ensures forall i :: 0 <= i < |s| && Position(s, s[i].key) != i ==> UpsertAll(s, es)[i] == s[i]
  {
    if es != [] {
      var n := |es| - 1;
      var front := es[..n];
      forall i | 0 <= i < |front| ensures Position(s, front[i].key) < |s| { assert front[i] == es[i]; }
      PresentKeysStay(s, front);
      SameKeysSamePosition(s, UpsertAll(s, front), es[n].key);
    }
  }

  lemma SameKeysSamePosition<V>(a: seq<Entry<V>>, b: seq<Entry<V>>, key: Option<string>)
    requires |a| == |b| && forall i :: 0 <= i < |a| ==> a[i].key == b[i].key
    ensures Position(a, key) == Position(b, key)
  { }

  lemma {:induction false} GivenKeysArePresent<V>(s: seq<Entry<V>>, es: seq<Entry<V>>, i: nat)
    requires i < |es|
    ensures Position(UpsertAll(s, es), es[i].key) < |UpsertAll(s, es)| && Given(es, es[i].key).Some?
  {
    GivenSome(es, i);
    UpsertAllView(s, es, es[i].key);
  }

  lemma {:induction false} GivenSome<V>(es: seq<Entry<V>>, i: nat)
    requires i < |es|
    ensures Given(es, es[i].key).Some?
  {
    if i < |es| - 1 {
      GivenSome(es[..|es| - 1], i);
    }
  }

  /** Repeating the upserts is a no-op. */
  lemma UpsertIsIdempotent<V>(s: seq<Entry<V>>, es: seq<Entry<V>>)
    ensures UpsertAll(UpsertAll(s, es), es) == UpsertAll(s, es)
  {
    var once := UpsertAll(s, es);
    var twice := UpsertAll(once, es);
    forall i | 0 <= i < |es| ensures Position(once, es[i].key) < |once| {
      GivenKeysArePresent(s, es, i);
    }
    PresentKeysStay(once, es);
    hide UpsertAll, Given;
    forall i | 0 <= i < |once| ensures twice[i] == once[i] {
      var key := once[i].key;
      if Position(once, key) == i {
        SameKeysSamePosition(once, twice, key);
        UpsertAllView(once, es, key);
        UpsertAllView(s, es, key);
      }
    }
  }

  // ---- container ports ----

  /** protocol is None for the default, TCP. */
  datatype Port = Port(name: Option<string>, number: Option<int>, protocol: Option<string>, content: int)

  const TCP: string := "TCP"

  /** byContainerPortOrName. */
  predicate SamePort(a: Port, b: Port)
  {
    || (a.name.Some? && b.name.Some? && a.name == b.name)
    || (a.number == b.number && a.protocol.GetOr(TCP) == b.protocol.GetOr(TCP))
  }

  function PortPosition(s: seq<Port>, p: Port): (r: nat)
    ensures r <= |s|
    ensures r < |s| ==> SamePort(s[r], p)
    ensures forall i :: 0 <= i < r ==> !SamePort(s[i], p)
  {
    if s == [] then 0 else if SamePort(s[0], p) then 0 else 1 + PortPosition(s[1..], p)
  }

  function UpsertPort(s: seq<Port>, p: Port): (r: seq<Port>)
  {
    var i := PortPosition(s, p);
    if i < |s| then s[i := p] else s + [p]
  }

  function UpsertPorts(s: seq<Port>, ps: seq<Port>): (r: seq<Port>)
  {
    if ps == [] then s else UpsertPort(UpsertPorts(s, ps[..|ps| - 1]), ps[|ps| - 1])
  }

  class PortList {
    var items: seq<Port>

    constructor (items: seq<Port>)
      ensures this.items == items
    {
      this.items := items;
    }

    method Upsert(p: Port)
      modifies this
      ensures items == UpsertPort(old(items), p)
    {
      for i := 0 to |items|
        invariant items == old(items)
        invariant forall k :: 0 <= k < i ==> !SamePort(items[k], p)
      {
        if SamePort(items[i], p) {
          assert PortPosition(items, p) == i;
          items := items[i := p];
          return;
        }
      }
      items := items + [p];
    }

    /** UpsertPort. */
    method UpsertEach(ps: seq<Port>)
      modifies this
      ensures items == UpsertPorts(old(items), ps)
    {
      for i := 0 to |ps|
        invariant items == UpsertPorts(old(items), ps[..i])
      {
        assert ps[..i + 1][..i] == ps[..i];
        Upsert(ps[i]);
      }
      assert ps[..|ps|] == ps;
    }
  }

  ghost predicate DistinctPorts(s: seq<Port>)
  {
    forall i, j :: 0 <= i < j < |s| ==> !SamePort(s[i], s[j])
  }

  /** No two entries share a name, and no two a container port and a protocol, where an entry
      without a protocol has TCP. */
  lemma DistinctPortsMeaning(s: seq<Port>)
    ensures DistinctPorts(s) <==>
            forall i, j :: 0 <= i < j < |s| ==>
              && (s[i].name.None? || s[j].name.None? || s[i].name.value != s[j].name.value)
              && (s[i].number != s[j].number || s[i].protocol.GetOr("TCP") != s[j].protocol.GetOr("TCP"))
  {
    if DistinctPorts(s) {
      forall i, j | 0 <= i < j < |s|
        ensures s[i].name.None? || s[j].name.None? || s[i].name.value != s[j].name.value
        ensures s[i].number != s[j].number || s[i].protocol.GetOr("TCP") != s[j].protocol.GetOr("TCP")
      {
        assert !SamePort(s[i], s[j]);
      }
    }
  }

  /** At most one entry matches the new port. */
  ghost predicate MatchesAtMostOne(s: seq<Port>, p: Port)
  {
    forall i, j :: 0 <= i < j < |s| ==> !(SamePort(s[i], p) && SamePort(s[j], p))
  }

  /** The match is not transitive, so an upsert keeps the ports pairwise distinct exactly when
      the new port matches at most one of them. */
  lemma PortsStayDistinct(s: seq<Port>, p: Port)
    requires DistinctPorts(s)
    ensures DistinctPorts(UpsertPort(s, p)) <==> MatchesAtMostOne(s, p)
  {
    hide SamePort;
    var r, k := UpsertPort(s, p), PortPosition(s, p);
    SamePortSymmetric();
    if MatchesAtMostOne(s, p) {
      forall i, j | 0 <= i < j < |r| ensures !SamePort(r[i], r[j]) {
        if i == k {
          assert j < |s| && r[j] == s[j] && !(SamePort(s[i], p) && SamePort(s[j], p));
        } else if j == k {
          assert r[i] == s[i];
        }
      }
    } else {
      var i, j :| 0 <= i < j < |s| && SamePort(s[i], p) && SamePort(s[j], p);
      assert k <= i && k < j && r[k] == p && r[j] == s[j];
      assert SamePort(r[k], r[j]);
    }
  }

  /** Each port in turn matches at most one entry of the list it is upserted into. */
  ghost predicate EachMatchesAtMostOne(s: seq<Port>, ps: seq<Port>)
  {
    ps == [] ||
    (EachMatchesAtMostOne(s, ps[..|ps| - 1]) && MatchesAtMostOne(UpsertPorts(s, ps[..|ps| - 1]), ps[|ps| - 1]))
  }

  lemma {:induction false} AllPortsStayDistinct(s: seq<Port>, ps: seq<Port>)
    requires DistinctPorts(s) && EachMatchesAtMostOne(s, ps)
    ensures DistinctPorts(UpsertPorts(s, ps))
  {
    if ps != [] {
      hide DistinctPorts, MatchesAtMostOne, UpsertPort;
      AllPortsStayDistinct(s, ps[..|ps| - 1]);
      PortsStayDistinct(UpsertPorts(s, ps[..|ps| - 1]), ps[|ps| - 1]);
    }
  }

  lemma SamePortSymmetric()
    ensures forall a, b :: SamePort(a, b) <==> SamePort(b, a)
  { }

  /** Renaming a port to a number another entry already has leaves two entries for one port. */
  lemma PortClash() returns (s: seq<Port>, p: Port)
    ensures DistinctPorts(s) && !DistinctPorts(UpsertPort(s, p))
  {
    var http := Port(Some("http"), Some(80), None, 0);
    var https := Port(Some("https"), Some(443), None, 0);
    s, p := [http, https], Port(Some("http"), Some(443), None, 1);
    assert http.name.value[|http.name.value| - 1] == 'p' && https.name.value[|https.name.value| - 1] == 's';
    assert UpsertPort(s, p) == [p, https];
    assert SamePort(UpsertPort(s, p)[0], UpsertPort(s, p)[1]);
  }
}
