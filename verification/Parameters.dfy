/** Search parameters travel to a trial as prefixed environment variables and are read back
    from them for the search history and for the best result. */
module Parameters {
  import opened Common
  import opened OptimizationTypes
  import opened StringOrder

  const PREFIX: string := "KUBEFLOW_TRAINER_OPT_"

  predicate IsParameter(e: EnvVar)
  {
    PREFIX <= e.name
  }

  function EncodeOne(a: Assignment): (e: EnvVar)
  {
    EnvVar(PREFIX + a.name, a.value)
  }

  function Encode(params: seq<Assignment>): (r: seq<EnvVar>)
    ensures |r| == |params|
  {
    seq(|params|, i requires 0 <= i < |params| => EncodeOne(params[i]))
  }

  function Decoded(e: EnvVar): (a: Assignment)
    requires IsParameter(e)
  {
    Assignment(e.name[|PREFIX|..], e.value)
  }

  function Decode(env: seq<EnvVar>): (r: seq<Assignment>)
  {
    if env == [] then []
    else if IsParameter(env[0]) then [Decoded(env[0])] + Decode(env[1..])
    else Decode(env[1..])
  }

  /** The loop that appends one variable per suggested parameter to the template's own. */
  method AppendParameters(templateEnv: Option<seq<EnvVar>>, params: seq<Assignment>) returns (env: seq<EnvVar>)
    ensures env == templateEnv.GetOr([]) + Encode(params)
  {
    env := templateEnv.GetOr([]);
    for i := 0 to |params|
      invariant env == templateEnv.GetOr([]) + Encode(params[..i])
    {
      env := env + [EnvVar(PREFIX + params[i].name, params[i].value)];
      assert Encode(params[..i + 1]) == Encode(params[..i]) + [EncodeOne(params[i])];
    }
    assert params[..|params|] == params;
  }

  /** The loop that rebuilds the assignments of a trial for the suggestion request. */
  method ReadAssignments(env: seq<EnvVar>) returns (r: seq<Assignment>)
    ensures r == Decode(env)
  {
    r := [];
    for i := 0 to |env|
      invariant r == Decode(env[..i])
    {
      DecodePrefix(env, i);
      if IsParameter(env[i]) {
        r := r + [Decoded(env[i])];
      }
    }
    assert env[..|env|] == env;
  }

  lemma {:induction false} DecodeConcat(a: seq<EnvVar>, b: seq<EnvVar>)
    ensures Decode(a + b) == Decode(a) + Decode(b)
  {
    if a == [] {
      assert a + b == b;
    } else {
      assert (a + b)[1..] == a[1..] + b;
      DecodeConcat(a[1..], b);
    }
  }

  lemma DecodePrefix(env: seq<EnvVar>, i: nat)
    requires i < |env|
    ensures Decode(env[..i + 1])
         == Decode(env[..i]) + (if IsParameter(env[i]) then [Decoded(env[i])] else [])
  {
    assert env[..i + 1] == env[..i] + [env[i]];
    DecodeConcat(env[..i], [env[i]]);
  }

  lemma {:induction false} DecodeEncode(params: seq<Assignment>)
    ensures Decode(Encode(params)) == params
  {
    if params != [] {
      DecodeEncode(params[1..]);
      assert Encode(params) == [EncodeOne(params[0])] + Encode(params[1..]);
      assert EncodeOne(params[0]).name[|PREFIX|..] == params[0].name;
    }
  }

  lemma {:induction false} NoneDecoded(env: seq<EnvVar>)
    ensures Decode(env) == [] <==> forall e :: e in env ==> !IsParameter(e)
  {
    if env != [] {
      NoneDecoded(env[1..]);
      assert env == [env[0]] + env[1..];
    }
  }

  /** A trial built from the template reads back exactly the suggested assignments, in order,
      if and only if the template itself sets no prefixed variable. */
  lemma RoundTrip(templateEnv: Option<seq<EnvVar>>, params: seq<Assignment>)
    ensures Decode(templateEnv.GetOr([]) + Encode(params)) == params
       <==> forall e :: e in templateEnv.GetOr([]) ==> !IsParameter(e)
  {
    var t := templateEnv.GetOr([]);
    DecodeConcat(t, Encode(params));
    DecodeEncode(params);
    NoneDecoded(t);
    if Decode(t) != [] {
      assert |Decode(t) + params| > |params|;
    }
  }

  /** The variables a trial gets: the template's own, then for each parameter its name behind the
      prefix, with its value. */
  lemma TrialVariables(templateEnv: Option<seq<EnvVar>>, params: seq<Assignment>)
    ensures var own, env := templateEnv.GetOr([]), templateEnv.GetOr([]) + Encode(params);
      && |env| == |own| + |params| && env[..|own|] == own
      && forall i :: 0 <= i < |params| ==>
           env[|own| + i] == EnvVar("KUBEFLOW_TRAINER_OPT_" + params[i].name, params[i].value)
  {
    var own, env := templateEnv.GetOr([]), templateEnv.GetOr([]) + Encode(params);
    forall i | 0 <= i < |params|
      ensures env[|own| + i] == EnvVar("KUBEFLOW_TRAINER_OPT_" + params[i].name, params[i].value)
    {
      assert env[|own| + i] == Encode(params)[i];
    }
  }

  /** What is read back: exactly the prefixed variables, each as its name behind the prefix and
      its value. */
  lemma {:induction false} DecodedVariables(env: seq<EnvVar>, a: Assignment)
    ensures a in Decode(env) <==> EnvVar("KUBEFLOW_TRAINER_OPT_" + a.name, a.value) in env
  {
    if env != [] {
      DecodedVariables(env[1..], a);
      assert env == [env[0]] + env[1..];
      if IsParameter(env[0]) {
        assert env[0].name == PREFIX + env[0].name[|PREFIX|..];
        assert (PREFIX + a.name)[|PREFIX|..] == a.name;
      } else {
        assert PREFIX <= PREFIX + a.name;
      }
    }
  }

  // ---- the parameters reported with the best result ----

  function ParameterNames(d: seq<Assignment>): (r: seq<string>)
    ensures |r| == |d|
    ensures forall i :: 0 <= i < |d| ==> r[i] == d[i].name
  {
    seq(|d|, i requires 0 <= i < |d| => d[i].name)
  }

  /** paramMap: the last value written under each name. */
  function LastValues(d: seq<Assignment>): (m: map<string, string>)
    ensures forall n :: n in m <==> n in ParameterNames(d)
  {
    if d == [] then map[]
    else
      var last := d[|d| - 1];
      assert ParameterNames(d) == ParameterNames(d[..|d| - 1]) + [last.name];
      LastValues(d[..|d| - 1])[last.name := last.value]
  }

  /** Go's map read: the empty string for a missing key. */
  function ValueOf(m: map<string, string>, n: string): (r: string)
  {
    if n in m then m[n] else ""
  }

  function Lookup(names: seq<string>, m: map<string, string>): (r: seq<Assignment>)
    ensures |r| == |names|
    ensures forall i :: 0 <= i < |names| ==> r[i] == Assignment(names[i], ValueOf(m, names[i]))
  {
    seq(|names|, i requires 0 <= i < |names| => Assignment(names[i], ValueOf(m, names[i])))
  }

  function SortedParameters(d: seq<Assignment>): (r: seq<Assignment>)
  {
    Lookup(Sort(ParameterNames(d)), LastValues(d))
  }

  lemma AppendAssignment(d: seq<Assignment>, a: Assignment)
    ensures ParameterNames(d + [a]) == ParameterNames(d) + [a.name]
    ensures LastValues(d + [a]) == LastValues(d)[a.name := a.value]
  { }

  /** The first loop of ExtractBestResult once the best trial is known. */
  method CollectParameters(env: seq<EnvVar>) returns (names: seq<string>, paramMap: map<string, string>)
    ensures names == ParameterNames(Decode(env)) && paramMap == LastValues(Decode(env))
  {
    paramMap := map[];
    names := [];
    ghost var d: seq<Assignment> := [];
    for i := 0 to |env|
      invariant d == Decode(env[..i])
      invariant names == ParameterNames(d) && paramMap == LastValues(d)
    {
      DecodePrefix(env, i);
      if IsParameter(env[i]) {
        var a := Decoded(env[i]);
        AppendAssignment(d, a);
        d := d + [a];
        names := names + [a.name];
        paramMap := paramMap[a.name := a.value];
      }
    }
    assert env[..|env|] == env;
  }

  /** The rest of ExtractBestResult: sort the names, then list one pair per name. */
  method ReportParameters(env: seq<EnvVar>) returns (r: seq<Assignment>)
    ensures r == SortedParameters(Decode(env))
  {
    var names, paramMap := CollectParameters(env);
    names := Sort(names);
    r := [];
    for i := 0 to |names|
      invariant |r| == i
      invariant forall k :: 0 <= k < i ==> r[k] == Assignment(names[k], ValueOf(paramMap, names[k]))
    {
      r := r + [Assignment(names[i], ValueOf(paramMap, names[i]))];
    }
  }

  /** No name is given two values. */
  ghost predicate Consistent(d: seq<Assignment>)
  {
    forall i, j :: 0 <= i < |d| && 0 <= j < |d| && d[i].name == d[j].name ==> d[i].value == d[j].value
  }

  ghost predicate DistinctParameterNames(d: seq<Assignment>)
  {
    Distinct(ParameterNames(d))
  }

  lemma {:induction false} LastValueOf(d: seq<Assignment>, i: nat)
    requires i < |d| && Consistent(d)
    ensures LastValues(d)[d[i].name] == d[i].value
  {
    var n := |d| - 1;
    var front := d[..n];
    assert ParameterNames(d)[i] == d[i].name;
    if i < n {
      assert front[i] == d[i] && ParameterNames(front)[i] == d[i].name;
      assert Consistent(front);
      LastValueOf(front, i);
    }
  }

  /** i is the last index of its name. */
  ghost predicate LastOfName(d: seq<Assignment>, i: nat)
  {
    i < |d| && forall j :: i < j < |d| ==> d[j].name != d[i].name
  }

  lemma {:induction false} LastValueIsLast(d: seq<Assignment>, i: nat)
    requires LastOfName(d, i)
    ensures d[i].name in LastValues(d) && LastValues(d)[d[i].name] == d[i].value
  {
    var n := |d| - 1;
    assert ParameterNames(d)[i] == d[i].name;
    if i < n {
      assert d[n].name != d[i].name;
      assert LastOfName(d[..n], i);
      LastValueIsLast(d[..n], i);
    }
  }

  lemma {:induction false} LastIndexOf(d: seq<Assignment>, name: string) returns (i: nat)
    requires name in ParameterNames(d)
    ensures LastOfName(d, i) && d[i].name == name
  {
    var n := |d| - 1;
    if d[n].name == name {
      i := n;
    } else {
      var k := IndexOf(ParameterNames(d), name);
      assert ParameterNames(d[..n])[k] == name;
      i := LastIndexOf(d[..n], name);
    }
  }

  /** Whatever the trial's assignments are, each name is reported as often as it occurs and with
      the value of its last occurrence. */
  lemma ReportedValueIsLast(d: seq<Assignment>, x: Assignment)
    ensures multiset(ParameterNames(SortedParameters(d))) == multiset(ParameterNames(d))
    ensures x in SortedParameters(d) ==> exists i: nat :: LastOfName(d, i) && d[i] == x
  {
    var names := ParameterNames(d);
    assert ParameterNames(SortedParameters(d)) == Sort(names);
    SortPermutes(names);
    SortMembers(names);
    hide Sort;
    if x in SortedParameters(d) {
      var k := IndexOf(SortedParameters(d), x);
      assert Sort(names)[k] == x.name;
      var i := LastIndexOf(d, x.name);
      LastValueIsLast(d, i);
      assert d[i] == x;
    }
  }

  lemma LookupTail(a: seq<string>, m: map<string, string>)
    requires a != []
    ensures Lookup(a, m)[0] == Assignment(a[0], ValueOf(m, a[0])) && Lookup(a, m)[1..] == Lookup(a[1..], m)
  {
    hide ValueOf;
  }

  /** Counting x in a looked-up list is counting its name, if that name has x's value. */
  ghost predicate CountsNames(a: seq<string>, m: map<string, string>, x: Assignment)
  {
    Count(Lookup(a, m), x) == if ValueOf(m, x.name) == x.value then Count(a, x.name) else 0
  }

  lemma CountOneMore(a: seq<string>, m: map<string, string>, x: Assignment)
    requires a != [] && CountsNames(a[1..], m, x)
    ensures CountsNames(a, m, x)
  {
    hide Lookup, ValueOf, Count;
    LookupTail(a, m);
    CountTail(Lookup(a, m), x);
    CountTail(a, x.name);
  }

  lemma {:induction false} LookupCount(a: seq<string>, m: map<string, string>, x: Assignment)
    ensures CountsNames(a, m, x)
  {
    if a != [] {
      LookupCount(a[1..], m, x);
      CountOneMore(a, m, x);
      hide CountsNames;
    }
  }

  lemma LookupPermutes(a: seq<string>, b: seq<string>, m: map<string, string>)
    requires multiset(a) == multiset(b)
    ensures multiset(Lookup(a, m)) == multiset(Lookup(b, m))
  {
    forall x ensures multiset(Lookup(a, m))[x] == multiset(Lookup(b, m))[x] {
      LookupCount(a, m, x);
      LookupCount(b, m, x);
    }
  }

  lemma LookupOwn(d: seq<Assignment>)
    requires Consistent(d)
    ensures Lookup(ParameterNames(d), LastValues(d)) == d
  {
    forall i | 0 <= i < |d| ensures Lookup(ParameterNames(d), LastValues(d))[i] == d[i] {
      LastValueOf(d, i);
    }
  }

  /** The reported parameters come sorted by name. They are exactly the trial's assignments
      if and only if the trial never gives one name two values. */
  lemma ReportedParameters(d: seq<Assignment>)
    ensures Ascending(ParameterNames(SortedParameters(d)))
    ensures multiset(SortedParameters(d)) == multiset(d) <==> Consistent(d)
  {
    hide Sort, Ascending, LastValues;
    var r := SortedParameters(d);
    SortMembers(ParameterNames(d));
    SortPermutes(ParameterNames(d));
    SortAscends(ParameterNames(d));
    assert ParameterNames(r) == Sort(ParameterNames(d));
    if Consistent(d) {
      LookupPermutes(Sort(ParameterNames(d)), ParameterNames(d), LastValues(d));
      LookupOwn(d);
    }
    if multiset(r) == multiset(d) {
      forall i | 0 <= i < |d| ensures d[i].value == ValueOf(LastValues(d), d[i].name) {
        assert d[i] in multiset(d);
        assert d[i] in r;
      }
    }
  }

  /** With distinct names the reported list is the assignments sorted strictly by name. */
  lemma ReportedParametersDistinct(d: seq<Assignment>)
    requires DistinctParameterNames(d)
    ensures multiset(SortedParameters(d)) == multiset(d)
    ensures var r := SortedParameters(d); forall i, j :: 0 <= i < j < |r| ==> Less(r[i].name, r[j].name)
  {
    hide SortedParameters, Less;
    DistinctIsConsistent(d);
    ReportedParameters(d);
    var r := SortedParameters(d);
    var names := ParameterNames(r);
    forall i, j | 0 <= i < j < |r| ensures Less(r[i].name, r[j].name) {
      ReportedValueIsLast(d, r[i]);
      PermutedDistinct(ParameterNames(d), names);
      assert names[i] != names[j] && !Less(names[j], names[i]);
      Total(names[i], names[j]);
    }
  }

  lemma DistinctIsConsistent(d: seq<Assignment>)
    requires DistinctParameterNames(d)
    ensures Consistent(d)
  {
    assert forall i :: 0 <= i < |d| ==> ParameterNames(d)[i] == d[i].name;
  }
}
