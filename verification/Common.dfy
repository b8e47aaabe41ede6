/** Types and sequence helpers shared by every component. */
module Common {

  /** A value that may be absent: Go's nil and two-valued lookups. */
  datatype Option<+T> = None | Some(value: T) {
    function GetOr(default: T): (r: T)
    {
      if Some? then value else default
    }
  }

  /** The effect of one API write. A failed call may still have reached the store
      (a timeout after the server committed), so failure carries that choice. */
  datatype ApiWrite = Accepted | Rejected(stored: bool) {
    predicate Takes()
    {
      Accepted? || stored
    }
  }

  /** x sits at some index of s. */
  lemma IndexOf<T>(s: seq<T>, x: T) returns (i: nat)
    requires x in s
    ensures i < |s| && s[i] == x
  {
    i :| 0 <= i < |s| && s[i] == x;
  }

  /** How often x occurs in s. */
  ghost function Count<T>(s: seq<T>, x: T): (r: nat)
  {
    multiset(s)[x]
  }

  lemma CountTail<T>(s: seq<T>, x: T)
    requires s != []
    ensures Count(s, x) == Count(s[1..], x) + (if x == s[0] then 1 else 0)
  {
    assert s == [s[0]] + s[1..];
  }

  /** What fetching the object to be reconciled yields. */
  datatype Fetch = Found | Gone | FetchError

  ghost predicate Distinct<T>(s: seq<T>)
  {
    forall i, j :: 0 <= i < j < |s| ==> s[i] != s[j]
  }

  lemma DistinctConcat<T>(a: seq<T>, b: seq<T>)
    requires Distinct(a) && Distinct(b) && forall x :: x in a ==> x !in b
    ensures Distinct(a + b)
  {
    forall i, j | 0 <= i < j < |a + b| ensures (a + b)[i] != (a + b)[j] {
      if i < |a| <= j {
        assert a[i] in a && b[j - |a|] in b;
      }
    }
  }

  lemma {:induction false} DistinctCount<T>(s: seq<T>, x: T)
    requires Distinct(s)
    ensures multiset(s)[x] <= 1
  {
    if s != [] {
      var n := |s| - 1;
      DistinctCount(s[..n], x);
      assert s == s[..n] + [s[n]];
      assert s[n] !in s[..n];
    }
  }

  /** A permutation of distinct elements is distinct. */
  lemma PermutedDistinct<T>(a: seq<T>, b: seq<T>)
    requires Distinct(a) && multiset(b) == multiset(a)
    ensures Distinct(b)
  {
    forall i, j | 0 <= i < j < |b| ensures b[i] != b[j] {
      DistinctCount(a, b[i]);
      assert b == b[..i] + [b[i]] + b[i + 1..j] + [b[j]] + b[j + 1..];
    }
  }
}
