/** Go's string comparison and sort.Strings. */
module StringOrder {

  /** a < b in lexicographic order. */
  predicate Less(a: string, b: string)
  {
    if b == [] then false
    else if a == [] then true
    else a[0] < b[0] || (a[0] == b[0] && Less(a[1..], b[1..]))
  }

  /** What the order is: a is a proper prefix of b, or has the smaller character where they
      first differ. */
  lemma {:induction false} LessMeaning(a: string, b: string)
    ensures Less(a, b) <==> exists k :: DiffersAt(a, b, k)
  {
    if a != [] && b != [] && a[0] == b[0] {
      LessMeaning(a[1..], b[1..]);
      if k :| DiffersAt(a[1..], b[1..], k) {
        assert a[..k + 1] == [a[0]] + a[1..][..k] && b[..k + 1] == [b[0]] + b[1..][..k];
        assert DiffersAt(a, b, k + 1);
      }
      if k :| DiffersAt(a, b, k) {
        assert k > 0;
        assert a[1..][..k - 1] == a[..k][1..] && b[1..][..k - 1] == b[..k][1..];
        assert DiffersAt(a[1..], b[1..], k - 1);
      }
    } else if Less(a, b) {
      assert DiffersAt(a, b, 0);
    }
  }

  /** a and b agree up to k, and there a ends or has the smaller character. */
  predicate DiffersAt(a: string, b: string, k: int)
  {
    0 <= k <= |a| && k < |b| && a[..k] == b[..k] && (k == |a| || a[k] < b[k])
  }

  lemma {:induction false} Irreflexive(a: string)
    ensures !Less(a, a)
  {
    if a != [] {
      Irreflexive(a[1..]);
    }
  }

  lemma {:induction false} Total(a: string, b: string)
    ensures Less(a, b) || a == b || Less(b, a)
  {
    if a != [] && b != [] && a[0] == b[0] {
      Total(a[1..], b[1..]);
      assert a == [a[0]] + a[1..] && b == [b[0]] + b[1..];
    }
  }

  lemma {:induction false} Transitive(a: string, b: string, c: string)
    requires Less(a, b) && Less(b, c)
    ensures Less(a, c)
  {
    if a != [] && a[0] == b[0] == c[0] {
      Transitive(a[1..], b[1..], c[1..]);
    }
  }

  lemma Asymmetric(a: string, b: string)
    requires Less(a, b)
    ensures !Less(b, a) && a != b
  { }

  function Insert(x: string, s: seq<string>): (r: seq<string>)
  {
    if s == [] || !Less(s[0], x) then [x] + s else [s[0]] + Insert(x, s[1..])
  }

  /** sort.Strings: the names in ascending order. */
  function Sort(s: seq<string>): (r: seq<string>)
  {
    if s == [] then [] else Insert(s[0], Sort(s[1..]))
  }

  /** No element is smaller than one before it. */
  predicate Ascending(s: seq<string>)
  {
    forall i, j :: 0 <= i < j < |s| ==> !Less(s[j], s[i])
  }

  lemma {:induction false} InsertPermutes(x: string, s: seq<string>)
    ensures multiset(Insert(x, s)) == multiset(s) + multiset{x}
  {
    if s != [] && Less(s[0], x) {
      InsertPermutes(x, s[1..]);
      assert s == [s[0]] + s[1..];
    }
  }

  lemma {:induction false} SortPermutes(s: seq<string>)
    ensures multiset(Sort(s)) == multiset(s)
  {
    if s != [] {
      SortPermutes(s[1..]);
      InsertPermutes(s[0], Sort(s[1..]));
      assert s == [s[0]] + s[1..];
    }
  }

  lemma {:induction false} InsertAscends(x: string, s: seq<string>)
    requires Ascending(s)
    ensures Ascending(Insert(x, s))
  {
    if s == [] {
    } else if !Less(s[0], x) {
      forall i | 0 <= i < |s| ensures !Less(s[i], x) {
        if Less(s[i], x) && i > 0 {
          Total(s[0], s[i]);
          if Less(s[0], s[i]) { Transitive(s[0], s[i], x); }
        }
      }
    } else {
      InsertAscends(x, s[1..]);
      InsertPermutes(x, s[1..]);
      Asymmetric(s[0], x);
      var rest := Insert(x, s[1..]);
      forall j | 0 <= j < |rest| ensures !Less(rest[j], s[0]) {
        assert rest[j] in multiset(rest);
        assert rest[j] == x || rest[j] in s[1..];
      }
    }
  }

  lemma {:induction false} SortAscends(s: seq<string>)
    ensures Ascending(Sort(s))
  {
    if s != [] {
      SortAscends(s[1..]);
      InsertAscends(s[0], Sort(s[1..]));
    }
  }

  lemma SortMembers(s: seq<string>)
    ensures |Sort(s)| == |s|
    ensures forall x :: x in Sort(s) <==> x in s
  {
    SortPermutes(s);
    assert |multiset(Sort(s))| == |multiset(s)|;
    forall x ensures x in Sort(s) <==> x in s {
      assert x in Sort(s) <==> x in multiset(Sort(s));
      assert x in s <==> x in multiset(s);
    }
  }
}
