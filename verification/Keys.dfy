/** Key lists: byte-wise string order, sorting, and the first-seen union the planners iterate over. */
module Keys {

  // Go's string order: lexicographic by byte.
  predicate Less(a: string, b: string) {
    b != [] && (a == [] || a[0] < b[0] || (a[0] == b[0] && Less(a[1..], b[1..])))
  }

  lemma {:induction false} LessTotal(a: string, b: string)
    ensures a == b || Less(a, b) || Less(b, a)
  {
    if a != [] && b != [] && a[0] == b[0] {
      LessTotal(a[1..], b[1..]);
      assert a == [a[0]] + a[1..] && b == [b[0]] + b[1..];
    }
  }

  lemma {:induction false} LessTransitive(a: string, b: string, c: string)
    requires Less(a, b) && Less(b, c)
    ensures Less(a, c) && a != c
  {
    if a != [] && a[0] == b[0] && b[0] == c[0] { LessTransitive(a[1..], b[1..], c[1..]); }
  }

  lemma {:induction false} LessAsymmetric(a: string, b: string)
    requires Less(a, b)
    ensures !Less(b, a) && a != b
  {
    if a != [] && a[0] == b[0] { LessAsymmetric(a[1..], b[1..]); }
  }

  predicate Distinct<T(==)>(s: seq<T>) {
    forall i, j :: 0 <= i < j < |s| ==> s[i] != s[j]
  }

  lemma DistinctConcat<T>(a: seq<T>, b: seq<T>)
    requires Distinct(a) && Distinct(b) && forall x :: x in a ==> x !in b
    ensures Distinct(a + b)
  {
    forall i, j | 0 <= i < j < |a + b| ensures (a + b)[i] != (a + b)[j] {
      if i < |a| <= j { assert a[i] in a && b[j - |a|] in b; }
    }
  }

  predicate Increasing(s: seq<string>) {
    forall i, j :: 0 <= i < j < |s| ==> Less(s[i], s[j])
  }

  predicate IsLeast(k: string, s: set<string>) {
    k in s && forall x :: x in s && x != k ==> Less(k, x)
  }

  lemma {:induction false} LeastExists(s: set<string>)
    requires s != {}
    ensures exists k :: IsLeast(k, s)
    decreases |s|
  {
    var x :| x in s;
    if s == {x} {
      assert IsLeast(x, s);
    } else {
      LeastExists(s - {x});
      var k :| IsLeast(k, s - {x});
      LessTotal(x, k);
      if Less(x, k) {
        forall y | y in s && y != x ensures Less(x, y) { if y != k { LessTransitive(x, k, y); } }
        assert IsLeast(x, s);
      } else {
        assert IsLeast(k, s);
      }
    }
  }

  lemma LeastUnique(s: set<string>, j: string, k: string)
    requires IsLeast(j, s) && IsLeast(k, s)
    ensures j == k
  {
    if j != k { LessAsymmetric(j, k); }
  }

  function Least(s: set<string>): (k: string)
    requires s != {}
    ensures IsLeast(k, s)
  {
    LeastExists(s);
    assert forall j, k :: IsLeast(j, s) && IsLeast(k, s) ==> j == k by {
      forall j, k | IsLeast(j, s) && IsLeast(k, s) ensures j == k { LeastUnique(s, j, k); }
    }
    var k :| IsLeast(k, s);
    k
  }

  /** The elements of a set in byte order: collecting a Go map's keys and sorting them. */
  function Sorted(s: set<string>): (r: seq<string>)
    ensures (forall k :: k in r <==> k in s) && Increasing(r)
    decreases |s|
  {
    if s == {} then [] else
      var k := Least(s);
      [k] + Sorted(s - {k})
  }

  lemma IncreasingIsDistinct(s: seq<string>)
    requires Increasing(s)
    ensures Distinct(s)
  {
    forall i, j | 0 <= i < j < |s| ensures s[i] != s[j] { LessAsymmetric(s[i], s[j]); }
  }

  /** Appends the keys of `more` that are not yet present, in order. */
  function AppendNew(keys: seq<string>, more: seq<string>): (r: seq<string>)
    ensures forall k :: k in r <==> k in keys || k in more
    ensures Distinct(keys) ==> Distinct(r)
    ensures keys <= r
    decreases |more|
  {
    if more == [] then keys
    else AppendNew(if more[0] in keys then keys else keys + [more[0]], more[1..])
  }

  function Filter(keys: seq<string>, keep: set<string>): (r: seq<string>)
    ensures forall k :: k in r <==> k in keys && k in keep
    ensures Distinct(keys) ==> Distinct(r)
  {
    if keys == [] then []
    else
      var rest := Filter(keys[1..], keep);
      if keys[0] in keep then [keys[0]] + rest else rest
  }

  lemma FilterAll(keys: seq<string>, keep: set<string>)
    requires forall k :: k in keys ==> k in keep
    ensures Filter(keys, keep) == keys
  {
  }

  lemma AppendNewDistinct(keys: seq<string>, more: seq<string>)
    requires Distinct(keys + more)
    ensures AppendNew(keys, more) == keys + more
    decreases |more|
  {
    if more != [] {
      forall i | 0 <= i < |keys| ensures keys[i] != more[0] {
        assert (keys + more)[i] == keys[i] && (keys + more)[|keys|] == more[0];
      }
      assert keys + more == keys + [more[0]] + more[1..];
      AppendNewDistinct(keys + [more[0]], more[1..]);
    }
  }

  /** sort.Strings: insertion into a sorted list. */
  function Insert(k: string, s: seq<string>): seq<string> {
    if s == [] || !Less(s[0], k) then [k] + s else [s[0]] + Insert(k, s[1..])
  }

  function Sort(s: seq<string>): seq<string> {
    if s == [] then [] else Insert(s[0], Sort(s[1..]))
  }

  lemma InsertKeepsMembers(k: string, s: seq<string>)
    ensures multiset(Insert(k, s)) == multiset{k} + multiset(s)
  {
    if s != [] { assert s == [s[0]] + s[1..]; }
  }

  lemma {:induction false} SortKeepsMembers(s: seq<string>)
    ensures multiset(Sort(s)) == multiset(s)
    ensures |Sort(s)| == |s| && forall x :: x in Sort(s) <==> x in s
  {
    if s != [] {
      SortKeepsMembers(s[1..]);
      InsertKeepsMembers(s[0], Sort(s[1..]));
      assert s == [s[0]] + s[1..];
    }
    assert |multiset(Sort(s))| == |Sort(s)| && |multiset(s)| == |s|;
    forall x ensures x in Sort(s) <==> x in s { assert (x in multiset(Sort(s))) == (x in multiset(s)); }
  }

  predicate Ascending(s: seq<string>) {
    forall i, j :: 0 <= i < j < |s| ==> !Less(s[j], s[i])
  }

  lemma NotLessTransitive(a: string, b: string, c: string)
    requires !Less(b, a) && !Less(c, b)
    ensures !Less(c, a)
  {
    hide Less;
    LessTotal(a, b);
    LessTotal(b, c);
    if Less(c, a) && a != b && b != c {
      LessTransitive(a, b, c);
      LessAsymmetric(a, c);
    }
  }

  lemma {:induction false} InsertKeepsAscending(k: string, s: seq<string>)
    requires Ascending(s)
    ensures Ascending(Insert(k, s))
  {
    hide Less;
    if s != [] {
      if Less(s[0], k) {
        var r := Insert(k, s[1..]);
        InsertKeepsAscending(k, s[1..]);
        InsertKeepsMembers(k, s[1..]);
        LessAsymmetric(s[0], k);
        forall j | 0 <= j < |r| ensures !Less(r[j], s[0]) {
          assert r[j] in multiset(r);
          if r[j] != k { assert r[j] in s[1..]; }
        }
      } else {
        forall j | 0 <= j < |s| ensures !Less(s[j], k) {
          if j > 0 { NotLessTransitive(k, s[0], s[j]); }
        }
      }
    }
  }

  /** Sorting leaves no element before a smaller one. */
  lemma {:induction false} SortIsAscending(s: seq<string>)
    ensures Ascending(Sort(s))
  {
    if s != [] {
      SortIsAscending(s[1..]);
      InsertKeepsAscending(s[0], Sort(s[1..]));
    }
  }
}
