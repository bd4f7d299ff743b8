/** The path-set diff of two JSON trees, and the dotted labels the program prints for paths. */
module Diff {
  import opened JsonValue
  import opened Keys
  import opened Merge

  datatype Change = Unchanged | Added | Deleted | Changed

  datatype Buckets = Buckets(changed: seq<Path>, added: seq<Path>, deleted: seq<Path>) {
    function Plus(more: Buckets): Buckets {
      Buckets(changed + more.changed, added + more.added, deleted + more.deleted)
    }
    function All(): seq<Path> { changed + added + deleted }
    function Of(kind: Change): seq<Path> {
      match kind
      case Changed => changed
      case Added => added
      case Deleted => deleted
      case Unchanged => []
    }
  }

  const NO_BUCKETS := Buckets([], [], [])

  function WalkDiff(path: Path, base: Slot, local: Slot): Buckets
    decreases local.Present?, local.OrNull(), 1, 0
  {
    if base.Absent? && local.Absent? then NO_BUCKETS
    else if local.Absent? then NO_BUCKETS.(deleted := [path])
    else if base.Absent? then NO_BUCKETS.(added := [path])
    else if DeepEqual(base.v, local.v) then NO_BUCKETS
    else if base.IsObject() && local.IsObject() then WalkKeys(path, base, local, UnionKeys([base, local]))
    else NO_BUCKETS.(changed := [path])
  }

  function WalkKeys(path: Path, base: Slot, local: Slot, keys: seq<string>): Buckets
    requires local.IsObject()
    decreases local.Present?, local.OrNull(), 0, |keys|
  {
    if keys == [] then NO_BUCKETS
    else
      var n := |keys| - 1;
      WalkKeys(path, base, local, keys[..n]).Plus(
        WalkDiff(path + [keys[n]], Child(base, keys[n]), Child(local, keys[n])))
  }

  /** The dotted spelling of a path; the root is the empty string. */
  function Render(p: Path): string {
    if p == [] then ""
    else
      var parent := Render(p[..|p| - 1]);
      if parent == "" then p[|p| - 1] else parent + "." + p[|p| - 1]
  }

  function Label(p: Path): string {
    if Render(p) == "" then "$" else Render(p)
  }

  function Labels(ps: seq<Path>): (r: seq<string>)
    ensures |r| == |ps|
    ensures forall x :: x in r <==> exists p :: p in ps && Label(p) == x
  {
    if ps == [] then [] else [Label(ps[0])] + Labels(ps[1..])
  }

  datatype DiffResult = DiffResult(changed: nat, added: nat, deleted: nat, keys: seq<string>)

  function DiffJSON(base: Value, local: Value): DiffResult {
    var b := WalkDiff([], Present(base), Present(local));
    DiffResult(|b.changed|, |b.added|, |b.deleted|, Sort(Labels(b.All())))
  }

  // ----- What the diff says about one path -----

  ghost function DiffAt(b: Slot, l: Slot, p: Path): Change
    decreases |p|
  {
    if SameSlot(b, l) then Unchanged
    else if l.Absent? then (if p == [] then Deleted else Unchanged)
    else if b.Absent? then (if p == [] then Added else Unchanged)
    else if b.IsObject() && l.IsObject() then
      (if p == [] then Unchanged else DiffAt(Child(b, p[0]), Child(l, p[0]), p[1..]))
    else (if p == [] then Changed else Unchanged)
  }

  ghost predicate Differs(b: Slot, l: Slot, p: Path) { DiffAt(b, l, p) != Unchanged }

  lemma {:induction false} WalkKeysMembers(path: Path, b: Slot, l: Slot, keys: seq<string>, kind: Change, q: Path)
    requires l.IsObject()
    ensures q in WalkKeys(path, b, l, keys).Of(kind) <==>
            exists k :: k in keys && q in WalkDiff(path + [k], Child(b, k), Child(l, k)).Of(kind)
    decreases |keys|
  {
    hide WalkDiff, DeepEqual, UnionKeys;
    if keys != [] {
      var n := |keys| - 1;
      WalkKeysMembers(path, b, l, keys[..n], kind, q);
      assert keys == keys[..n] + [keys[n]];
    }
  }

  // `q` lies below `path` and changes there in the given way.
  ghost predicate Reports(path: Path, b: Slot, l: Slot, kind: Change, q: Path) {
    path <= q && DiffAt(b, l, q[|path|..]) == kind
  }

  lemma ReportsBelow(path: Path, b: Slot, l: Slot, kind: Change, k: string, q: Path)
    requires b.IsObject() && l.IsObject() && !SameSlot(b, l) && path + [k] <= q
    ensures Reports(path, b, l, kind, q) <==> Reports(path + [k], Child(b, k), Child(l, k), kind, q)
  {
    var p := q[|path|..];
    assert p[0] == k && p[1..] == q[|path + [k]|..];
  }

  /** The diff lists exactly the paths where the two trees part, each under its kind of change. */
  lemma {:induction false} DiffIsExact(path: Path, b: Slot, l: Slot, kind: Change, q: Path)
    requires kind != Unchanged
    ensures q in WalkDiff(path, b, l).Of(kind) <==> Reports(path, b, l, kind, q)
    decreases l.Present?, l.OrNull(), 1
  {
    if b.IsObject() && l.IsObject() && !SameSlot(b, l) {
      DiffOfChildren(path, b, l, kind, q);
    } else if path <= q && q[|path|..] == [] {
      assert q == path;
    }
  }

  lemma {:induction false} DiffOfChildren(path: Path, b: Slot, l: Slot, kind: Change, q: Path)
    requires kind != Unchanged && b.IsObject() && l.IsObject() && !SameSlot(b, l)
    ensures q in WalkDiff(path, b, l).Of(kind) <==> Reports(path, b, l, kind, q)
    decreases l.Present?, l.OrNull(), 0
  {
    hide UnionKeys, WalkKeys, DeepEqual;
    var keys := UnionKeys([b, l]);
    WalkKeysMembers(path, b, l, keys, kind, q);
    if q in WalkDiff(path, b, l).Of(kind) {
      var k :| k in keys && q in WalkDiff(path + [k], Child(b, k), Child(l, k)).Of(kind);
      DiffIsExact(path + [k], Child(b, k), Child(l, k), kind, q);
      ReportsBelow(path, b, l, kind, k, q);
    }
    if Reports(path, b, l, kind, q) {
      var k := q[|path|..][0];
      assert q == path + q[|path|..];
      assert path + [k] <= q;
      ReportsBelow(path, b, l, kind, k, q);
      DiffIsExact(path + [k], Child(b, k), Child(l, k), kind, q);
      assert Child(b, k).Present? || Child(l, k).Present?;
      ListedKey([b, l], k);
    }
  }

  lemma DiffOfObjects(b: Slot, l: Slot, p: Path)
    requires b.IsObject() && l.IsObject()
    ensures DiffAt(b, l, p) == if p == [] then Unchanged else DiffAt(Child(b, p[0]), Child(l, p[0]), p[1..])
  {
    if SameSlot(b, l) && p != [] {
      SameChild(b, l, p[0]);
    }
  }

  // The diff depends on its right-hand tree only up to DeepEqual.
  lemma {:induction false} DiffRespectsEquality(b: Slot, l: Slot, r: Slot, p: Path)
    requires SameSlot(l, r)
    ensures DiffAt(b, l, p) == DiffAt(b, r, p)
    decreases |p|
  {
    SameSymmetric(l, r);
    if SameSlot(b, l) {
      SameTransitive(b, l, r);
    } else {
      if SameSlot(b, r) { SameTransitive(b, r, l); }
      if b.IsObject() && l.IsObject() && p != [] {
        SameChild(l, r, p[0]);
        DiffRespectsEquality(Child(b, p[0]), Child(l, p[0]), Child(r, p[0]), p[1..]);
      }
    }
  }

  /** Two trees that are not DeepEqual have a diff path: an empty diff means equality. */
  lemma {:induction false} DifferenceHasPath(b: Slot, l: Slot) returns (p: Path)
    requires !SameSlot(b, l)
    ensures Differs(b, l, p)
    decreases l.Present?, l.OrNull()
  {
    p := [];
    if b.IsObject() && l.IsObject() {
      if forall k :: SameSlot(Child(b, k), Child(l, k)) { SameObjects(b, l); }
      var k :| !SameSlot(Child(b, k), Child(l, k));
      var rest := DifferenceHasPath(Child(b, k), Child(l, k));
      p := [k] + rest;
      assert p[1..] == rest;
    }
  }

  lemma WalkAll(b: Slot, l: Slot, q: Path)
    ensures q in WalkDiff([], b, l).All() <==> Differs(b, l, q)
  {
    var w := WalkDiff([], b, l);
    DiffIsExact([], b, l, Changed, q);
    DiffIsExact([], b, l, Added, q);
    DiffIsExact([], b, l, Deleted, q);
    var root: Path := [];
    assert q[|root|..] == q && root <= q;
  }

  /** The reported keys are the labels of the differing paths; no key is reported exactly for DeepEqual values. */
  lemma DiffKeysAreLabels(base: Value, local: Value)
    ensures forall x :: x in DiffJSON(base, local).keys <==>
                        exists p :: Differs(Present(base), Present(local), p) && Label(p) == x
    ensures DiffJSON(base, local).keys == [] <==> DeepEqual(base, local)
    ensures var d := DiffJSON(base, local); |d.keys| == d.changed + d.added + d.deleted && Ascending(d.keys)
  {
    var b, l := Present(base), Present(local);
    var all := WalkDiff([], b, l).All();
    forall q ensures q in all <==> Differs(b, l, q) { WalkAll(b, l, q); }
    SortKeepsMembers(Labels(all));
    SortIsAscending(Labels(all));
    if DeepEqual(base, local) {
      SameReflexive(b);
    } else {
      var p := DifferenceHasPath(b, l);
      assert Label(p) in Labels(all);
    }
  }

  // ----- Dotted labels of well-behaved keys are unambiguous -----

  predicate PlainKey(k: string) { k != "" && '.' !in k }

  predicate PlainPath(p: Path) { forall i :: 0 <= i < |p| ==> PlainKey(p[i]) }

  lemma {:induction false} LastSegment(x: string, y: string, j: string, k: string)
    requires '.' !in j && '.' !in k && x + "." + j == y + "." + k
    ensures x == y && j == k
  {
    var s := x + "." + j;
    forall i | |x| < i < |s| ensures s[i] != '.' { assert s[i] == j[i - |x| - 1]; }
    forall i | |y| < i < |s| ensures s[i] != '.' { assert s[i] == (y + "." + k)[i] == k[i - |y| - 1]; }
    assert s[|x|] == '.' && s[|y|] == '.';
    assert x == s[..|x|] && y == s[..|y|] && j == s[|x| + 1..] && k == s[|y| + 1..];
  }

  lemma {:induction false} RenderedDots(p: Path)
    requires p != [] && PlainPath(p)
    ensures Render(p) != "" && ('.' in Render(p) <==> |p| > 1)
  {
    var parent := p[..|p| - 1];
    if parent != [] {
      RenderedDots(parent);
      assert Render(p)[|Render(parent)|] == '.';
    }
  }

  lemma {:induction false} RenderInjective(p: Path, q: Path)
    requires PlainPath(p) && PlainPath(q) && Render(p) == Render(q)
    ensures p == q
  {
    if p != [] { RenderedDots(p); }
    if q != [] { RenderedDots(q); }
    if |p| > 1 {
      var pi, qi := p[..|p| - 1], q[..|q| - 1];
      RenderedDots(pi);
      RenderedDots(qi);
      LastSegment(Render(pi), Render(qi), p[|p| - 1], q[|q| - 1]);
      RenderInjective(pi, qi);
      assert p == pi + [p[|p| - 1]] && q == qi + [q[|q| - 1]];
    }
  }

  // "$" labels only the root unless a key is itself spelled "$".
  lemma LabelInjective(p: Path, q: Path)
    requires PlainPath(p) && PlainPath(q) && p != [] && q != [] && Label(p) == Label(q)
    ensures p == q
  {
    RenderedDots(p);
    RenderedDots(q);
    RenderInjective(p, q);
  }

  // ----- What a dotted spelling is -----

  function Dotted(keys: seq<string>): string {
    if keys == [] then "" else if |keys| == 1 then keys[0] else keys[0] + "." + Dotted(keys[1..])
  }

  function WithoutLeadingEmpty(p: Path): Path { if p != [] && p[0] == "" then WithoutLeadingEmpty(p[1..]) else p }

  lemma {:induction false} DottedSnoc(keys: seq<string>, k: string)
    requires keys != []
    ensures Dotted(keys + [k]) == Dotted(keys) + "." + k
  {
    assert (keys + [k])[1..] == keys[1..] + [k];
    if |keys| > 1 {
      DottedSnoc(keys[1..], k);
      assert keys[0] + "." + (Dotted(keys[1..]) + "." + k) == keys[0] + "." + Dotted(keys[1..]) + "." + k;
    } else {
      assert [k][..] == [k];
    }
  }

  lemma {:induction false} LeadingEmptySnoc(p: Path, k: string)
    ensures WithoutLeadingEmpty(p + [k]) ==
            if WithoutLeadingEmpty(p) != [] then WithoutLeadingEmpty(p) + [k] else if k == "" then [] else [k]
  {
    if p == [] {
      assert p + [k] == [k] && [k][1..] == [];
    } else if p[0] == "" {
      assert (p + [k])[1..] == p[1..] + [k];
      LeadingEmptySnoc(p[1..], k);
    }
  }

  lemma {:induction false} DottedIsEmptyIff(keys: seq<string>)
    ensures Dotted(WithoutLeadingEmpty(keys)) == "" <==> WithoutLeadingEmpty(keys) == []
  {
    if keys != [] && keys[0] == "" { DottedIsEmptyIff(keys[1..]); }
  }

  /** A path is spelled by its keys with dots between them, empty keys at its head left out; the label of an empty spelling is the dollar sign. */
  lemma {:induction false} RenderIs(p: Path)
    ensures Render(p) == Dotted(WithoutLeadingEmpty(p))
    ensures Label(p) == if forall k :: k in p ==> k == "" then "$" else Dotted(WithoutLeadingEmpty(p))
  {
    if p != [] {
      var parent, k := p[..|p| - 1], p[|p| - 1];
      assert p == parent + [k];
      RenderIs(parent);
      LeadingEmptySnoc(parent, k);
      DottedIsEmptyIff(parent);
      if WithoutLeadingEmpty(parent) != [] { DottedSnoc(WithoutLeadingEmpty(parent), k); }
    }
    DottedIsEmptyIff(p);
    AllEmpty(p);
  }

  lemma {:induction false} AllEmpty(p: Path)
    ensures WithoutLeadingEmpty(p) == [] <==> forall k :: k in p ==> k == ""
  {
    if p != [] {
      AllEmpty(p[1..]);
      assert p[0] in p && forall k :: k in p <==> k == p[0] || k in p[1..];
    }
  }
}
