/** What a merge reports and in which order: the values of a conflict, the members of a merged object. */
module MergeOrder {
  import opened JsonValue
  import opened Keys
  import opened Merge

  // ----- The values of a conflict -----

  // The reported value of a side: null stands for absence.
  predicate Carries(side: Slot, v: Value) { if side.Present? then v == side.v else v == Null }

  /** Each conflict carries base's, local's, and remote's values at its path, each in its own field. */
  lemma ConflictsCarryTheSides(b: Slot, l: Slot, r: Slot, c: Conflict)
    requires c in MergeSlot([], b, l, r).conflicts
    ensures Carries(At(b, c.path), c.base) && Carries(At(l, c.path), c.local) && Carries(At(r, c.path), c.remote)
  {
    ConflictsAreExact([], b, l, r, c);
    assert c.path[0..] == c.path;
  }

  // ----- Order -----

  function KeysOf(s: Slot): seq<string> { if s.IsObject() then ObjectKeys(s.v) else [] }

  /** Base's members in their order, then local's new ones, then remote's new ones. */
  function KeyOrder(b: Slot, l: Slot, r: Slot): seq<string> {
    AppendNew(AppendNew(KeysOf(b), KeysOf(l)), KeysOf(r))
  }

  lemma UnionIsKeyOrder(b: Slot, l: Slot, r: Slot)
    ensures UnionKeys([b, l, r]) == KeyOrder(b, l, r)
  {
    hide ObjectKeys;
    assert [b, l, r][..2] == [b, l] && [b, l][..1] == [b] && [b][..0] == [];
    assert UnionKeys([b]) == KeysOf(b) by {
      if b.IsObject() {
        ObjectKeysDistinct(b.v);
        assert [] + ObjectKeys(b.v) == ObjectKeys(b.v);
        AppendNewDistinct([], ObjectKeys(b.v));
      }
    }
  }

  lemma ObjectKeysDistinct(o: Value)
    requires o.Obj?
    ensures Distinct(ObjectKeys(o))
  {
  }

  // An object whose key list holds its members, each once.
  ghost predicate InStep(o: Value) {
    o.Obj? && Distinct(o.keys) && forall k :: k in o.keys <==> k in o.m
  }

  lemma InStepKeys(o: Value)
    requires InStep(o)
    ensures ObjectKeys(o) == o.keys
  {
    FilterAll(o.keys, o.m.Keys);
    assert [] + o.keys == o.keys;
    AppendNewDistinct([], o.keys);
    assert o.m.Keys - (set k | k in o.keys) == {};
  }

  lemma {:induction false} FilterSnoc(keys: seq<string>, k: string, keep: set<string>)
    ensures Filter(keys + [k], keep) == Filter(keys, keep) + if k in keep then [k] else []
  {
    if keys == [] {
      assert (keys + [k])[1..] == [];
    } else {
      assert (keys + [k])[1..] == keys[1..] + [k];
      FilterSnoc(keys[1..], k, keep);
    }
  }

  lemma {:induction false} FilterSame(keys: seq<string>, keep: set<string>, more: set<string>)
    requires forall k :: k in keys ==> (k in keep <==> k in more)
    ensures Filter(keys, keep) == Filter(keys, more)
  {
    if keys != [] { FilterSame(keys[1..], keep, more); }
  }

  lemma {:induction false} MergedKeys(path: Path, b: Slot, l: Slot, r: Slot, keys: seq<string>)
    requires l.IsObject() && Distinct(keys)
    ensures var o := MergeKeys(path, b, l, r, keys).0;
            InStep(o) && o.keys == Filter(keys, o.m.Keys) && forall k :: k in o.m ==> k in keys
    decreases |keys|
  {
    hide MergeSlot, Filter;
    if keys == [] {
      FilterNone(EMPTY_OBJECT.m.Keys);
    } else {
      var n := |keys| - 1;
      MergedKeys(path, b, l, r, keys[..n]);
      var before, o := MergeKeys(path, b, l, r, keys[..n]).0, MergeKeys(path, b, l, r, keys).0;
      assert keys == keys[..n] + [keys[n]] && keys[n] !in keys[..n];
      assert o == before || (o.m.Keys == before.m.Keys + {keys[n]} && o.keys == before.keys + [keys[n]]);
      KeyAdded(keys[..n], keys[n], before, o);
    }
  }

  lemma FilterNone(keep: set<string>)
    ensures Filter([], keep) == []
  {
  }

  lemma KeyAdded(keys: seq<string>, k: string, before: Value, o: Value)
    requires InStep(before) && o.Obj? && k !in keys && k !in before.m && before.keys == Filter(keys, before.m.Keys)
    requires o == before || (o.m.Keys == before.m.Keys + {k} && o.keys == before.keys + [k])
    ensures InStep(o) && o.keys == Filter(keys + [k], o.m.Keys)
  {
    hide Filter;
    FilterSnoc(keys, k, o.m.Keys);
    FilterSame(keys, before.m.Keys, o.m.Keys);
    assert Filter(keys, o.m.Keys) + [] == Filter(keys, o.m.Keys);
  }

  /**
   Wherever the merge went into two objects, the result lists base's surviving members first, then
   local's, then remote's; anywhere else it is one side's value as that side has it, order included.
   */
  lemma {:induction false} MergeKeepsOrder(path: Path, b: Slot, l: Slot, r: Slot, p: Path)
    ensures var m := At(MergeSlot(path, b, l, r).slot, p);
            || m == At(l, p)
            || m == At(r, p)
            || (m.IsObject() && KeysOf(m) == Filter(KeyOrder(At(b, p), At(l, p), At(r, p)), m.v.m.Keys))
    decreases |p|
  {
    hide MergeSlot, DeepEqual, ObjectKeys, UnionKeys, KeyOrder;
    MergeStep(path, b, l, r);
    if Recurses(b, l, r) {
      if p == [] {
        RecursedKeys(path, b, l, r);
      } else {
        MergeKeepsOrder(path + [p[0]], Child(b, p[0]), Child(l, p[0]), Child(r, p[0]), p[1..]);
      }
    }
  }

  lemma RecursedKeys(path: Path, b: Slot, l: Slot, r: Slot)
    requires Recurses(b, l, r)
    ensures var m := MergeSlot(path, b, l, r).slot;
            m.IsObject() && KeysOf(m) == Filter(KeyOrder(b, l, r), m.v.m.Keys)
  {
    hide DeepEqual, UnionKeys, ObjectKeys, KeyOrder, MergeKeys;
    UnionIsKeyOrder(b, l, r);
    MergedKeys(path, b, l, r, UnionKeys([b, l, r]));
    InStepKeys(MergeSlot(path, b, l, r).slot.v);
  }

  // Of two paths, the one whose first key of its own comes earlier in the order of the merged object.
  ghost predicate Precedes(b: Slot, l: Slot, r: Slot, p: Path, q: Path)
    decreases |p|
  {
    p != [] && q != [] &&
    if p[0] == q[0] then Precedes(Child(b, p[0]), Child(l, p[0]), Child(r, p[0]), p[1..], q[1..])
    else ComesBefore(KeyOrder(b, l, r), p[0], q[0])
  }

  predicate ComesBefore(keys: seq<string>, x: string, y: string) {
    exists i, j :: 0 <= i < j < |keys| && keys[i] == x && keys[j] == y
  }

  ghost predicate InOrder(path: Path, b: Slot, l: Slot, r: Slot, cs: seq<Conflict>) {
    && (forall i :: 0 <= i < |cs| ==> path <= cs[i].path)
    && forall i, j :: 0 <= i < j < |cs| ==> Precedes(b, l, r, cs[i].path[|path|..], cs[j].path[|path|..])
  }

  lemma InOrderBelow(path: Path, b: Slot, l: Slot, r: Slot, k: string, cs: seq<Conflict>)
    requires InOrder(path + [k], Child(b, k), Child(l, k), Child(r, k), cs)
    ensures InOrder(path, b, l, r, cs)
    ensures forall i :: 0 <= i < |cs| ==> |cs[i].path| > |path| && cs[i].path[|path|] == k
  {
    hide KeyOrder;
    forall i | 0 <= i < |cs| ensures path <= cs[i].path && |cs[i].path| > |path| && cs[i].path[|path|] == k {
      assert cs[i].path[..|path| + 1] == path + [k];
      assert cs[i].path[..|path|] == (path + [k])[..|path|];
    }
    forall i, j | 0 <= i < j < |cs| ensures Precedes(b, l, r, cs[i].path[|path|..], cs[j].path[|path|..]) {
      var p, q := cs[i].path[|path|..], cs[j].path[|path|..];
      assert p[0] == k && q[0] == k && p[1..] == cs[i].path[|path + [k]|..] && q[1..] == cs[j].path[|path + [k]|..];
    }
  }

  // The conflicts of the first keys of the order.
  lemma {:induction false} KeysInOrder(path: Path, b: Slot, l: Slot, r: Slot, keys: seq<string>)
    requires Recurses(b, l, r) && keys <= KeyOrder(b, l, r) && Distinct(keys)
    ensures var cs := MergeKeys(path, b, l, r, keys).1;
            InOrder(path, b, l, r, cs) && forall i :: 0 <= i < |cs| ==> |cs[i].path| > |path| && cs[i].path[|path|] in keys
    decreases l.Present?, l.OrNull(), 0, |keys|
  {
    hide KeyOrder, DeepEqual;
    if keys != [] {
      var n := |keys| - 1;
      var k := keys[n];
      KeysInOrder(path, b, l, r, keys[..n]);
      var before := MergeKeys(path, b, l, r, keys[..n]).1;
      var more := MergeSlot(path + [k], Child(b, k), Child(l, k), Child(r, k)).conflicts;
      ConflictsInOrder(path + [k], Child(b, k), Child(l, k), Child(r, k));
      InOrderBelow(path, b, l, r, k, more);
      assert MergeKeys(path, b, l, r, keys).1 == before + more;
      Joined(path, b, l, r, keys, before, more);
    }
  }

  lemma KeyPrecedes(path: Path, b: Slot, l: Slot, r: Slot, keys: seq<string>, x: Conflict, y: Conflict)
    requires keys != [] && keys <= KeyOrder(b, l, r) && Distinct(keys) && |x.path| > |path| && |y.path| > |path|
    requires x.path[|path|] in keys[..|keys| - 1] && y.path[|path|] == keys[|keys| - 1]
    ensures Precedes(b, l, r, x.path[|path|..], y.path[|path|..])
  {
    hide KeyOrder;
    var k, n := x.path[|path|], |keys| - 1;
    var at :| 0 <= at < n && keys[at] == k;
    assert KeyOrder(b, l, r)[at] == k && KeyOrder(b, l, r)[n] == keys[n];
    assert ComesBefore(KeyOrder(b, l, r), k, keys[n]);
  }

  lemma Joined(path: Path, b: Slot, l: Slot, r: Slot, keys: seq<string>, before: seq<Conflict>, more: seq<Conflict>)
    requires keys != [] && keys <= KeyOrder(b, l, r) && Distinct(keys) && InOrder(path, b, l, r, before) && InOrder(path, b, l, r, more)
    requires forall i :: 0 <= i < |before| ==> |before[i].path| > |path| && before[i].path[|path|] in keys[..|keys| - 1]
    requires forall i :: 0 <= i < |more| ==> |more[i].path| > |path| && more[i].path[|path|] == keys[|keys| - 1]
    ensures InOrder(path, b, l, r, before + more)
    ensures forall i :: 0 <= i < |before + more| ==> |(before + more)[i].path| > |path| && (before + more)[i].path[|path|] in keys
  {
    hide KeyOrder, Precedes, Distinct;
    var cs, n := before + more, |keys| - 1;
    assert forall k :: k in keys[..n] ==> k in keys;
    forall i, j | 0 <= i < j < |cs| ensures Precedes(b, l, r, cs[i].path[|path|..], cs[j].path[|path|..]) {
      if i < |before| <= j { KeyPrecedes(path, b, l, r, keys, cs[i], cs[j]); }
    }
  }

  /** Conflicts are listed in the order of the merged members, depth first, and no path twice. */
  lemma {:induction false} ConflictsInOrder(path: Path, b: Slot, l: Slot, r: Slot)
    ensures InOrder(path, b, l, r, MergeSlot(path, b, l, r).conflicts)
    decreases l.Present?, l.OrNull(), 1
  {
    hide KeyOrder, DeepEqual, UnionKeys;
    MergeStep(path, b, l, r);
    if Recurses(b, l, r) {
      UnionIsKeyOrder(b, l, r);
      KeysInOrder(path, b, l, r, UnionKeys([b, l, r]));
    } else {
      assert forall c :: c in ConflictsHere(path, b, l, r) ==> c.path == path;
    }
  }
}
