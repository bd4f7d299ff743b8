/**
 The loops of the merge engine: conflicts and diff paths are appended to shared lists, and merged
 objects are filled in place. Each method is proved against its specification function.
 */
module MergeEngine {
  import opened JsonValue
  import opened Keys
  import opened Merge
  import opened Diff

  class ConflictList {
    var items: seq<Conflict>

    constructor ()
      ensures items == []
    {
      items := [];
    }

    method Append(path: Path, reason: string, base: Slot, local: Slot, remote: Slot)
      modifies this
      ensures items == old(items) + [ConflictHere(path, reason, base, local, remote)]
    {
      var conflict := Conflict(path, reason, Null, Null, Null);
      if base.Present? {
        conflict := conflict.(base := base.v);
      }
      if local.Present? {
        conflict := conflict.(local := local.v);
      }
      if remote.Present? {
        conflict := conflict.(remote := remote.v);
      }
      items := items + [conflict];
    }
  }

  /** An object under construction. */
  class Object {
    var keys: seq<string>
    var m: map<string, Value>

    constructor ()
      ensures View() == EMPTY_OBJECT
    {
      keys, m := [], map[];
    }

    function View(): Value
      reads this
    {
      Obj(keys, m)
    }

    method Put(key: string, v: Value)
      modifies this
      ensures View() == PutObject(old(View()), key, v)
    {
      if key !in m {
        keys := keys + [key];
      }
      m := m[key := v];
    }
  }

  // The listed keys of an object that are members, each at its first place.
  function Listed(o: Value, n: nat): seq<string>
    requires o.Obj? && n <= |o.keys|
  {
    AppendNew([], Filter(o.keys[..n], o.m.Keys))
  }

  lemma ListedStep(o: Value, n: nat)
    requires o.Obj? && n < |o.keys|
    ensures Listed(o, n + 1) == var r := Listed(o, n); if o.keys[n] in o.m && o.keys[n] !in r then r + [o.keys[n]] else r
  {
    hide Filter, AppendNew;
    FilterSnoc(o.keys[..n], o.keys[n], o.m.Keys);
    assert o.keys[..n + 1] == o.keys[..n] + [o.keys[n]];
    if o.keys[n] in o.m {
      AppendNewSnoc([], Filter(o.keys[..n], o.m.Keys), o.keys[n]);
    } else {
      assert Filter(o.keys[..n], o.m.Keys) + [] == Filter(o.keys[..n], o.m.Keys);
    }
  }

  lemma ListedThenExtra(o: Value)
    requires o.Obj?
    ensures var listed := Listed(o, |o.keys|); ObjectKeys(o) == listed + Sorted(o.m.Keys - set k | k in listed)
  {
    hide Filter, Sorted;
    var listed := Listed(o, |o.keys|);
    var extra := Sorted(o.m.Keys - set k | k in listed);
    assert o.keys[..|o.keys|] == o.keys;
    IncreasingIsDistinct(extra);
    DistinctConcat(listed, extra);
    AppendNewDistinct(listed, extra);
  }

  method ListObjectKeys(o: Value) returns (keys: seq<string>)
    requires o.Obj?
    ensures keys == ObjectKeys(o)
  {
    hide Listed, ObjectKeys;
    keys := [];
    ListedNone(o);
    for i := 0 to |o.keys|
      invariant keys == Listed(o, i)
    {
      ListedStep(o, i);
      if o.keys[i] in o.m && o.keys[i] !in keys {
        keys := keys + [o.keys[i]];
      }
    }
    ListedThenExtra(o);
    keys := keys + Sorted(o.m.Keys - set k | k in keys);
  }

  lemma ListedNone(o: Value)
    requires o.Obj?
    ensures Listed(o, 0) == []
  {
  }

  lemma {:induction false} FilterSnoc(keys: seq<string>, k: string, keep: set<string>)
    ensures Filter(keys + [k], keep) == Filter(keys, keep) + (if k in keep then [k] else [])
  {
    if keys == [] {
      assert [k][1..] == [];
    } else {
      assert (keys + [k])[1..] == keys[1..] + [k];
      FilterSnoc(keys[1..], k, keep);
    }
  }

  lemma {:induction false} AppendNewSnoc(keys: seq<string>, more: seq<string>, k: string)
    ensures AppendNew(keys, more + [k]) == var r := AppendNew(keys, more); if k in r then r else r + [k]
    decreases |more|
  {
    if more == [] {
      assert [k][1..] == [];
    } else {
      assert (more + [k])[1..] == more[1..] + [k];
      AppendNewSnoc(if more[0] in keys then keys else keys + [more[0]], more[1..], k);
    }
  }

  lemma AppendNothing(keys: seq<string>)
    ensures AppendNew(keys, []) == keys
  {
  }

  /** Every key of the given objects, in the order in which it is first seen. */
  method UnionObjectKeys(slots: seq<Slot>) returns (keys: seq<string>)
    ensures keys == UnionKeys(slots)
  {
    hide ObjectKeys, AppendNew;
    keys := [];
    for i := 0 to |slots|
      invariant keys == UnionKeys(slots[..i])
    {
      assert slots[..i + 1][..i] == slots[..i];
      if slots[i].IsObject() {
        var more := ListObjectKeys(slots[i].v);
        keys := AddUnseen(keys, more);
      }
    }
    assert slots[..|slots|] == slots;
  }

  method AddUnseen(seen: seq<string>, more: seq<string>) returns (keys: seq<string>)
    ensures keys == AppendNew(seen, more)
  {
    hide AppendNew;
    keys := seen;
    AppendNothing(seen);
    for j := 0 to |more|
      invariant keys == AppendNew(seen, more[..j])
    {
      AppendNewSnoc(seen, more[..j], more[j]);
      assert more[..j + 1] == more[..j] + [more[j]];
      if more[j] !in keys {
        keys := keys + [more[j]];
      }
    }
    assert more[..|more|] == more;
  }

  method MergeSlotInto(path: Path, base: Slot, local: Slot, remote: Slot, conflicts: ConflictList) returns (slot: Slot)
    modifies conflicts
    ensures slot == MergeSlot(path, base, local, remote).slot
    ensures conflicts.items == old(conflicts.items) + MergeSlot(path, base, local, remote).conflicts
    decreases local.Present?, local.OrNull(), 1
  {
    hide UnionKeys, MergeKeys, DeepEqual;
    if SameSlot(local, base) && SameSlot(remote, base) {
      return local;
    }
    if SameSlot(local, base) {
      return remote;
    }
    if SameSlot(remote, base) {
      return local;
    }
    if !local.Present? && !remote.Present? {
      return Absent;
    }
    if !local.Present? || !remote.Present? {
      if !base.Present? {
        return if local.Present? then local else remote;
      }
      conflicts.Append(path, MODIFY_VS_DELETE, base, local, remote);
      return local;
    }
    if DeepEqual(local.v, remote.v) {
      return local;
    }
    if local.IsObject() && remote.IsObject() && (!base.Present? || base.IsObject()) {
      slot := MergeObjectInto(path, base, local, remote, conflicts);
      return;
    }
    if local.IsArray() || remote.IsArray() {
      conflicts.Append(path, ARRAY_BOTH_CHANGED, base, local, remote);
      return local;
    }
    conflicts.Append(path, BOTH_MODIFIED, base, local, remote);
    return local;
  }

  method MergeObjectInto(path: Path, base: Slot, local: Slot, remote: Slot, conflicts: ConflictList) returns (slot: Slot)
    requires local.IsObject()
    modifies conflicts
    ensures var r := MergeKeys(path, base, local, remote, UnionKeys([base, local, remote]));
            slot == Present(r.0) && conflicts.items == old(conflicts.items) + r.1
    decreases local.Present?, local.OrNull(), 0
  {
    hide UnionKeys, MergeSlot;
    var out := new Object();
    var keys := UnionObjectKeys([base, local, remote]);
    for i := 0 to |keys|
      invariant out.View() == MergeKeys(path, base, local, remote, keys[..i]).0
      invariant conflicts.items == old(conflicts.items) + MergeKeys(path, base, local, remote, keys[..i]).1
    {
      var key := keys[i];
      assert keys[..i + 1][..i] == keys[..i];
      var child := MergeSlotInto(path + [key], Child(base, key), Child(local, key), Child(remote, key), conflicts);
      if child.Present? {
        out.Put(key, child.v);
      }
    }
    assert keys[..|keys|] == keys;
    return Present(out.View());
  }

  method MergeValues(base: Value, local: Value, remote: Value) returns (result: MergeResult)
    ensures result == MergeJSON(base, local, remote)
  {
    var conflicts := new ConflictList();
    var resolved := MergeSlotInto([], Present(base), Present(local), Present(remote), conflicts);
    var merged := if resolved.IsObject() then resolved.v else EMPTY_OBJECT;
    var status := "clean";
    if |conflicts.items| != 0 {
      status := "conflict";
    }
    return MergeResult(status, merged, conflicts.items);
  }

  class DiffBuckets {
    var changed: seq<Path>
    var added: seq<Path>
    var deleted: seq<Path>

    constructor ()
      ensures View() == NO_BUCKETS
    {
      changed, added, deleted := [], [], [];
    }

    function View(): Buckets
      reads this
    {
      Buckets(changed, added, deleted)
    }
  }

  method WalkDiffInto(path: Path, base: Slot, local: Slot, buckets: DiffBuckets)
    modifies buckets
    ensures buckets.View() == old(buckets.View()).Plus(WalkDiff(path, base, local))
    decreases local.Present?, local.OrNull(), 1
  {
    hide UnionKeys, WalkKeys, DeepEqual;
    if !base.Present? && !local.Present? {
      return;
    }
    if !local.Present? {
      buckets.deleted := buckets.deleted + [path];
      return;
    }
    if !base.Present? {
      buckets.added := buckets.added + [path];
      return;
    }
    if DeepEqual(base.v, local.v) {
      return;
    }
    if base.IsObject() && local.IsObject() {
      WalkObjectInto(path, base, local, buckets);
      return;
    }
    buckets.changed := buckets.changed + [path];
  }

  method WalkObjectInto(path: Path, base: Slot, local: Slot, buckets: DiffBuckets)
    requires local.IsObject()
    modifies buckets
    ensures buckets.View() == old(buckets.View()).Plus(WalkKeys(path, base, local, UnionKeys([base, local])))
    decreases local.Present?, local.OrNull(), 0
  {
    hide UnionKeys, WalkDiff;
    var keys := UnionObjectKeys([base, local]);
    for i := 0 to |keys|
      invariant buckets.View() == old(buckets.View()).Plus(WalkKeys(path, base, local, keys[..i]))
    {
      assert keys[..i + 1][..i] == keys[..i];
      WalkDiffInto(path + [keys[i]], Child(base, keys[i]), Child(local, keys[i]), buckets);
      PlusAssociates(old(buckets.View()), WalkKeys(path, base, local, keys[..i]),
                     WalkDiff(path + [keys[i]], Child(base, keys[i]), Child(local, keys[i])));
    }
    assert keys[..|keys|] == keys;
  }

  lemma PlusAssociates(a: Buckets, b: Buckets, c: Buckets)
    ensures a.Plus(b).Plus(c) == a.Plus(b.Plus(c))
  {
  }

  lemma NothingPlus(b: Buckets)
    ensures NO_BUCKETS.Plus(b) == b
  {
  }

  method DiffValues(base: Value, local: Value) returns (result: DiffResult)
    ensures result == DiffJSON(base, local)
  {
    hide WalkDiff, Labels, Sort;
    var buckets := new DiffBuckets();
    WalkDiffInto([], Present(base), Present(local), buckets);
    var b := buckets.View();
    NothingPlus(WalkDiff([], Present(base), Present(local)));
    return DiffResult(|b.changed|, |b.added|, |b.deleted|, Sort(Labels(b.All())));
  }
}
