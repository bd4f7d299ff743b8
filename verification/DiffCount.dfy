/** How often things count: the diff's numbers are numbers of paths. */
module DiffCount {
  import opened JsonValue
  import opened Keys
  import opened Merge
  import opened Diff
  import opened Drift

  lemma {:induction false} DistinctIsSet<T>(s: seq<T>)
    requires Distinct(s)
    ensures |set x | x in s| == |s|
  {
    if s != [] {
      var n := |s| - 1;
      DistinctIsSet(s[..n]);
      assert s == s[..n] + [s[n]] && s[n] !in s[..n];
      assert (set x | x in s) == (set x | x in s[..n]) + {s[n]};
    }
  }

  // ----- Each path once -----

  lemma BelowKey(path: Path, b: Slot, l: Slot, kind: Change, k: string, q: Path)
    requires kind != Unchanged && q in WalkDiff(path + [k], Child(b, k), Child(l, k)).Of(kind)
    ensures |q| > |path| && q[|path|] == k
  {
    hide WalkDiff;
    DiffIsExact(path + [k], Child(b, k), Child(l, k), kind, q);
    assert q[..|path| + 1] == path + [k];
  }

  lemma {:induction false} KeysAreDistinct(path: Path, b: Slot, l: Slot, keys: seq<string>, kind: Change)
    requires kind != Unchanged && b.IsObject() && l.IsObject() && Distinct(keys)
    ensures Distinct(WalkKeys(path, b, l, keys).Of(kind))
    decreases l.Present?, l.OrNull(), 0, |keys|
  {
    hide DeepEqual;
    if keys != [] {
      var n := |keys| - 1;
      var before, more := WalkKeys(path, b, l, keys[..n]).Of(kind), WalkDiff(path + [keys[n]], Child(b, keys[n]), Child(l, keys[n])).Of(kind);
      KeysAreDistinct(path, b, l, keys[..n], kind);
      WalkIsDistinct(path + [keys[n]], Child(b, keys[n]), Child(l, keys[n]), kind);
      forall q | q in before ensures q !in more {
        WalkKeysMembers(path, b, l, keys[..n], kind, q);
        var k :| k in keys[..n] && q in WalkDiff(path + [k], Child(b, k), Child(l, k)).Of(kind);
        BelowKey(path, b, l, kind, k, q);
        if q in more { BelowKey(path, b, l, kind, keys[n], q); }
      }
      DistinctConcat(before, more);
    }
  }

  lemma {:induction false} WalkIsDistinct(path: Path, b: Slot, l: Slot, kind: Change)
    requires kind != Unchanged
    ensures Distinct(WalkDiff(path, b, l).Of(kind))
    decreases l.Present?, l.OrNull(), 1
  {
    hide DeepEqual;
    if b.IsObject() && l.IsObject() && !DeepEqual(b.v, l.v) {
      KeysAreDistinct(path, b, l, UnionKeys([b, l]), kind);
    }
  }

  lemma BucketIs(b: Slot, l: Slot, kind: Change) returns (paths: set<Path>)
    requires kind != Unchanged
    ensures forall p: Path :: p in paths <==> DiffAt(b, l, p) == kind
    ensures |paths| == |WalkDiff([], b, l).Of(kind)|
  {
    var bucket := WalkDiff([], b, l).Of(kind);
    WalkIsDistinct([], b, l, kind);
    DistinctIsSet(bucket);
    paths := set p | p in bucket;
    forall p: Path ensures p in paths <==> DiffAt(b, l, p) == kind {
      DiffIsExact([], b, l, kind, p);
      assert p[0..] == p;
    }
  }

  /** The three numbers of a diff are the numbers of paths that changed, came in, or went. */
  lemma DiffCounts(base: Value, local: Value) returns (changed: set<Path>, added: set<Path>, deleted: set<Path>)
    ensures forall p: Path :: p in changed <==> DiffAt(Present(base), Present(local), p) == Changed
    ensures forall p: Path :: p in added <==> DiffAt(Present(base), Present(local), p) == Added
    ensures forall p: Path :: p in deleted <==> DiffAt(Present(base), Present(local), p) == Deleted
    ensures var d := DiffJSON(base, local); d.changed == |changed| && d.added == |added| && d.deleted == |deleted|
  {
    hide WalkDiff, DiffAt;
    changed := BucketIs(Present(base), Present(local), Changed);
    added := BucketIs(Present(base), Present(local), Added);
    deleted := BucketIs(Present(base), Present(local), Deleted);
  }

  /** Together they are the number of paths at which the two values differ. */
  lemma DiffTotal(base: Value, local: Value) returns (paths: set<Path>)
    ensures forall p: Path :: p in paths <==> Differs(Present(base), Present(local), p)
    ensures var d := DiffJSON(base, local); |paths| == d.changed + d.added + d.deleted
  {
    hide DiffAt, DiffJSON;
    var changed, added, deleted := DiffCounts(base, local);
    paths := changed + added + deleted;
    assert |changed + added| == |changed| + |added|;
    assert |paths| == |changed + added| + |deleted|;
  }

  // ----- Remote's labels that are not local's -----

  function Missing(keys: seq<string>, known: seq<string>): nat {
    if keys == [] then 0 else (if keys[0] in known then 0 else 1) + Missing(keys[1..], known)
  }

  lemma RemoteOnlyNext(path: string, remoteKeys: seq<string>, localKeys: seq<string>)
    requires remoteKeys != []
    ensures var k, t, more := remoteKeys[0], RemoteOnly(path, remoteKeys, localKeys), RemoteOnly(path, remoteKeys[1..], localKeys);
            && t.pull == (if k in localKeys then 0 else 1) + more.pull && t.push == more.push && t.conflicts == more.conflicts
            && t.ops == (if k in localKeys then [] else [MirrorOp(Pull, path + ":" + k)]) + more.ops
            && t.mergeConflicts == [] + more.mergeConflicts && t.changedKeys == [] + more.changedKeys
  {
  }

  predicate UnknownPull(op: MirrorOp, path: string, remoteKeys: seq<string>, localKeys: seq<string>) {
    exists k :: k in remoteKeys && k !in localKeys && op == MirrorOp(Pull, path + ":" + k)
  }

  lemma UnknownPullNext(op: MirrorOp, path: string, remoteKeys: seq<string>, localKeys: seq<string>)
    requires remoteKeys != []
    ensures UnknownPull(op, path, remoteKeys, localKeys) <==>
              (remoteKeys[0] !in localKeys && op == MirrorOp(Pull, path + ":" + remoteKeys[0])) || UnknownPull(op, path, remoteKeys[1..], localKeys)
  {
    assert forall x :: x in remoteKeys <==> x == remoteKeys[0] || x in remoteKeys[1..];
  }

  lemma {:induction false} RemoteOnlyOps(path: string, remoteKeys: seq<string>, localKeys: seq<string>, op: MirrorOp)
    ensures op in RemoteOnly(path, remoteKeys, localKeys).ops <==> UnknownPull(op, path, remoteKeys, localKeys)
  {
    hide RemoteOnly, UnknownPull;
    if remoteKeys == [] {
      RemoteOnlyNone(path, localKeys);
      NoUnknownPull(op, path, localKeys);
    } else {
      RemoteOnlyOps(path, remoteKeys[1..], localKeys, op);
      RemoteOnlyNext(path, remoteKeys, localKeys);
      UnknownPullNext(op, path, remoteKeys, localKeys);
    }
  }

  lemma NoUnknownPull(op: MirrorOp, path: string, localKeys: seq<string>)
    ensures !UnknownPull(op, path, [], localKeys)
  {
  }

  lemma RemoteOnlyNone(path: string, localKeys: seq<string>)
    ensures RemoteOnly(path, [], localKeys) == NO_TALLY && Missing([], localKeys) == 0
  {
  }

  lemma MissingNext(keys: seq<string>, known: seq<string>)
    requires keys != []
    ensures Missing(keys, known) == (if keys[0] in known then 0 else 1) + Missing(keys[1..], known)
  {
  }

  lemma {:induction false} RemoteOnlyCounters(path: string, remoteKeys: seq<string>, localKeys: seq<string>)
    ensures var t := RemoteOnly(path, remoteKeys, localKeys);
            t.pull == Missing(remoteKeys, localKeys) && t.push == 0 && t.conflicts == 0 && t.mergeConflicts == [] && t.changedKeys == []
  {
    hide RemoteOnly, Missing;
    if remoteKeys == [] {
      RemoteOnlyNone(path, localKeys);
    } else {
      RemoteOnlyCounters(path, remoteKeys[1..], localKeys);
      RemoteOnlyNext(path, remoteKeys, localKeys);
      MissingNext(remoteKeys, localKeys);
    }
  }

  lemma RemoteOnlyIsMissing(path: string, remoteKeys: seq<string>, localKeys: seq<string>)
    ensures RemoteOnly(path, remoteKeys, localKeys).pull == Missing(remoteKeys, localKeys)
    ensures RemoteOnly(path, remoteKeys, localKeys).push == 0 && RemoteOnly(path, remoteKeys, localKeys).conflicts == 0
    ensures RemoteOnly(path, remoteKeys, localKeys).mergeConflicts == [] && RemoteOnly(path, remoteKeys, localKeys).changedKeys == []
    ensures forall op :: op in RemoteOnly(path, remoteKeys, localKeys).ops <==>
                         exists k :: k in remoteKeys && k !in localKeys && op == MirrorOp(Pull, path + ":" + k)
  {
    hide RemoteOnly, Missing;
    RemoteOnlyCounters(path, remoteKeys, localKeys);
    forall op ensures op in RemoteOnly(path, remoteKeys, localKeys).ops <==>
                      exists k :: k in remoteKeys && k !in localKeys && op == MirrorOp(Pull, path + ":" + k)
    {
      RemoteOnlyOps(path, remoteKeys, localKeys, op);
    }
  }

  lemma {:induction false} InsertMisses(k: string, s: seq<string>, known: seq<string>)
    ensures Missing(Insert(k, s), known) == (if k in known then 0 else 1) + Missing(s, known)
  {
    if s != [] && Less(s[0], k) { InsertMisses(k, s[1..], known); }
  }

  lemma {:induction false} SortMisses(s: seq<string>, known: seq<string>)
    ensures Missing(Sort(s), known) == Missing(s, known)
  {
    if s != [] {
      SortMisses(s[1..], known);
      InsertMisses(s[0], Sort(s[1..]), known);
    }
  }

  function Unknown(ps: seq<Path>, known: seq<string>): set<Path> { set p | p in ps && Label(p) !in known }

  lemma UnknownStep(ps: seq<Path>, known: seq<string>)
    requires ps != [] && ps[0] !in ps[1..]
    ensures ps[0] !in Unknown(ps[1..], known)
    ensures Unknown(ps, known) == Unknown(ps[1..], known) + if Label(ps[0]) in known then {} else {ps[0]}
  {
    hide Label;
    assert ps == [ps[0]] + ps[1..];
  }

  lemma {:induction false} LabelsMiss(ps: seq<Path>, known: seq<string>)
    requires Distinct(ps)
    ensures Missing(Labels(ps), known) == |Unknown(ps, known)|
  {
    hide Label, Unknown;
    if ps == [] {
      NothingUnknown(known);
    } else {
      LabelsMiss(ps[1..], known);
      UnknownStep(ps, known);
      LabelsNext(ps);
    }
  }

  lemma NothingUnknown(known: seq<string>)
    ensures Unknown([], known) == {}
  {
  }

  lemma LabelsNext(ps: seq<Path>)
    requires ps != []
    ensures Labels(ps)[0] == Label(ps[0]) && Labels(ps)[1..] == Labels(ps[1..])
  {
    hide Label;
  }

  lemma AllIsDistinct(b: Slot, l: Slot)
    ensures Distinct(WalkDiff([], b, l).All()) && forall p: Path :: p in WalkDiff([], b, l).All() <==> Differs(b, l, p)
  {
    hide WalkDiff, DiffAt;
    var w := WalkDiff([], b, l);
    WalkIsDistinct([], b, l, Changed);
    WalkIsDistinct([], b, l, Added);
    WalkIsDistinct([], b, l, Deleted);
    forall p: Path ensures p in w.All() <==> Differs(b, l, p) { WalkAll(b, l, p); }
    forall p: Path ensures !(p in w.changed && p in w.added) && !(p in w.changed && p in w.deleted) && !(p in w.added && p in w.deleted) {
      DiffIsExact([], b, l, Changed, p);
      DiffIsExact([], b, l, Added, p);
      DiffIsExact([], b, l, Deleted, p);
    }
    DistinctConcat(w.changed, w.added);
    DistinctConcat(w.changed + w.added, w.deleted);
  }

  /** The pulls of a file compared by key are the paths remote changed under labels local did not. */
  lemma RemoteOnlyCountsPaths(path: string, base: Value, local: Value, remote: Value) returns (paths: set<Path>)
    ensures forall p: Path :: p in paths <==>
              Differs(Present(base), Present(remote), p)
              && !exists q: Path :: Differs(Present(base), Present(local), q) && Label(q) == Label(p)
    ensures RemoteOnly(path, DiffJSON(base, remote).keys, DiffJSON(base, local).keys).pull == |paths|
  {
    var all := WalkDiff([], Present(base), Present(remote)).All();
    var known := DiffJSON(base, local).keys;
    AllIsDistinct(Present(base), Present(remote));
    DiffKeysAreLabels(base, local);
    RemoteOnlyIsMissing(path, DiffJSON(base, remote).keys, known);
    SortMisses(Labels(all), known);
    LabelsMiss(all, known);
    paths := Unknown(all, known);
  }
}
