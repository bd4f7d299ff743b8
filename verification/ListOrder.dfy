/** The order of what drift and the pre-push check list, and that they list nothing twice. */
module ListOrder {
  import opened JsonNumber
  import opened Keys
  import opened Merge
  import opened Diff
  import opened DiffCount
  import opened MergeOrder
  import opened Snapshot
  import opened Drift
  import opened Plan
  import opened FileMatrix
  import opened PlanTheorems

  // ----- Files and conflicts of a verdict -----

  ghost predicate RefsOrdered(env: Env, base: Snapshots, local: Snapshots, remote: Snapshots, refs: seq<FileRef>) {
    forall i, j :: 0 <= i < j < |refs| ==> Earlier(env, base, local, remote, refs[i], refs[j])
  }

  lemma {:induction false} PartsOrdered(env: Env, base: Snapshots, local: Snapshots, remote: Snapshots, plan: seq<Action>)
    requires Ordered(env, base, local, remote, plan)
    ensures Ordered(env, base, local, remote, ConflictsOf(plan)) && Ordered(env, base, local, remote, ChangesOf(plan))
  {
    hide Earlier;
    if plan != [] {
      assert forall a :: a in plan[1..] ==> Earlier(env, base, local, remote, plan[0].ref, a.ref);
      PartsOrdered(env, base, local, remote, plan[1..]);
      OrderedConcat(env, base, local, remote, if plan[0].PullConflict? then [plan[0]] else [], ConflictsOf(plan[1..]));
      OrderedConcat(env, base, local, remote, if plan[0].PullConflict? then [] else [plan[0]], ChangesOf(plan[1..]));
    }
  }

  lemma {:induction false} TargetsAre(plan: seq<Action>)
    ensures |Targets(plan)| == |plan| && forall i :: 0 <= i < |plan| ==> Targets(plan)[i] == plan[i].ref
  {
    if plan != [] { TargetsAre(plan[1..]); }
  }

  lemma {:induction false} DedupedOnce(refs: seq<FileRef>, seen: seq<FileRef>)
    requires Distinct(seen)
    ensures Distinct(Deduped(refs, seen))
    decreases |refs|
  {
    if refs != [] { DedupedOnce(refs[1..], if refs[0] in seen then seen else seen + [refs[0]]); }
  }

  lemma {:induction false} DedupedSame(refs: seq<FileRef>, seen: seq<FileRef>)
    requires Distinct(seen + refs)
    ensures Deduped(refs, seen) == seen + refs
    decreases |refs|
  {
    if refs == [] {
      assert seen + refs == seen;
    } else {
      assert (seen + refs)[|seen|] == refs[0];
      assert refs[0] !in seen by { assert forall i :: 0 <= i < |seen| ==> (seen + refs)[i] == seen[i]; }
      assert seen + [refs[0]] + refs[1..] == seen + refs;
      DedupedSame(refs[1..], seen + [refs[0]]);
    }
  }

  lemma {:induction false} NotLess(s: string)
    ensures !Less(s, s)
  {
    if s != "" { NotLess(s[1..]); }
  }

  lemma OrderedIsDistinct(env: Env, base: Snapshots, local: Snapshots, remote: Snapshots, refs: seq<FileRef>)
    requires RefsOrdered(env, base, local, remote, refs)
    ensures Distinct(refs)
  {
    forall i, j | 0 <= i < j < |refs| ensures refs[i] != refs[j] {
      assert Earlier(env, base, local, remote, refs[i], refs[j]);
      NotLess(refs[i].path);
    }
  }

  lemma NamedInOrder(env: Env, base: Snapshots, local: Snapshots, remote: Snapshots, plan: seq<Action>)
    requires Ordered(env, base, local, remote, plan)
    ensures RefsOrdered(env, base, local, remote, RemoteDrivenFiles(plan)) && Distinct(RemoteDrivenFiles(plan))
  {
    hide Earlier, Deduped, ConflictsOf, ChangesOf, Targets;
    PartsOrdered(env, base, local, remote, plan);
    var named := if ChangesOf(plan) != [] then ChangesOf(plan) else ConflictsOf(plan);
    TargetsAre(named);
    OrderedIsDistinct(env, base, local, remote, Targets(named));
    assert [] + Targets(named) == Targets(named);
    DedupedSame(Targets(named), []);
  }

  lemma PushedOnce(drifts: seq<CategoryDrift>, base: Snapshots, local: Snapshots, remote: Snapshots)
    ensures Distinct(PushedFiles(drifts, base, local, remote))
  {
    hide DriftFiles, Deduped;
    DedupedOnce(DriftFiles(drifts, base, local, remote), []);
  }

  /** Remote-ahead names its files, and a conflicts verdict shows its conflicts, in plan order; nothing is listed twice. */
  lemma VerdictInOrder(env: Env, base: Snapshots, local: Snapshots, remote: Snapshots)
    ensures match CheckPushSafety(env, base, local, remote)
            case RemoteAhead(files) => RefsOrdered(env, base, local, remote, files) && Distinct(files)
            case Conflicts(items) => Ordered(env, base, local, remote, items)
            case PushOk(files) => Distinct(files)
  {
    hide PlanPull, ComputeDrift, Total, Strip, PushedFiles, RemoteDrivenFiles, ConflictsOf, Ordered, RefsOrdered, Distinct;
    var plan := PlanPull(env, base, local, remote);
    PlanIsOrdered(env, base, local, remote);
    PartsOrdered(env, base, local, remote, plan);
    NamedInOrder(env, base, local, remote, plan);
    PushedOnce(ComputeDrift(env.round, Strip(env, base), Strip(env, local), Some(Strip(env, remote))),
               Strip(env, base), Strip(env, local), Strip(env, remote));
  }

  // ----- Categories of a drift -----

  /** Adapters and categories stand as base, local, and remote first name them. */
  ghost predicate DriftEarlier(base: Snapshots, local: Snapshots, remote: Snapshots, x: CategoryDrift, y: CategoryDrift) {
    if x.adapter != y.adapter then ComesBefore(UnionIDs(base, local, remote), x.adapter, y.adapter)
    else ComesBefore(DriftNames(x.adapter, base, local, remote), x.category, y.category)
  }

  function DriftNames(id: string, base: Snapshots, local: Snapshots, remote: Snapshots): seq<string> {
    UnionNames(FirstAdapter(base, id), FirstAdapter(local, id), FirstAdapter(remote, id))
  }

  ghost predicate DriftOrdered(base: Snapshots, local: Snapshots, remote: Snapshots, ds: seq<CategoryDrift>) {
    forall i, j :: 0 <= i < j < |ds| ==> DriftEarlier(base, local, remote, ds[i], ds[j])
  }

  lemma DriftConcat(base: Snapshots, local: Snapshots, remote: Snapshots, a: seq<CategoryDrift>, b: seq<CategoryDrift>)
    requires DriftOrdered(base, local, remote, a) && DriftOrdered(base, local, remote, b)
    requires forall x, y :: x in a && y in b ==> DriftEarlier(base, local, remote, x, y)
    ensures DriftOrdered(base, local, remote, a + b)
  {
    hide DriftEarlier;
    forall i, j | 0 <= i < j < |a + b| ensures DriftEarlier(base, local, remote, (a + b)[i], (a + b)[j]) {
      if i < |a| <= j { assert a[i] in a && b[j - |a|] in b; }
    }
  }

  lemma StandsBefore(before: seq<string>, names: seq<string>, later: string)
    requires names != [] && later in names[1..]
    ensures ComesBefore(before + names, names[0], later)
  {
    var j :| 0 <= j < |names[1..]| && names[1..][j] == later;
    var all := before + names;
    assert all[|before|] == names[0] && all[|before| + 1 + j] == later;
  }

  lemma {:induction false} DriftNamesOrdered(round: Rounding, id: string, before: seq<string>, names: seq<string>,
                                             base: Snapshots, local: Snapshots, remote: Snapshots)
    requires before + names == DriftNames(id, base, local, remote)
    ensures var ds := DriftOfNames(round, id, names, FirstAdapter(base, id), FirstAdapter(local, id), FirstAdapter(remote, id));
            DriftOrdered(base, local, remote, ds) && forall d :: d in ds ==> d.adapter == id && d.category in names
    decreases |names|
  {
    hide FilesTally, FindCategory, FirstAdapter, UnionNames, DriftMode, ComesBefore;
    if names != [] {
      var b, l, r := FirstAdapter(base, id), FirstAdapter(local, id), FirstAdapter(remote, id);
      var n, rest := names[0], names[1..];
      assert (before + [n]) + rest == before + names;
      DriftNamesOrdered(round, id, before + [n], rest, base, local, remote);
      var here := DriftOfCategory(round, id, n, FindCategory(b, n), FindCategory(l, n), FindCategory(r, n));
      var more := DriftOfNames(round, id, rest, b, l, r);
      forall x, y | x in here && y in more ensures DriftEarlier(base, local, remote, x, y) { StandsBefore(before, names, y.category); }
      DriftConcat(base, local, remote, here, more);
    }
  }

  lemma {:induction false} DriftIDsOrdered(round: Rounding, before: seq<string>, ids: seq<string>, base: Snapshots, local: Snapshots, remote: Snapshots)
    requires before + ids == UnionIDs(base, local, remote) && Distinct(ids)
    ensures var ds := DriftOfIDs(round, ids, base, local, remote);
            DriftOrdered(base, local, remote, ds) && forall d :: d in ds ==> d.adapter in ids
    decreases |ids|
  {
    hide DriftOfNames, FirstAdapter, UnionNames, UnionIDs, ComesBefore;
    if ids != [] {
      var id, rest := ids[0], ids[1..];
      assert (before + [id]) + rest == before + ids;
      DriftIDsOrdered(round, before + [id], rest, base, local, remote);
      var names := DriftNames(id, base, local, remote);
      assert [] + names == names;
      DriftNamesOrdered(round, id, [], names, base, local, remote);
      var here, more := DriftOfAdapter(round, id, base, local, remote), DriftOfIDs(round, rest, base, local, remote);
      forall x, y | x in here && y in more ensures DriftEarlier(base, local, remote, x, y) {
        var j :| 0 <= j < |rest| && rest[j] == y.adapter;
        assert ids[j + 1] == y.adapter;
        StandsBefore(before, ids, y.adapter);
      }
      DriftConcat(base, local, remote, here, more);
    }
  }

  /** Drift lists adapters and categories as base, local, and remote first name them. */
  lemma DriftIsOrdered(round: Rounding, base: Snapshots, local: Snapshots, remote: Snapshots)
    ensures DriftOrdered(base, local, remote, ComputeDrift(round, base, local, Some(remote)))
  {
    hide DriftOfIDs, DriftOrdered, UnionIDs;
    IDsAreDistinct(base, local, remote);
    var ids := UnionIDs(base, local, remote);
    assert [] + ids == ids;
    DriftIDsOrdered(round, [], ids, base, local, remote);
  }

  // ----- Lists of a category -----

  function Flat<T>(parts: seq<seq<T>>): seq<T> { if parts == [] then [] else Flat(parts[..|parts| - 1]) + parts[|parts| - 1] }

  /** A category's operations, conflicts, and changed keys are those of its files, one file after the other. */
  lemma {:induction false} CategoryListsAre(round: Rounding, mode: string, b: Files, l: Files, r: Files, paths: seq<string>)
    ensures var t := FilesTally(round, mode, b, l, r, paths);
            && t.ops == Flat(seq(|paths|, i requires 0 <= i < |paths| => FileTally(round, mode, b, l, r, paths[i]).ops))
            && t.mergeConflicts == Flat(seq(|paths|, i requires 0 <= i < |paths| => FileTally(round, mode, b, l, r, paths[i]).mergeConflicts))
            && t.changedKeys == Flat(seq(|paths|, i requires 0 <= i < |paths| => FileTally(round, mode, b, l, r, paths[i]).changedKeys))
  {
    hide FileTally;
    if paths != [] {
      var n := |paths| - 1;
      CategoryListsAre(round, mode, b, l, r, paths[..n]);
      var all := seq(|paths|, i requires 0 <= i < |paths| => FileTally(round, mode, b, l, r, paths[i]));
      var ops := seq(|paths|, i requires 0 <= i < |paths| => FileTally(round, mode, b, l, r, paths[i]).ops);
      var conflicts := seq(|paths|, i requires 0 <= i < |paths| => FileTally(round, mode, b, l, r, paths[i]).mergeConflicts);
      var keys := seq(|paths|, i requires 0 <= i < |paths| => FileTally(round, mode, b, l, r, paths[i]).changedKeys);
      assert ops[..n] == seq(n, i requires 0 <= i < n => FileTally(round, mode, b, l, r, paths[..n][i]).ops);
      assert conflicts[..n] == seq(n, i requires 0 <= i < n => FileTally(round, mode, b, l, r, paths[..n][i]).mergeConflicts);
      assert keys[..n] == seq(n, i requires 0 <= i < n => FileTally(round, mode, b, l, r, paths[..n][i]).changedKeys);
    }
  }

  // ----- Keys of a file -----

  lemma {:induction false} PrefixedLess(prefix: string, a: string, b: string)
    requires Less(a, b)
    ensures Less(prefix + a, prefix + b)
  {
    if prefix == "" {
      assert prefix + a == a && prefix + b == b;
    } else {
      assert (prefix + a)[1..] == prefix[1..] + a && (prefix + b)[1..] == prefix[1..] + b;
      PrefixedLess(prefix[1..], a, b);
    }
  }

  predicate AscendingOps(ops: seq<MirrorOp>) { forall i, j :: 0 <= i < j < |ops| ==> !Less(ops[j].path, ops[i].path) }

  lemma PrefixedNotLess(prefix: string, a: string, b: string)
    requires !Less(a, b)
    ensures !Less(prefix + a, prefix + b)
  {
    hide Less;
    LessTotal(a, b);
    if a == b {
      NotLess(prefix + a);
    } else {
      PrefixedLess(prefix, b, a);
      LessAsymmetric(prefix + b, prefix + a);
    }
  }

  lemma {:induction false} RemoteOnlyAscends(path: string, remoteKeys: seq<string>, localKeys: seq<string>)
    requires Ascending(remoteKeys)
    ensures AscendingOps(RemoteOnly(path, remoteKeys, localKeys).ops)
  {
    hide Less, RemoteOnly;
    if remoteKeys == [] {
      RemoteOnlyNone(path, localKeys);
    } else {
      var k, rest := remoteKeys[0], remoteKeys[1..];
      var more := RemoteOnly(path, rest, localKeys).ops;
      RemoteOnlyAscends(path, rest, localKeys);
      RemoteOnlyIsMissing(path, rest, localKeys);
      RemoteOnlyNext(path, remoteKeys, localKeys);
      forall op | op in more ensures !Less(op.path, path + ":" + k) {
        var x :| x in rest && op.path == path + ":" + x;
        PrefixedNotLess(path + ":", x, k);
      }
    }
  }

  lemma PrefixedAscends(path: string, keys: seq<string>)
    requires Ascending(keys)
    ensures Ascending(Prefixed(path, keys))
  {
    hide Less;
    var all := Prefixed(path, keys);
    forall i, j | 0 <= i < j < |all| ensures !Less(all[j], all[i]) { PrefixedNotLess(path + ":", keys[j], keys[i]); }
  }

  lemma RemoteSideAscends(round: Rounding, path: string, b: Option<Entry>, l: Option<Entry>, r: Option<Entry>, localKeys: seq<string>)
    ensures AscendingOps(RemoteSide(round, path, b, l, r, localKeys).ops)
  {
    hide ValueOf, DiffJSON, MergeJSON, RemoteOnly, Less;
    DiffKeysAreLabels(ValueOf(round, b), ValueOf(round, r));
    RemoteOnlyAscends(path, DiffJSON(ValueOf(round, b), ValueOf(round, r)).keys, localKeys);
  }

  /** A file compared by key lists its operations and its changed keys in ascending order. */
  lemma FileListsAscend(round: Rounding, path: string, b: Option<Entry>, l: Option<Entry>, r: Option<Entry>)
    requires ByKey(round, b, l, r)
    ensures AscendingOps(MergeFile(round, path, b, l, r).ops) && Ascending(MergeFile(round, path, b, l, r).changedKeys)
  {
    hide Degraded, ByKey, ValueOf, DiffJSON, RemoteSide, AscendingOps, Ascending, Prefixed;
    ByKeyIsNotWhole(round, b, l, r);
    var d := DiffJSON(ValueOf(round, b), ValueOf(round, l));
    DiffKeysAreLabels(ValueOf(round, b), ValueOf(round, l));
    PrefixedAscends(path, d.keys);
    RemoteSideAscends(round, path, b, l, r, d.keys);
    RemoteSideCountsNoPush(round, path, b, l, r);
    var side, keys := RemoteSide(round, path, b, l, r, d.keys), Prefixed(path, d.keys);
    assert [] + side.ops == side.ops && keys + side.changedKeys == keys;
  }
}
