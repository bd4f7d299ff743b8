/**
 The loops of the drift engine: the counters of a category are updated in place, file by file. Each
 method is proved against its specification function.
 */
module DriftEngine {
  import opened JsonNumber
  import opened Merge
  import opened Diff
  import opened Snapshot
  import opened Drift
  import MergeEngine

  class CategoryCounter {
    var push: nat
    var pull: nat
    var conflicts: nat
    var ops: seq<MirrorOp>
    var mergeConflicts: seq<FileConflict>
    var changedKeys: seq<string>

    constructor ()
      ensures View() == NO_TALLY
    {
      push, pull, conflicts, ops, mergeConflicts, changedKeys := 0, 0, 0, [], [], [];
    }

    function View(): Tally
      reads this
    {
      Tally(push, pull, conflicts, ops, mergeConflicts, changedKeys)
    }

    method CountMirrorOp(op: MirrorOp)
      modifies this
      ensures View() == old(View()).Plus(CountOp(op))
    {
      ops := ops + [op];
      match op.verdict {
        case Push => push := push + 1;
        case PushDelete => push := push + 1;
        case Pull => pull := pull + 1;
        case PullDelete => pull := pull + 1;
        case Clash(_) => conflicts := conflicts + 1;
        case Noop =>
      }
    }

    method NotePullAt(verdict: Verdict, path: string)
      modifies this
      ensures View() == old(View()).Plus(NotePull(verdict, path))
    {
      pull := pull + 1;
      ops := ops + [MirrorOp(verdict, path)];
    }

    method NoteFileConflict(path: string, reason: string)
      modifies this
      ensures View() == old(View()).Plus(WholeFileConflict(path, reason))
    {
      conflicts := conflicts + 1;
      mergeConflicts := mergeConflicts + [FileConflict(path, path, reason, None, None, None)];
    }

    /** Local's key changes: one push each. */
    method NoteLocalChanges(path: string, diff: DiffResult)
      modifies this
      ensures View() == old(View()).Plus(
                NO_TALLY.(push := diff.changed + diff.added + diff.deleted, changedKeys := Prefixed(path, diff.keys)))
    {
      push := push + diff.changed + diff.added + diff.deleted;
      for i := 0 to |diff.keys|
        invariant View() == old(View()).Plus(
                    NO_TALLY.(push := diff.changed + diff.added + diff.deleted, changedKeys := Prefixed(path, diff.keys[..i])))
      {
        assert Prefixed(path, diff.keys[..i + 1]) == Prefixed(path, diff.keys[..i]) + [path + ":" + diff.keys[i]];
        changedKeys := changedKeys + [path + ":" + diff.keys[i]];
      }
      assert diff.keys[..|diff.keys|] == diff.keys;
    }

    method NoteKeyConflicts(path: string, found: seq<Conflict>)
      modifies this
      ensures View() == old(View()).Plus(NO_TALLY.(conflicts := |found|, mergeConflicts := KeyConflicts(path, found)))
    {
      conflicts := conflicts + |found|;
      for i := 0 to |found|
        invariant View() == old(View()).Plus(NO_TALLY.(conflicts := |found|, mergeConflicts := KeyConflicts(path, found[..i])))
      {
        var conflict := FileConflict(Render(found[i].path), path, found[i].reason, Some(found[i].base), Some(found[i].local), Some(found[i].remote));
        assert KeyConflicts(path, found[..i + 1]) == KeyConflicts(path, found[..i]) + [conflict];
        mergeConflicts := mergeConflicts + [conflict];
      }
      assert found[..|found|] == found;
    }

    /** Remote's key changes that local did not make too: one pull each. */
    method NoteRemoteChanges(path: string, remoteKeys: seq<string>, localKeys: seq<string>)
      modifies this
      ensures View() == old(View()).Plus(RemoteOnly(path, remoteKeys, localKeys))
    {
      NothingMore(View());
      for i := 0 to |remoteKeys|
        invariant View().Plus(RemoteOnly(path, remoteKeys[i..], localKeys)) == old(View()).Plus(RemoteOnly(path, remoteKeys, localKeys))
      {
        assert remoteKeys[i..][1..] == remoteKeys[i + 1..];
        PlusAssociates(View(), if remoteKeys[i] in localKeys then NO_TALLY else NotePull(Pull, path + ":" + remoteKeys[i]),
                       RemoteOnly(path, remoteKeys[i + 1..], localKeys));
        NothingMore(View());
        if remoteKeys[i] !in localKeys {
          NotePullAt(Pull, path + ":" + remoteKeys[i]);
        }
      }
      NothingMore(View());
    }

    /** What one file of a merge category adds. */
    method AccumulateMergeFile(round: Rounding, path: string, base: Option<Entry>, local: Option<Entry>, remote: Option<Entry>)
      modifies this
      ensures View() == old(View()).Plus(MergeFile(round, path, base, local, remote))
    {
      hide DiffJSON, MergeJSON, ValueOf, RemoteOnly, Prefixed, KeyConflicts, ParseEntry;
      NothingMore(View());
      if Degraded(round, base) || Degraded(round, local) || Degraded(round, remote) {
        CountMirrorOp(MirrorOp(CompareFile(base, local, remote), path));
        return;
      }
      if local.None? && remote.None? {
        return;
      }
      var localDiff := MergeEngine.DiffValues(ValueOf(round, base), ValueOf(round, local));
      ghost var counted := NO_TALLY.(push := localDiff.changed + localDiff.added + localDiff.deleted, changedKeys := Prefixed(path, localDiff.keys));
      NoteLocalChanges(path, localDiff);
      AccumulateRemoteSide(round, path, base, local, remote, localDiff.keys);
      PlusAssociates(old(View()), counted, RemoteSide(round, path, base, local, remote, localDiff.keys));
    }

    method AccumulateRemoteSide(round: Rounding, path: string, base: Option<Entry>, local: Option<Entry>, remote: Option<Entry>,
                                localKeys: seq<string>)
      modifies this
      ensures View() == old(View()).Plus(RemoteSide(round, path, base, local, remote, localKeys))
    {
      hide DiffJSON, MergeJSON, ValueOf, RemoteOnly, KeyConflicts;
      NothingMore(View());
      if base.None? {
        if local.None? {
          NotePullAt(Pull, path);
        } else if remote.Some? && local.value.content != remote.value.content {
          NoteFileConflict(path, BOTH_MODIFIED);
        }
        return;
      }
      if local.None? {
        if remote.Some? && remote.value.content != base.value.content {
          NoteFileConflict(path, MODIFY_VS_DELETE);
        }
        return;
      }
      if remote.None? {
        if localKeys == [] {
          NotePullAt(PullDelete, path);
        } else {
          NoteFileConflict(path, MODIFY_VS_DELETE);
        }
        return;
      }
      var result := MergeEngine.MergeValues(ValueOf(round, base), ValueOf(round, local), ValueOf(round, remote));
      NoteKeyConflicts(path, result.conflicts);
      var remoteDiff := MergeEngine.DiffValues(ValueOf(round, base), ValueOf(round, remote));
      NoteRemoteChanges(path, remoteDiff.keys, localKeys);
      PlusAssociates(old(View()), NO_TALLY.(conflicts := |result.conflicts|, mergeConflicts := KeyConflicts(path, result.conflicts)),
                     RemoteOnly(path, remoteDiff.keys, localKeys));
    }
  }

  lemma PlusAssociates(a: Tally, b: Tally, c: Tally)
    ensures a.Plus(b).Plus(c) == a.Plus(b.Plus(c))
  {
  }

  lemma NothingMore(a: Tally)
    ensures a.Plus(NO_TALLY) == a && NO_TALLY.Plus(a) == a
  {
  }

  method CountFiles(round: Rounding, mode: string, base: Files, local: Files, remote: Files) returns (tally: Tally)
    ensures tally == FilesTally(round, mode, base, local, remote, UnionPaths(base, local, remote))
  {
    hide FileTally, UnionPaths;
    var counter := new CategoryCounter();
    var paths := UnionPaths(base, local, remote);
    for i := 0 to |paths|
      invariant counter.View() == FilesTally(round, mode, base, local, remote, paths[..i])
    {
      assert paths[..i + 1][..i] == paths[..i];
      CountFile(counter, round, mode, base, local, remote, paths[i]);
    }
    assert paths[..|paths|] == paths;
    return counter.View();
  }

  method CountFile(counter: CategoryCounter, round: Rounding, mode: string, base: Files, local: Files, remote: Files, path: string)
    modifies counter
    ensures counter.View() == old(counter.View()).Plus(FileTally(round, mode, base, local, remote, path))
  {
    hide MergeFile, CompareFile;
    var b, l, r := EntryAt(base, path), EntryAt(local, path), EntryAt(remote, path);
    if mode == MIRROR {
      counter.CountMirrorOp(MirrorOp(CompareFile(b, l, r), path));
    } else {
      counter.AccumulateMergeFile(round, path, b, l, r);
    }
  }

  /** The drift of all categories, adapter by adapter. */
  method ComputeDriftInOrder(round: Rounding, base: Snapshots, local: Snapshots, remote: Option<Snapshots>) returns (drifts: seq<CategoryDrift>)
    ensures drifts == ComputeDrift(round, base, local, remote)
  {
    hide DriftOfAdapter, UnionIDs;
    var r := if remote.Some? then remote.value else base;
    var ids := UnionIDs(base, local, r);
    drifts := [];
    for i := 0 to |ids|
      invariant drifts + DriftOfIDs(round, ids[i..], base, local, r) == DriftOfIDs(round, ids, base, local, r)
    {
      assert ids[i..][1..] == ids[i + 1..];
      var more := DriftOfOneAdapter(round, ids[i], base, local, r);
      Regroup(drifts, more, DriftOfIDs(round, ids[i + 1..], base, local, r));
      drifts := drifts + more;
    }
    assert drifts + [] == drifts;
  }

  lemma Regroup<T>(a: seq<T>, b: seq<T>, c: seq<T>)
    ensures a + (b + c) == (a + b) + c
  {
  }

  method DriftOfOneAdapter(round: Rounding, id: string, base: Snapshots, local: Snapshots, remote: Snapshots) returns (drifts: seq<CategoryDrift>)
    ensures drifts == DriftOfAdapter(round, id, base, local, remote)
  {
    hide UnionNames, FindCategory, DriftOfCategory;
    var b, l, r := FirstAdapter(base, id), FirstAdapter(local, id), FirstAdapter(remote, id);
    var names := UnionNames(b, l, r);
    drifts := [];
    for i := 0 to |names|
      invariant drifts + DriftOfNames(round, id, names[i..], b, l, r) == DriftOfNames(round, id, names, b, l, r)
    {
      assert names[i..][1..] == names[i + 1..];
      var more := DriftOfOneCategory(round, id, names[i], FindCategory(b, names[i]), FindCategory(l, names[i]), FindCategory(r, names[i]));
      Regroup(drifts, more, DriftOfNames(round, id, names[i + 1..], b, l, r));
      drifts := drifts + more;
    }
    assert drifts + [] == drifts;
  }

  method DriftOfOneCategory(round: Rounding, id: string, name: string, base: Option<Category>, local: Option<Category>, remote: Option<Category>)
    returns (drifts: seq<CategoryDrift>)
    ensures drifts == DriftOfCategory(round, id, name, base, local, remote)
  {
    hide FilesTally, UnionPaths;
    var mode := DriftMode(local, base, remote);
    if mode == "" {
      return [];
    }
    var tally := CountFiles(round, mode, FilesOf(base), FilesOf(local), FilesOf(remote));
    return [CategoryDrift(id, name, mode, tally)];
  }
}
