/** Drift: what status and the push gate count. */
module Drift {
  import opened JsonValue
  import opened JsonNumber
  import opened JsonText
  import opened Merge
  import opened Diff
  import opened Snapshot

  // The verdict of the whole-file three-way comparison.
  datatype Verdict = Noop | Push | PushDelete | Pull | PullDelete | Clash(reason: string)

  datatype MirrorOp = MirrorOp(verdict: Verdict, path: string)

  const MODIFY_VS_MODIFY := "modify-vs-modify"
  const LOCAL_DELETE := "local-delete-vs-remote-modify"
  const REMOTE_DELETE := "local-modify-vs-remote-delete"

  /** Whole files compare by content; equal edits on both sides are a conflict on purpose. */
  function CompareFile(base: Option<Entry>, local: Option<Entry>, remote: Option<Entry>): Verdict {
    var localEqualsBase := local.Some? && base.Some? && local.value.content == base.value.content;
    var remoteEqualsBase := remote.Some? && base.Some? && remote.value.content == base.value.content;
    if local.None? && remote.None? then Noop
    else if base.None? then
      if local.None? then Pull
      else if remote.None? then Push
      else if local.value.content == remote.value.content then Noop
      else Clash(MODIFY_VS_MODIFY)
    else if local.None? then
      if remoteEqualsBase then PushDelete else Clash(LOCAL_DELETE)
    else if remote.None? then
      if localEqualsBase then PullDelete else Clash(REMOTE_DELETE)
    else if localEqualsBase && remoteEqualsBase then Noop
    else if localEqualsBase then Pull
    else if remoteEqualsBase then Push
    else Clash(MODIFY_VS_MODIFY)
  }

  /** A whole-file conflict names the file twice and carries no values; a key's carries all three. */
  datatype FileConflict = FileConflict(
    keyPath: string, file: string, reason: string, base: Option<Value>, local: Option<Value>, remote: Option<Value>)

  function FileLevel(path: string, reason: string): FileConflict { FileConflict(path, path, reason, None, None, None) }

  function KeyLevel(path: string, c: Conflict): FileConflict {
    FileConflict(Render(c.path), path, c.reason, Some(c.base), Some(c.local), Some(c.remote))
  }

  // What one file, or one category, adds to the counters.
  datatype Tally = Tally(push: nat, pull: nat, conflicts: nat, ops: seq<MirrorOp>,
                         mergeConflicts: seq<FileConflict>, changedKeys: seq<string>) {
    function Plus(more: Tally): Tally {
      Tally(push + more.push, pull + more.pull, conflicts + more.conflicts, ops + more.ops,
            mergeConflicts + more.mergeConflicts, changedKeys + more.changedKeys)
    }
  }

  const NO_TALLY := Tally(0, 0, 0, [], [], [])

  function CountOp(op: MirrorOp): Tally {
    var t := NO_TALLY.(ops := [op]);
    match op.verdict
    case Push => t.(push := 1)
    case PushDelete => t.(push := 1)
    case Pull => t.(pull := 1)
    case PullDelete => t.(pull := 1)
    case Clash(_) => t.(conflicts := 1)
    case Noop => t
  }

  function NotePull(verdict: Verdict, path: string): Tally {
    NO_TALLY.(pull := 1, ops := [MirrorOp(verdict, path)])
  }

  function WholeFileConflict(path: string, reason: string): Tally {
    NO_TALLY.(conflicts := 1, mergeConflicts := [FileLevel(path, reason)])
  }

  function ParseEntry(round: Rounding, e: Option<Entry>): Document {
    if e.None? then Malformed else Parse(round, e.value.content)
  }

  // Raw files and malformed JSON are compared whole. Any JSON value passes, object or not.
  predicate Degraded(round: Rounding, e: Option<Entry>) {
    e.Some? && (e.value.kind == File || ParseEntry(round, e).Malformed?)
  }

  function ValueOf(round: Rounding, e: Option<Entry>): Value {
    if ParseEntry(round, e).Parsed? then ParseEntry(round, e).value else EMPTY_OBJECT
  }

  function Prefixed(path: string, keys: seq<string>): (r: seq<string>)
    ensures |r| == |keys|
  {
    seq(|keys|, i requires 0 <= i < |keys| => path + ":" + keys[i])
  }

  // Remote keys that local did not change too.
  function RemoteOnly(path: string, remoteKeys: seq<string>, localKeys: seq<string>): Tally {
    if remoteKeys == [] then NO_TALLY
    else
      var k := remoteKeys[0];
      (if k in localKeys then NO_TALLY else NotePull(Pull, path + ":" + k)).Plus(RemoteOnly(path, remoteKeys[1..], localKeys))
  }

  lemma {:induction false} RemoteOnlyCounts(path: string, remoteKeys: seq<string>, localKeys: seq<string>)
    ensures RemoteOnly(path, remoteKeys, localKeys).conflicts == 0 && RemoteOnly(path, remoteKeys, localKeys).push == 0
    ensures RemoteOnly(path, remoteKeys, localKeys).pull == 0 <==> forall k :: k in remoteKeys ==> k in localKeys
  {
    if remoteKeys != [] {
      var k, rest := remoteKeys[0], remoteKeys[1..];
      RemoteOnlyCounts(path, rest, localKeys);
      RemoteOnlyStep(path, k, rest, localKeys);
      assert remoteKeys == [k] + rest;
      assert forall x :: x in remoteKeys <==> x == k || x in rest;
    }
  }

  lemma RemoteOnlyStep(path: string, k: string, rest: seq<string>, localKeys: seq<string>)
    ensures var t, more := RemoteOnly(path, [k] + rest, localKeys), RemoteOnly(path, rest, localKeys);
            t.push == more.push && t.conflicts == more.conflicts && t.pull == more.pull + (if k in localKeys then 0 else 1)
  {
    assert ([k] + rest)[1..] == rest;
  }

  function KeyConflicts(path: string, cs: seq<Conflict>): seq<FileConflict> {
    seq(|cs|, i requires 0 <= i < |cs| => KeyLevel(path, cs[i]))
  }

  /** What one file of a merge category counts. */
  function MergeFile(round: Rounding, path: string, base: Option<Entry>, local: Option<Entry>, remote: Option<Entry>): Tally {
    if Degraded(round, base) || Degraded(round, local) || Degraded(round, remote) then
      CountOp(MirrorOp(CompareFile(base, local, remote), path))
    else if local.None? && remote.None? then NO_TALLY
    else
      var localDiff := DiffJSON(ValueOf(round, base), ValueOf(round, local));
      NO_TALLY.(push := localDiff.changed + localDiff.added + localDiff.deleted, changedKeys := Prefixed(path, localDiff.keys))
        .Plus(RemoteSide(round, path, base, local, remote, localDiff.keys))
  }

  function RemoteSide(round: Rounding, path: string, base: Option<Entry>, local: Option<Entry>, remote: Option<Entry>,
                      localKeys: seq<string>): Tally
  {
    if base.None? then
      if local.None? then NotePull(Pull, path)
      else if remote.Some? && local.value.content != remote.value.content then WholeFileConflict(path, BOTH_MODIFIED)
      else NO_TALLY
    else if local.None? then
      if remote.Some? && remote.value.content != base.value.content then WholeFileConflict(path, MODIFY_VS_DELETE) else NO_TALLY
    else if remote.None? then
      if localKeys == [] then NotePull(PullDelete, path) else WholeFileConflict(path, MODIFY_VS_DELETE)
    else
      var b, l, r := ValueOf(round, base), ValueOf(round, local), ValueOf(round, remote);
      var cs := MergeJSON(b, l, r).conflicts;
      NO_TALLY.(conflicts := |cs|, mergeConflicts := KeyConflicts(path, cs))
        .Plus(RemoteOnly(path, DiffJSON(b, r).keys, localKeys))
  }

  function FileTally(round: Rounding, mode: string, base: Files, local: Files, remote: Files, path: string): Tally {
    var b, l, r := EntryAt(base, path), EntryAt(local, path), EntryAt(remote, path);
    if mode == MIRROR then CountOp(MirrorOp(CompareFile(b, l, r), path)) else MergeFile(round, path, b, l, r)
  }

  // The counters after visiting `paths` in order.
  function FilesTally(round: Rounding, mode: string, base: Files, local: Files, remote: Files, paths: seq<string>): Tally {
    if paths == [] then NO_TALLY
    else
      FilesTally(round, mode, base, local, remote, paths[..|paths| - 1])
        .Plus(FileTally(round, mode, base, local, remote, paths[|paths| - 1]))
  }

  // The first mode any of the three categories declares.
  function DriftMode(local: Option<Category>, base: Option<Category>, remote: Option<Category>): string {
    if local.Some? && local.value.mode != "" then local.value.mode
    else if base.Some? && base.value.mode != "" then base.value.mode
    else if remote.Some? then remote.value.mode
    else ""
  }

  datatype CategoryDrift = CategoryDrift(adapter: string, category: string, mode: string, tally: Tally)

  function DriftOfCategory(round: Rounding, id: string, name: string, base: Option<Category>, local: Option<Category>, remote: Option<Category>): seq<CategoryDrift> {
    var mode := DriftMode(local, base, remote);
    if mode == "" then [] else
      var b, l, r := FilesOf(base), FilesOf(local), FilesOf(remote);
      [CategoryDrift(id, name, mode, FilesTally(round, mode, b, l, r, UnionPaths(b, l, r)))]
  }

  function DriftOfNames(round: Rounding, id: string, names: seq<string>, base: Option<Adapter>, local: Option<Adapter>, remote: Option<Adapter>): seq<CategoryDrift> {
    if names == [] then [] else
      DriftOfCategory(round, id, names[0], FindCategory(base, names[0]), FindCategory(local, names[0]), FindCategory(remote, names[0]))
      + DriftOfNames(round, id, names[1..], base, local, remote)
  }

  function DriftOfAdapter(round: Rounding, id: string, base: Snapshots, local: Snapshots, remote: Snapshots): seq<CategoryDrift> {
    var b, l, r := FirstAdapter(base, id), FirstAdapter(local, id), FirstAdapter(remote, id);
    DriftOfNames(round, id, UnionNames(b, l, r), b, l, r)
  }

  function DriftOfIDs(round: Rounding, ids: seq<string>, base: Snapshots, local: Snapshots, remote: Snapshots): seq<CategoryDrift> {
    if ids == [] then [] else
      DriftOfAdapter(round, ids[0], base, local, remote) + DriftOfIDs(round, ids[1..], base, local, remote)
  }

  /** Aggregates the engine's decisions by category; with no remote given, remote stands at base. */
  function ComputeDrift(round: Rounding, base: Snapshots, local: Snapshots, remote: Option<Snapshots>): seq<CategoryDrift> {
    var r := if remote.Some? then remote.value else base;
    DriftOfIDs(round, UnionIDs(base, local, r), base, local, r)
  }

  datatype Counter = Pulls | Clashes | Pushed

  function Count(t: Tally, c: Counter): nat {
    match c
    case Pulls => t.pull
    case Clashes => t.conflicts
    case Pushed => t.push
  }

  function Total(ds: seq<CategoryDrift>, c: Counter): nat {
    if ds == [] then 0 else Count(ds[0].tally, c) + Total(ds[1..], c)
  }
}
