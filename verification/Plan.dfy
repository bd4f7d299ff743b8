/** The pull plan: the file actions that are really applied, and the pre-push check that relies on it. */
module Plan {
  import opened JsonValue
  import opened Keys
  import opened JsonNumber
  import opened JsonText
  import opened Merge
  import opened Diff
  import opened Snapshot
  import opened Drift

  const PLACEHOLDER := "__REQUIRED__"

  datatype FileRef = FileRef(adapter: string, category: string, path: string)

  datatype Action =
    | PullWrite(ref: FileRef, content: string)
    | PullDelete(ref: FileRef)
    | PullConflict(ref: FileRef, reason: string, keyPaths: seq<string>, localContent: string, remoteContent: string)

  // ----- Excluded keys -----

  /** Puts local's values of the excluded keys back into a merged object. */
  function PlantExcludedKeys(merged: Value, local: Value, keys: seq<string>): Value {
    if !merged.Obj? || !local.Obj? || keys == [] then merged
    else
      var planted := set k | k in keys && k in local.m;
      if planted == {} then merged
      else
        var order := ObjectKeys(merged) + Filter(keys, planted - merged.m.Keys);
        Obj(order, map k | k in merged.m.Keys + planted :: if k in planted then local.m[k] else merged.m[k])
  }

  /** Drops the excluded keys that still hold the store's placeholder. */
  function DropPlaceholders(v: Value, keys: seq<string>): Value {
    if !v.Obj? || keys == [] then v
    else
      var dropped := set k | k in v.m && k in keys && v.m[k] == Str(PLACEHOLDER);
      if dropped == {} then v
      else Obj(Filter(ObjectKeys(v), v.m.Keys - dropped), v.m - dropped)
  }

  predicate Contains(s: string, part: string)
    decreases |s|
  {
    part <= s || (s != "" && Contains(s[1..], part))
  }

  /** Content about to be written into a tool directory, without unresolved placeholders. */
  function OmitPlaceholders(round: Rounding, content: string, keys: seq<string>): string {
    if keys == [] || !Contains(content, PLACEHOLDER) then content
    else match Parse(round, content)
      case Malformed => content
      case Parsed(v) =>
        var dropped := DropPlaceholders(v, keys);
        if dropped == v then content else SerializeFile(dropped)
  }

  // ----- One file -----

  function ContentOf(e: Option<Entry>): string { if e.Some? then e.value.content else "" }

  // A remote value is shown only when stripping left it untouched.
  function SafeRemote(display: Option<Entry>, judged: Option<Entry>): string {
    if display.Some? && judged.Some? && display.value.content == judged.value.content then display.value.content else ""
  }

  function FirstOf(a: Option<Entry>, b: Option<Entry>): Option<Entry> { if a.Some? then a else b }

  // The judged sides of a file, and the raw local and remote entries they were stripped from.
  datatype FileView = FileView(base: Option<Entry>, local: Option<Entry>, remote: Option<Entry>,
                               rawLocal: Option<Entry>, rawRemote: Option<Entry>)

  function Conflicting(ref: FileRef, reason: string, f: FileView): Action {
    PullConflict(ref, reason, [], ContentOf(FirstOf(f.rawLocal, f.local)), SafeRemote(f.rawRemote, f.remote))
  }

  function FromVerdict(ref: FileRef, f: FileView): Option<Action> {
    match CompareFile(f.base, f.local, f.remote)
    case Pull => if f.remote.None? then None else Some(PullWrite(ref, f.remote.value.content))
    case PullDelete => Some(Action.PullDelete(ref))
    case Clash(reason) => Some(Conflicting(ref, reason, f))
    case _ => None
  }

  // Stricter than the drift engine's test: JSON that is not an object is compared whole.
  predicate NotMergeable(round: Rounding, e: Option<Entry>) {
    e.Some? && (e.value.kind == File || ParseEntry(round, e).Malformed? || !ParseEntry(round, e).value.Obj?)
  }

  predicate RemoteChanged(base: Option<Entry>, remote: Option<Entry>) {
    if base.None? then remote.Some?
    else remote.None? || base.value.content != remote.value.content
  }

  function RenderAll(cs: seq<Conflict>): seq<string> {
    seq(|cs|, i requires 0 <= i < |cs| => Render(cs[i].path))
  }

  // The value a clean merge would leave in the tool's file.
  function Planted(env: Env, keys: seq<string>, merged: Value, rawLocal: Option<Entry>): Value {
    DropPlaceholders(PlantExcludedKeys(merged, RawValue(env, rawLocal), keys), keys)
  }

  function RawValue(env: Env, raw: Option<Entry>): Value {
    if ParseEntry(env.round, raw).Parsed? then ParseEntry(env.round, raw).value else Null
  }

  function PlanMergeFile(env: Env, ref: FileRef, f: FileView): Option<Action> {
    if NotMergeable(env.round, f.base) || NotMergeable(env.round, f.local) || NotMergeable(env.round, f.remote) then
      FromVerdict(ref, f)
    else if (f.local.None? && f.remote.None?) || !RemoteChanged(f.base, f.remote) then None
    else
      var keys := ExcludedKeys(env, ref.adapter, ref.category);
      if f.base.None? then
        if f.local.None? then Some(PullWrite(ref, OmitPlaceholders(env.round, ContentOf(f.remote), keys)))
        else if f.remote.None? || f.local.value.content == f.remote.value.content then None
        else Some(Conflicting(ref, MODIFY_VS_MODIFY, f))
      else if f.remote.None? then
        if DiffJSON(ValueOf(env.round, f.base), ValueOf(env.round, f.local)).keys == [] then Some(Action.PullDelete(ref))
        else Some(Conflicting(ref, REMOTE_DELETE, f))
      else if f.local.None? then Some(Conflicting(ref, LOCAL_DELETE, f))
      else
        PlanMergedFile(env, ref, keys, f)
  }

  function PlanMergedFile(env: Env, ref: FileRef, keys: seq<string>, f: FileView): (r: Option<Action>)
    ensures r.Some? ==> r.value.ref == ref && !r.value.PullDelete?
  {
    var merged := MergeJSON(ValueOf(env.round, f.base), ValueOf(env.round, f.local), ValueOf(env.round, f.remote));
    if merged.conflicts != [] then
      Some(PullConflict(ref, "merge-keys", RenderAll(merged.conflicts), "", ""))
    else
      var raw := FirstOf(f.rawLocal, f.local);
      var planted := Planted(env, keys, merged.merged, raw);
      if DeepEqual(planted, RawValue(env, raw)) then None else Some(PullWrite(ref, SerializeFile(planted)))
  }

  // ----- One category, one adapter, everything -----

  datatype Sides<T> = Sides(base: T, local: T, remote: T, rawLocal: T, rawRemote: T)

  // The first category present decides the mode, even when its mode is empty.
  function PlanMode(local: Option<Category>, base: Option<Category>, remote: Option<Category>): string {
    if local.Some? then local.value.mode
    else if base.Some? then base.value.mode
    else if remote.Some? then remote.value.mode
    else ""
  }

  function ViewAt(s: Sides<Files>, path: string): FileView {
    FileView(EntryAt(s.base, path), EntryAt(s.local, path), EntryAt(s.remote, path), EntryAt(s.rawLocal, path), EntryAt(s.rawRemote, path))
  }

  function PlanFile(env: Env, mode: string, ref: FileRef, f: FileView): (r: Option<Action>)
    ensures r.Some? ==> r.value.ref == ref && (f.base.Some? || f.local.Some? || f.remote.Some?)
  {
    if mode == MIRROR then FromVerdict(ref, f) else PlanMergeFile(env, ref, f)
  }

  function PlanPaths(env: Env, mode: string, id: string, name: string, s: Sides<Files>, paths: seq<string>): seq<Action> {
    if paths == [] then [] else
      var a := PlanFile(env, mode, FileRef(id, name, paths[0]), ViewAt(s, paths[0]));
      (if a.Some? then [a.value] else []) + PlanPaths(env, mode, id, name, s, paths[1..])
  }

  function CategorySides(s: Sides<Option<Adapter>>, name: string): Sides<Option<Category>> {
    Sides(FindCategory(s.base, name), FindCategory(s.local, name), FindCategory(s.remote, name),
          FindCategory(s.rawLocal, name), FindCategory(s.rawRemote, name))
  }

  function FileSides(s: Sides<Option<Category>>): Sides<Files> {
    Sides(FilesOf(s.base), FilesOf(s.local), FilesOf(s.remote), FilesOf(s.rawLocal), FilesOf(s.rawRemote))
  }

  function PlanCategory(env: Env, id: string, name: string, s: Sides<Option<Category>>): seq<Action> {
    var mode := PlanMode(s.local, s.base, s.remote);
    if mode == "" then [] else
      var f := FileSides(s);
      PlanPaths(env, mode, id, name, f, UnionPaths(f.base, f.local, f.remote))
  }

  function PlanNames(env: Env, id: string, names: seq<string>, s: Sides<Option<Adapter>>): seq<Action> {
    if names == [] then [] else
      PlanCategory(env, id, names[0], CategorySides(s, names[0])) + PlanNames(env, id, names[1..], s)
  }

  function AdapterSides(env: Env, id: string, base: Snapshots, local: Snapshots, remote: Snapshots): Sides<Option<Adapter>> {
    Sides(LastAdapter(Strip(env, base), id), LastAdapter(Strip(env, local), id), LastAdapter(Strip(env, remote), id),
          LastAdapter(local, id), LastAdapter(remote, id))
  }

  function PlanAdapter(env: Env, id: string, base: Snapshots, local: Snapshots, remote: Snapshots): seq<Action> {
    var s := AdapterSides(env, id, base, local, remote);
    PlanNames(env, id, UnionNames(s.base, s.local, s.remote), s)
  }

  function PlanIDs(env: Env, ids: seq<string>, base: Snapshots, local: Snapshots, remote: Snapshots): seq<Action> {
    if ids == [] then [] else
      PlanAdapter(env, ids[0], base, local, remote) + PlanIDs(env, ids[1..], base, local, remote)
  }

  /** The file-level pull plan. Excluded keys are judged away and local's values planted back. */
  function PlanPull(env: Env, base: Snapshots, local: Snapshots, remote: Snapshots): seq<Action> {
    PlanIDs(env, UnionIDs(base, local, remote), base, local, remote)
  }

  // ----- The pre-push check -----

  datatype PushCheck =
    | PushOk(files: seq<FileRef>)
    | RemoteAhead(files: seq<FileRef>)
    | Conflicts(items: seq<Action>)

  function ConflictsOf(actions: seq<Action>): (r: seq<Action>)
    ensures forall a :: a in r <==> a in actions && a.PullConflict?
  {
    if actions == [] then [] else
      (if actions[0].PullConflict? then [actions[0]] else []) + ConflictsOf(actions[1..])
  }

  function ChangesOf(actions: seq<Action>): (r: seq<Action>)
    ensures forall a :: a in r <==> a in actions && !a.PullConflict?
  {
    if actions == [] then [] else
      (if actions[0].PullConflict? then [] else [actions[0]]) + ChangesOf(actions[1..])
  }

  function Targets(actions: seq<Action>): (r: seq<FileRef>)
    ensures forall f :: f in r <==> exists a :: a in actions && a.ref == f
  {
    if actions == [] then [] else [actions[0].ref] + Targets(actions[1..])
  }

  function Deduped(refs: seq<FileRef>, seen: seq<FileRef>): (r: seq<FileRef>)
    ensures forall f :: f in r <==> f in seen || f in refs
    decreases |refs|
  {
    if refs == [] then seen
    else Deduped(refs[1..], if refs[0] in seen then seen else seen + [refs[0]])
  }

  // The files remote drives: writes and deletes, or the conflicts when there are none.
  function RemoteDrivenFiles(actions: seq<Action>): seq<FileRef> {
    var direct := ChangesOf(actions);
    Deduped(Targets(if direct != [] then direct else ConflictsOf(actions)), [])
  }

  // ----- The files of an ok verdict -----

  /** The paths of a category, whatever adapter entry or category entry of the snapshot lists them. */
  function PathsIn(s: Snapshots, id: string, name: string): set<string> {
    set a, c, p | a in s && a.id == id && c in a.categories && c.name == name && p in c.files :: p
  }

  function KnownPaths(base: Snapshots, local: Snapshots, remote: Snapshots, id: string, name: string): set<string> {
    PathsIn(base, id, name) + PathsIn(local, id, name) + PathsIn(remote, id, name)
  }

  /** The file a changed key is booked on: the longest known path the key goes on from with a colon. */
  function OwnerWithin(key: string, paths: set<string>, n: nat): Option<string>
    requires n <= |key|
  {
    if n <= 1 then None
    else if key[n - 1] == ':' && key[..n - 1] in paths then Some(key[..n - 1])
    else OwnerWithin(key, paths, n - 1)
  }

  function Owner(key: string, paths: set<string>): Option<string> { OwnerWithin(key, paths, |key|) }

  lemma {:induction false} OwnerWithinIs(key: string, paths: set<string>, n: nat)
    requires n <= |key|
    ensures var owner := OwnerWithin(key, paths, n);
            && (owner.Some? ==> owner.value != "" && owner.value in paths && |owner.value| < n && owner.value + ":" <= key)
            && (forall p :: p in paths && p != "" && p + ":" <= key && |p| < n ==> owner.Some? && |p| <= |owner.value|)
  {
    if n > 1 {
      OwnerWithinIs(key, paths, n - 1);
      forall p | p in paths && p != "" && p + ":" <= key && |p| == n - 1 ensures key[n - 1] == ':' && key[..n - 1] == p {
        assert (p + ":")[n - 1] == ':' && (p + ":")[..n - 1] == p;
      }
    }
  }

  lemma LongerGoesOn(p: string, q: string, key: string)
    requires p + ":" <= key && q + ":" <= key
    ensures |p| > |q| ==> q + ":" <= p
    ensures |p| == |q| ==> p == q
  {
    assert forall i :: 0 <= i < |p| ==> key[i] == (p + ":")[i] == p[i];
    assert forall i :: 0 <= i <= |q| ==> key[i] == (q + ":")[i];
  }

  predicate Pushes(op: MirrorOp) { op.verdict == Push || op.verdict == PushDelete }

  function OpFiles(id: string, name: string, ops: seq<MirrorOp>): seq<FileRef> {
    if ops == [] then [] else
      (if Pushes(ops[0]) then [FileRef(id, name, ops[0].path)] else []) + OpFiles(id, name, ops[1..])
  }

  function KeyFiles(id: string, name: string, keys: seq<string>, paths: set<string>): seq<FileRef> {
    if keys == [] then [] else
      (match Owner(keys[0], paths) case None => [] case Some(p) => [FileRef(id, name, p)]) + KeyFiles(id, name, keys[1..], paths)
  }

  function CategoryFiles(d: CategoryDrift, base: Snapshots, local: Snapshots, remote: Snapshots): seq<FileRef> {
    OpFiles(d.adapter, d.category, d.tally.ops)
    + KeyFiles(d.adapter, d.category, d.tally.changedKeys, KnownPaths(base, local, remote, d.adapter, d.category))
  }

  function DriftFiles(drifts: seq<CategoryDrift>, base: Snapshots, local: Snapshots, remote: Snapshots): seq<FileRef> {
    if drifts == [] then [] else CategoryFiles(drifts[0], base, local, remote) + DriftFiles(drifts[1..], base, local, remote)
  }

  /** What the push is said to change: whole-file pushes, and the files of local's changed keys. */
  function PushedFiles(drifts: seq<CategoryDrift>, base: Snapshots, local: Snapshots, remote: Snapshots): seq<FileRef> {
    Deduped(DriftFiles(drifts, base, local, remote), [])
  }

  /** Decides with the drift counters and reports with the plan. */
  function CheckPushSafety(env: Env, base: Snapshots, local: Snapshots, remote: Snapshots): PushCheck {
    var drifts := ComputeDrift(env.round, Strip(env, base), Strip(env, local), Some(Strip(env, remote)));
    if Total(drifts, Pulls) > 0 then RemoteAhead(RemoteDrivenFiles(PlanPull(env, base, local, remote)))
    else if Total(drifts, Clashes) > 0 then Conflicts(ConflictsOf(PlanPull(env, base, local, remote)))
    else PushOk(PushedFiles(drifts, Strip(env, base), Strip(env, local), Strip(env, remote)))
  }
}
