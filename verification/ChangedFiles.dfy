/** Which files an ok verdict of the push gate lists. */
module ChangedFiles {
  import opened JsonValue
  import opened JsonNumber
  import opened Merge
  import opened Diff
  import opened Snapshot
  import opened Drift
  import opened Plan
  import opened GateLaws
  import opened SyncTheorems

  // ----- The owner of a key -----

  /** No path of the category goes on from another one with a colon. */
  predicate ColonFree(paths: set<string>) {
    forall p, q :: p in paths && q in paths ==> !(p + ":" <= q)
  }

  // ----- From the list to the categories -----

  lemma {:induction false} OpFilesAre(id: string, name: string, ops: seq<MirrorOp>, ref: FileRef)
    ensures ref in OpFiles(id, name, ops) <==>
            ref.adapter == id && ref.category == name && exists op :: op in ops && Pushes(op) && op.path == ref.path
  {
    if ops != [] { OpFilesAre(id, name, ops[1..], ref); }
  }

  lemma {:induction false} KeyFilesAre(id: string, name: string, keys: seq<string>, paths: set<string>, ref: FileRef)
    ensures ref in KeyFiles(id, name, keys, paths) <==>
            ref.adapter == id && ref.category == name && exists k :: k in keys && Owner(k, paths) == Some(ref.path)
  {
    hide Owner;
    if keys != [] { KeyFilesAre(id, name, keys[1..], paths, ref); }
  }

  ghost predicate Credits(t: Tally, paths: set<string>, path: string) {
    || (exists op :: op in t.ops && Pushes(op) && op.path == path)
    || (exists k :: k in t.changedKeys && Owner(k, paths) == Some(path))
  }

  lemma {:induction false} DriftFilesAre(drifts: seq<CategoryDrift>, base: Snapshots, local: Snapshots, remote: Snapshots, ref: FileRef)
    ensures ref in DriftFiles(drifts, base, local, remote) <==>
            exists d :: d in drifts && d.adapter == ref.adapter && d.category == ref.category
                        && Credits(d.tally, KnownPaths(base, local, remote, ref.adapter, ref.category), ref.path)
  {
    hide Owner, KnownPaths;
    if drifts != [] {
      var d := drifts[0];
      DriftFilesAre(drifts[1..], base, local, remote, ref);
      OpFilesAre(d.adapter, d.category, d.tally.ops, ref);
      KeyFilesAre(d.adapter, d.category, d.tally.changedKeys, KnownPaths(base, local, remote, d.adapter, d.category), ref);
    }
  }

  // ----- From the drifts to one category -----

  lemma {:induction false} NamesHold(round: Rounding, id: string, names: seq<string>, b: Option<Adapter>, l: Option<Adapter>, r: Option<Adapter>, d: CategoryDrift)
    ensures d in DriftOfNames(round, id, names, b, l, r) <==>
            d.category in names && d in DriftOfCategory(round, id, d.category, FindCategory(b, d.category), FindCategory(l, d.category), FindCategory(r, d.category))
  {
    hide FilesTally, FindCategory;
    if names != [] { NamesHold(round, id, names[1..], b, l, r, d); }
  }

  lemma {:induction false} IDsHold(round: Rounding, ids: seq<string>, base: Snapshots, local: Snapshots, remote: Snapshots, d: CategoryDrift)
    ensures d in DriftOfIDs(round, ids, base, local, remote) <==>
            d.adapter in ids && d in DriftOfAdapter(round, d.adapter, base, local, remote)
  {
    hide FindCategory, UnionNames, FilesTally, DriftOfNames;
    if ids != [] {
      IDsHold(round, ids[1..], base, local, remote, d);
      var b, l, r := FirstAdapter(base, ids[0]), FirstAdapter(local, ids[0]), FirstAdapter(remote, ids[0]);
      NamesHold(round, ids[0], UnionNames(b, l, r), b, l, r, d);
    }
  }

  // The one drift a category has, if it has a mode.
  function CategoryDriftOf(round: Rounding, ref: FileRef, base: Snapshots, local: Snapshots, remote: Snapshots): seq<CategoryDrift> {
    var s := DriftSides(ref, base, local, remote);
    DriftOfCategory(round, ref.adapter, ref.category, s.0, s.1, s.2)
  }

  lemma DriftsHold(round: Rounding, base: Snapshots, local: Snapshots, remote: Snapshots, ref: FileRef, d: CategoryDrift)
    requires d.adapter == ref.adapter && d.category == ref.category
    ensures d in ComputeDrift(round, base, local, Some(remote)) <==> d in CategoryDriftOf(round, ref, base, local, remote)
  {
    hide FilesTally, DriftOfNames, FindCategory;
    var b, l, r := FirstAdapter(base, ref.adapter), FirstAdapter(local, ref.adapter), FirstAdapter(remote, ref.adapter);
    IDsHold(round, UnionIDs(base, local, remote), base, local, remote, d);
    NamesHold(round, ref.adapter, UnionNames(b, l, r), b, l, r, d);
    if ref.category !in UnionNames(b, l, r) { MissingNames(b, l, r, ref.category); }
    if ref.adapter !in UnionIDs(base, local, remote) { MissingIDs(base, local, remote, ref.adapter); }
  }

  lemma MissingNames(b: Option<Adapter>, l: Option<Adapter>, r: Option<Adapter>, name: string)
    requires name !in UnionNames(b, l, r)
    ensures FindCategory(b, name).None? && FindCategory(l, name).None? && FindCategory(r, name).None?
  {
  }

  lemma MissingIDs(base: Snapshots, local: Snapshots, remote: Snapshots, id: string)
    requires id !in UnionIDs(base, local, remote)
    ensures FirstAdapter(base, id).None? && FirstAdapter(local, id).None? && FirstAdapter(remote, id).None?
  {
  }

  // ----- From the category to its files -----

  lemma {:induction false} FilesHold(round: Rounding, mode: string, b: Files, l: Files, r: Files, paths: seq<string>, op: MirrorOp, k: string)
    ensures op in FilesTally(round, mode, b, l, r, paths).ops <==>
            exists p :: p in paths && op in FileTally(round, mode, b, l, r, p).ops
    ensures k in FilesTally(round, mode, b, l, r, paths).changedKeys <==>
            exists p :: p in paths && k in FileTally(round, mode, b, l, r, p).changedKeys
  {
    hide FileTally;
    if paths != [] {
      var last := |paths| - 1;
      FilesHold(round, mode, b, l, r, paths[..last], op, k);
      assert paths == paths[..last] + [paths[last]];
    }
  }

  lemma {:induction false} RemoteOnlyPulls(path: string, remoteKeys: seq<string>, localKeys: seq<string>)
    ensures forall op :: op in RemoteOnly(path, remoteKeys, localKeys).ops ==> !Pushes(op)
    ensures RemoteOnly(path, remoteKeys, localKeys).changedKeys == []
  {
    if remoteKeys != [] { RemoteOnlyPulls(path, remoteKeys[1..], localKeys); }
  }

  lemma RemoteSidePulls(round: Rounding, path: string, b: Option<Entry>, l: Option<Entry>, r: Option<Entry>, localKeys: seq<string>)
    ensures forall op :: op in RemoteSide(round, path, b, l, r, localKeys).ops ==> !Pushes(op)
    ensures RemoteSide(round, path, b, l, r, localKeys).changedKeys == []
  {
    hide RemoteOnly, DiffJSON, MergeJSON, ValueOf;
    RemoteOnlyPulls(path, DiffJSON(ValueOf(round, b), ValueOf(round, r)).keys, localKeys);
  }

  predicate ComparedWhole(round: Rounding, mode: string, b: Option<Entry>, l: Option<Entry>, r: Option<Entry>) {
    mode == MIRROR || Degraded(round, b) || Degraded(round, l) || Degraded(round, r)
  }

  /** Local's judged file is not what base's is: by content if compared whole, else by value. */
  predicate Moved(round: Rounding, mode: string, b: Option<Entry>, l: Option<Entry>, r: Option<Entry>) {
    if ComparedWhole(round, mode, b, l, r) then
      CompareFile(b, l, r) == Push || CompareFile(b, l, r) == PushDelete
    else (l.Some? || r.Some?) && !DeepEqual(ValueOf(round, b), ValueOf(round, l))
  }

  ghost predicate PushesWhole(t: Tally) { exists op :: op in t.ops && Pushes(op) }

  lemma WholeFilePushes(path: string, verdict: Verdict)
    ensures var t := CountOp(MirrorOp(verdict, path));
            && (PushesWhole(t) <==> verdict == Push || verdict == PushDelete)
            && t.changedKeys == [] && forall op :: op in t.ops ==> op.path == path
  {
    var t := CountOp(MirrorOp(verdict, path));
    assert MirrorOp(verdict, path) in t.ops;
  }

  lemma FilePushes(round: Rounding, mode: string, b: Files, l: Files, r: Files, path: string)
    ensures var t := FileTally(round, mode, b, l, r, path);
            && (PushesWhole(t) || t.changedKeys != [] <==> Moved(round, mode, EntryAt(b, path), EntryAt(l, path), EntryAt(r, path)))
            && (PushesWhole(t) ==> t.changedKeys == [])
            && (forall op :: op in t.ops && Pushes(op) ==> op.path == path)
            && (forall k :: k in t.changedKeys ==> path + ":" <= k)
  {
    hide ParseEntry, DiffJSON, RemoteSide, ValueOf, Degraded, CompareFile, DeepEqual;
    var be, le, re := EntryAt(b, path), EntryAt(l, path), EntryAt(r, path);
    WholeFilePushes(path, CompareFile(be, le, re));
    var bv, lv := ValueOf(round, be), ValueOf(round, le);
    DiffKeysAreLabels(bv, lv);
    RemoteSidePulls(round, path, be, le, re, DiffJSON(bv, lv).keys);
    PrefixedStart(path, DiffJSON(bv, lv).keys);
  }

  lemma PrefixedStart(path: string, keys: seq<string>)
    ensures forall k :: k in Prefixed(path, keys) ==> path + ":" <= k
  {
    forall k | k in Prefixed(path, keys) ensures path + ":" <= k {
      var i :| 0 <= i < |keys| && k == path + ":" + keys[i];
      assert k[..|path| + 1] == path + ":";
    }
  }

  lemma MissingFilePushesNothing(round: Rounding, mode: string, b: Files, l: Files, r: Files, path: string)
    requires path !in b && path !in l && path !in r
    ensures var t := FileTally(round, mode, b, l, r, path); !PushesWhole(t) && t.changedKeys == []
  {
    hide FileTally, ValueOf, ParseEntry;
    FilePushes(round, mode, b, l, r, path);
  }

  ghost predicate KeyCredits(round: Rounding, mode: string, b: Files, l: Files, r: Files, known: set<string>, path: string, p: string, k: string) {
    k in FileTally(round, mode, b, l, r, p).changedKeys && Owner(k, known) == Some(path)
  }

  lemma CategoryCredits(round: Rounding, mode: string, b: Files, l: Files, r: Files, known: set<string>, path: string)
    ensures Credits(FilesTally(round, mode, b, l, r, UnionPaths(b, l, r)), known, path) <==>
            || PushesWhole(FileTally(round, mode, b, l, r, path))
            || exists p, k :: KeyCredits(round, mode, b, l, r, known, path, p, k)
  {
    hide FileTally, FilesTally, UnionPaths, Owner, Pushes;
    var t := FilesTally(round, mode, b, l, r, UnionPaths(b, l, r));
    if PushesWhole(FileTally(round, mode, b, l, r, path)) {
      var op :| op in FileTally(round, mode, b, l, r, path).ops && Pushes(op);
      FilePushes(round, mode, b, l, r, path);
      if path !in UnionPaths(b, l, r) { MissingFilePushesNothing(round, mode, b, l, r, path); }
      FilesHold(round, mode, b, l, r, UnionPaths(b, l, r), op, "");
    }
    if p, k :| KeyCredits(round, mode, b, l, r, known, path, p, k) {
      if p !in UnionPaths(b, l, r) { MissingFilePushesNothing(round, mode, b, l, r, p); }
      FilesHold(round, mode, b, l, r, UnionPaths(b, l, r), MirrorOp(Noop, ""), k);
    }
    if op :| op in t.ops && Pushes(op) && op.path == path {
      FilesHold(round, mode, b, l, r, UnionPaths(b, l, r), op, "");
      var p :| p in UnionPaths(b, l, r) && op in FileTally(round, mode, b, l, r, p).ops;
      FilePushes(round, mode, b, l, r, p);
    }
    if k :| k in t.changedKeys && Owner(k, known) == Some(path) {
      FilesHold(round, mode, b, l, r, UnionPaths(b, l, r), MirrorOp(Noop, ""), k);
      var p :| p in UnionPaths(b, l, r) && k in FileTally(round, mode, b, l, r, p).changedKeys;
      assert KeyCredits(round, mode, b, l, r, known, path, p, k);
    }
  }

  // ----- The verdict -----

  function KnownAt(env: Env, ref: FileRef, base: Snapshots, local: Snapshots, remote: Snapshots): set<string> {
    KnownPaths(Strip(env, base), Strip(env, local), Strip(env, remote), ref.adapter, ref.category)
  }

  ghost predicate KeyCredited(env: Env, ref: FileRef, base: Snapshots, local: Snapshots, remote: Snapshots, p: string, k: string) {
    k in GateTally(env, ref.(path := p), base, local, remote).changedKeys && Owner(k, KnownAt(env, ref, base, local, remote)) == Some(ref.path)
  }

  lemma DriftCredits(env: Env, base: Snapshots, local: Snapshots, remote: Snapshots, ref: FileRef)
    ensures var b, l, r := Strip(env, base), Strip(env, local), Strip(env, remote);
            ref in DriftFiles(ComputeDrift(env.round, b, l, Some(r)), b, l, r) <==>
            || PushesWhole(GateTally(env, ref, base, local, remote))
            || exists p, k :: KeyCredited(env, ref, base, local, remote, p, k)
  {
    hide ComputeDrift, FilesTally, FileTally, Owner, KnownPaths, Strip, FirstAdapter, FindCategory, Credits;
    var b, l, r := Strip(env, base), Strip(env, local), Strip(env, remote);
    var drifts := ComputeDrift(env.round, b, l, Some(r));
    var known := KnownAt(env, ref, base, local, remote);
    var s := DriftSides(ref, b, l, r);
    var mode := DriftMode(s.1, s.0, s.2);
    DriftFilesAre(drifts, b, l, r, ref);
    forall d | d in drifts && d.adapter == ref.adapter && d.category == ref.category ensures d in CategoryDriftOf(env.round, ref, b, l, r) {
      DriftsHold(env.round, b, l, r, ref, d);
    }
    if mode != "" {
      var d := CategoryDriftOf(env.round, ref, b, l, r)[0];
      DriftsHold(env.round, b, l, r, ref, d);
      CategoryCredits(env.round, mode, FilesOf(s.0), FilesOf(s.1), FilesOf(s.2), known, ref.path);
      forall p, k ensures KeyCredited(env, ref, base, local, remote, p, k) <==>
                          KeyCredits(env.round, mode, FilesOf(s.0), FilesOf(s.1), FilesOf(s.2), known, ref.path, p, k) { }
    }
  }

  /** An ok verdict lists a file exactly if it is pushed whole or some changed key, of whatever file, is booked on it. */
  lemma OkFilesAreCredited(env: Env, base: Snapshots, local: Snapshots, remote: Snapshots, ref: FileRef)
    requires CheckPushSafety(env, base, local, remote).PushOk?
    ensures ref in CheckPushSafety(env, base, local, remote).files <==>
            || PushesWhole(GateTally(env, ref, base, local, remote))
            || exists p, k :: KeyCredited(env, ref, base, local, remote, p, k)
  {
    hide ComputeDrift, DriftFiles, PlanPull, Strip, PushesWhole, KeyCredited;
    DriftCredits(env, base, local, remote, ref);
  }

  /** Whether local's judged file differs from base's. */
  predicate LocalMoved(env: Env, ref: FileRef, base: Snapshots, local: Snapshots, remote: Snapshots) {
    var s := DriftSides(ref, Strip(env, base), Strip(env, local), Strip(env, remote));
    var mode := DriftMode(s.1, s.0, s.2);
    mode != "" && Moved(env.round, mode, EntryAt(FilesOf(s.0), ref.path), EntryAt(FilesOf(s.1), ref.path), EntryAt(FilesOf(s.2), ref.path))
  }

  lemma FirstIsKnown(s: Snapshots, id: string, name: string, path: string)
    requires path in FilesOf(FindCategory(FirstAdapter(s, id), name))
    ensures path in PathsIn(s, id, name)
  {
  }

  lemma GateTallyPushes(env: Env, ref: FileRef, base: Snapshots, local: Snapshots, remote: Snapshots)
    ensures var t := GateTally(env, ref, base, local, remote);
            && (PushesWhole(t) || t.changedKeys != [] <==> LocalMoved(env, ref, base, local, remote))
            && (PushesWhole(t) ==> t.changedKeys == [])
            && (forall k :: k in t.changedKeys ==> ref.path + ":" <= k)
            && (t.changedKeys != [] ==> ref.path in KnownAt(env, ref, base, local, remote))
  {
    hide FileTally, Moved, Strip, FirstAdapter, FindCategory, PathsIn;
    var b, l, r := Strip(env, base), Strip(env, local), Strip(env, remote);
    var s := DriftSides(ref, b, l, r);
    var mode := DriftMode(s.1, s.0, s.2);
    FilePushes(env.round, mode, FilesOf(s.0), FilesOf(s.1), FilesOf(s.2), ref.path);
    if ref.path in FilesOf(s.0) { FirstIsKnown(b, ref.adapter, ref.category, ref.path); }
    if ref.path in FilesOf(s.1) { FirstIsKnown(l, ref.adapter, ref.category, ref.path); }
    if ref.path in FilesOf(s.2) { FirstIsKnown(r, ref.adapter, ref.category, ref.path); }
    if ref.path !in FilesOf(s.0) && ref.path !in FilesOf(s.1) && ref.path !in FilesOf(s.2) {
      MissingFilePushesNothing(env.round, mode, FilesOf(s.0), FilesOf(s.1), FilesOf(s.2), ref.path);
    }
  }

  // ----- Which keys stay with their file -----

  /** A longer known path takes the key over: it goes on from the key's own path with a colon, and the key from it. */
  predicate TakesOver(known: set<string>, q: string, path: string, k: string) {
    q in known && path + ":" <= q && q + ":" <= k
  }

  ghost predicate TakenOver(known: set<string>, path: string, k: string) { exists q :: TakesOver(known, q, path, k) }

  lemma OwnerIffNotTakenOver(k: string, path: string, known: set<string>)
    requires path in known && path + ":" <= k
    ensures Owner(k, known) == Some(path) <==> path != "" && !TakenOver(known, path, k)
  {
    OwnerWithinIs(k, known, |k|);
    hide OwnerWithin;
    var owner := Owner(k, known);
    if q :| TakesOver(known, q, path, k) {
      assert |q| > |path| && |q + ":"| <= |k|;
    }
    if owner.Some? {
      LongerGoesOn(owner.value, path, k);
      assert |owner.value| > |path| ==> TakesOver(known, owner.value, path, k);
    }
  }

  lemma OwnerIsOwnOrTaker(k: string, p: string, path: string, known: set<string>)
    requires p in known && p + ":" <= k
    ensures Owner(k, known) == Some(path) <==>
            path != "" && !TakenOver(known, path, k) && (p == path || TakesOver(known, path, p, k))
  {
    hide Owner, TakenOver;
    if path in known && path + ":" <= k {
      OwnerIffNotTakenOver(k, path, known);
      LongerGoesOn(path, p, k);
      LongerGoesOn(p, path, k);
      if |p| > |path| { TakingIsTaken(known, p, path, k); }
    } else {
      OwnerIsStart(k, known);
    }
  }

  lemma OwnerIsStart(k: string, known: set<string>)
    ensures Owner(k, known).Some? ==> Owner(k, known).value in known && Owner(k, known).value + ":" <= k
  {
    OwnerWithinIs(k, known, |k|);
  }

  lemma TakingIsTaken(known: set<string>, q: string, path: string, k: string)
    requires TakesOver(known, q, path, k)
    ensures TakenOver(known, path, k)
  {
  }

  /** One of the file's own changed keys is booked on it. */
  ghost predicate KeepsKey(env: Env, ref: FileRef, base: Snapshots, local: Snapshots, remote: Snapshots) {
    exists k :: k in GateTally(env, ref, base, local, remote).changedKeys && ref.path != ""
                && !TakenOver(KnownAt(env, ref, base, local, remote), ref.path, k)
  }

  // The path goes on from that of file `p` with a colon and takes over its changed key `k`, and no longer path does.
  ghost predicate TakesKey(env: Env, ref: FileRef, base: Snapshots, local: Snapshots, remote: Snapshots, p: string, k: string) {
    && k in GateTally(env, ref.(path := p), base, local, remote).changedKeys
    && TakesOver(KnownAt(env, ref, base, local, remote), ref.path, p, k)
    && !TakenOver(KnownAt(env, ref, base, local, remote), ref.path, k)
  }

  ghost predicate TakesSomeKey(env: Env, ref: FileRef, base: Snapshots, local: Snapshots, remote: Snapshots) {
    exists p, k :: TakesKey(env, ref, base, local, remote, p, k)
  }

  lemma CreditedKeyIs(env: Env, ref: FileRef, base: Snapshots, local: Snapshots, remote: Snapshots, p: string, k: string)
    ensures KeyCredited(env, ref, base, local, remote, p, k) <==>
            || (p == ref.path && k in GateTally(env, ref, base, local, remote).changedKeys && ref.path != ""
                && !TakenOver(KnownAt(env, ref, base, local, remote), ref.path, k))
            || TakesKey(env, ref, base, local, remote, p, k)
  {
    hide GateTally, KnownAt, Owner, TakenOver, TakesOver;
    assert ref.(path := ref.path) == ref;
    if k in GateTally(env, ref.(path := p), base, local, remote).changedKeys {
      GateTallyPushes(env, ref.(path := p), base, local, remote);
      SameKnown(env, ref, p, base, local, remote);
      OwnerIsOwnOrTaker(k, p, ref.path, KnownAt(env, ref, base, local, remote));
      TakersHaveNames(KnownAt(env, ref, base, local, remote), ref.path, p, k);
    }
  }

  lemma TakersHaveNames(known: set<string>, q: string, path: string, k: string)
    ensures TakesOver(known, q, path, k) ==> q != ""
  {
  }

  /**
   After an ok verdict, a file is listed exactly if it is pushed whole, keeps one of its changed keys,
   or takes over one of a file whose path it goes on from with a colon.
   */
  lemma OkFilesAre(env: Env, base: Snapshots, local: Snapshots, remote: Snapshots, ref: FileRef)
    requires CheckPushSafety(env, base, local, remote).PushOk?
    ensures ref in CheckPushSafety(env, base, local, remote).files <==>
            || PushesWhole(GateTally(env, ref, base, local, remote))
            || KeepsKey(env, ref, base, local, remote)
            || TakesSomeKey(env, ref, base, local, remote)
  {
    hide CheckPushSafety, KnownAt, PushesWhole, GateTally, TakenOver, KeyCredited, TakesKey;
    OkFilesAreCredited(env, base, local, remote, ref);
    forall p, k ensures KeyCredited(env, ref, base, local, remote, p, k) <==>
                        || (p == ref.path && k in GateTally(env, ref, base, local, remote).changedKeys && ref.path != ""
                            && !TakenOver(KnownAt(env, ref, base, local, remote), ref.path, k))
                        || TakesKey(env, ref, base, local, remote, p, k)
    {
      CreditedKeyIs(env, ref, base, local, remote, p, k);
    }
    if KeepsKey(env, ref, base, local, remote) {
      var k :| k in GateTally(env, ref, base, local, remote).changedKeys && !TakenOver(KnownAt(env, ref, base, local, remote), ref.path, k);
      assert KeyCredited(env, ref, base, local, remote, ref.path, k);
    }
    if p, k :| TakesKey(env, ref, base, local, remote, p, k) {
      assert KeyCredited(env, ref, base, local, remote, p, k);
    }
  }

  /** The file changed by key, and loses every one of its changed keys to longer paths. */
  ghost predicate LosesItsKeys(env: Env, ref: FileRef, base: Snapshots, local: Snapshots, remote: Snapshots) {
    GateTally(env, ref, base, local, remote).changedKeys != [] && !KeepsKey(env, ref, base, local, remote)
  }

  /**
   After an ok verdict, the list is right about a file exactly if the file takes over a key and has
   changed itself, or takes over none and has not lost all its changed keys.
   */
  lemma OkListIsRightIff(env: Env, base: Snapshots, local: Snapshots, remote: Snapshots, ref: FileRef)
    requires CheckPushSafety(env, base, local, remote).PushOk?
    ensures (ref in CheckPushSafety(env, base, local, remote).files <==> LocalMoved(env, ref, base, local, remote)) <==>
            if TakesSomeKey(env, ref, base, local, remote) then LocalMoved(env, ref, base, local, remote)
            else !LosesItsKeys(env, ref, base, local, remote)
  {
    hide CheckPushSafety, LocalMoved, KnownAt, PushesWhole, GateTally, TakenOver, TakesSomeKey;
    OkFilesAre(env, base, local, remote, ref);
    GateTallyPushes(env, ref, base, local, remote);
  }

  lemma SameKnown(env: Env, ref: FileRef, p: string, base: Snapshots, local: Snapshots, remote: Snapshots)
    ensures KnownAt(env, ref.(path := p), base, local, remote) == KnownAt(env, ref, base, local, remote)
  {
  }

  lemma NothingTakenOver(known: set<string>, path: string, k: string)
    requires ColonFree(known) && path in known
    ensures !TakenOver(known, path, k)
  {
  }

  /**
   In a category where no path goes on from another one with a colon, an ok verdict lists exactly the
   files whose judged content local has changed.
   */
  lemma OkListsWhatLocalChanged(env: Env, base: Snapshots, local: Snapshots, remote: Snapshots, ref: FileRef)
    requires CheckPushSafety(env, base, local, remote).PushOk?
    requires ref.path != "" && ColonFree(KnownAt(env, ref, base, local, remote))
    ensures ref in CheckPushSafety(env, base, local, remote).files <==> LocalMoved(env, ref, base, local, remote)
  {
    hide CheckPushSafety, LocalMoved, KnownAt, PushesWhole, GateTally, TakenOver;
    OkFilesAre(env, base, local, remote, ref);
    var known, t := KnownAt(env, ref, base, local, remote), GateTally(env, ref, base, local, remote);
    GateTallyPushes(env, ref, base, local, remote);
    if p, k :| TakesKey(env, ref, base, local, remote, p, k) {
      GateTallyPushes(env, ref.(path := p), base, local, remote);
      SameKnown(env, ref, p, base, local, remote);
      assert false;
    }
    if t.changedKeys != [] {
      assert t.changedKeys[0] in t.changedKeys;
      NothingTakenOver(known, ref.path, t.changedKeys[0]);
    }
  }

  // ----- Changed files and changed texts -----

  /**
   Local's text differs from base's, but the counters do not look at local alone or not at texts:
   remote's text changed too, or the values are equal, or both sides dropped the file.
   */
  predicate Overlooked(round: Rounding, mode: string, b: Option<Entry>, l: Option<Entry>, r: Option<Entry>) {
    TextsDiffer(b, l) &&
    if ComparedWhole(round, mode, b, l, r) then TextsDiffer(b, r)
    else DeepEqual(ValueOf(round, b), ValueOf(round, l)) || (l.None? && r.None?)
  }

  /** For every file: local counts as changed exactly if its text is not base's and is not overlooked. */
  lemma MovedIffTextsDiffer(round: Rounding, mode: string, b: Option<Entry>, l: Option<Entry>, r: Option<Entry>)
    ensures Moved(round, mode, b, l, r) <==> TextsDiffer(b, l) && !Overlooked(round, mode, b, l, r)
  {
    hide ParseEntry, DeepEqual;
    DeepEqualReflexive(ValueOf(round, b));
    if !TextsDiffer(b, l) { SameTextSameValue(round, b, l); }
  }

  lemma SameTextSameValue(round: Rounding, x: Option<Entry>, y: Option<Entry>)
    requires !TextsDiffer(x, y)
    ensures ValueOf(round, x) == ValueOf(round, y)
  {
  }

  function EntriesAt(env: Env, ref: FileRef, base: Snapshots, local: Snapshots, remote: Snapshots): (Option<Entry>, Option<Entry>, Option<Entry>) {
    var s := DriftSides(ref, Strip(env, base), Strip(env, local), Strip(env, remote));
    (EntryAt(FilesOf(s.0), ref.path), EntryAt(FilesOf(s.1), ref.path), EntryAt(FilesOf(s.2), ref.path))
  }

  function GateMode(env: Env, ref: FileRef, base: Snapshots, local: Snapshots, remote: Snapshots): string {
    var s := DriftSides(ref, Strip(env, base), Strip(env, local), Strip(env, remote));
    DriftMode(s.1, s.0, s.2)
  }

  lemma WholeChangesAgree(round: Rounding, path: string, b: Option<Entry>, l: Option<Entry>, r: Option<Entry>)
    requires var t := CountOp(MirrorOp(CompareFile(b, l, r), path)); t.pull == 0 && t.conflicts == 0
    requires TextsDiffer(b, l)
    ensures TextsDiffer(b, r) <==> !TextsDiffer(l, r)
  {
  }

  /**
   After an ok verdict, a judged file whose text local changed counts as unchanged exactly in a
   category without a mode, or if both sides added or dropped a file compared whole alike, or if a file
   compared by key changed in layout only, between absence and the empty object, or was dropped by both.
   */
  lemma OkOverlooksIff(env: Env, base: Snapshots, local: Snapshots, remote: Snapshots, ref: FileRef)
    requires CheckPushSafety(env, base, local, remote).PushOk?
    ensures var (b, l, r) := EntriesAt(env, ref, base, local, remote);
            var mode := GateMode(env, ref, base, local, remote);
            && (LocalMoved(env, ref, base, local, remote) ==> TextsDiffer(b, l))
            && (TextsDiffer(b, l) && !LocalMoved(env, ref, base, local, remote) <==>
                && TextsDiffer(b, l)
                && (mode != "" ==>
                      if ComparedWhole(env.round, mode, b, l, r) then !TextsDiffer(l, r)
                      else DeepEqual(ValueOf(env.round, b), ValueOf(env.round, l)) || (l.None? && r.None?)))
  {
    hide CheckPushSafety, Strip, FirstAdapter, FindCategory, Degraded, ValueOf, MergeFile, Moved, CompareFile, TextsDiffer, DeepEqual;
    OkIffUncounted(env, base, local, remote);
    var (b, l, r) := EntriesAt(env, ref, base, local, remote);
    var mode := GateMode(env, ref, base, local, remote);
    MovedIffTextsDiffer(env.round, mode, b, l, r);
    assert Count(GateTally(env, ref, base, local, remote), Pulls) == 0 && Count(GateTally(env, ref, base, local, remote), Clashes) == 0;
    if mode != "" && ComparedWhole(env.round, mode, b, l, r) && TextsDiffer(b, l) {
      assert GateTally(env, ref, base, local, remote) == CountOp(MirrorOp(CompareFile(b, l, r), ref.path)) by {
        if mode != MIRROR { WholeTally(env.round, mode, ref.path, b, l, r); }
      }
      WholeChangesAgree(env.round, ref.path, b, l, r);
    }
  }

  lemma WholeTally(round: Rounding, mode: string, path: string, b: Option<Entry>, l: Option<Entry>, r: Option<Entry>)
    requires ComparedWhole(round, mode, b, l, r) && mode != MIRROR
    ensures MergeFile(round, path, b, l, r) == CountOp(MirrorOp(CompareFile(b, l, r), path))
  {
    hide Degraded;
  }
}
