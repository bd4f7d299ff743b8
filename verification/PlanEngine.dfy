/**
 The loops of the pull planner and of the pre-push check: new objects are filled key by key and
 actions are appended file by file. Each method is proved against its specification function.
 */
module PlanEngine {
  import opened JsonValue
  import opened Keys
  import opened Snapshot
  import opened Drift
  import opened Plan
  import DriftEngine
  import MergeEngine

  // ----- Excluded keys -----

  // The object after the first `n` of its listed keys, with local's excluded values in place.
  ghost predicate PlantedSoFar(out: Value, changed: bool, merged: Value, local: Value, keys: seq<string>, listed: seq<string>) {
    && merged.Obj? && local.Obj? && out.Obj? && out.keys == listed
    && out.m.Keys == (set k | k in listed)
    && (forall k :: k in out.m && k in keys && k in local.m ==> out.m[k] == local.m[k])
    && (forall k :: k in out.m && !(k in keys && k in local.m) ==> k in merged.m && out.m[k] == merged.m[k])
    && (changed <==> exists k :: k in listed && k in keys && k in local.m)
  }

  lemma PlantedStep(out: Value, changed: bool, merged: Value, local: Value, keys: seq<string>, listed: seq<string>, key: string, v: Value)
    requires PlantedSoFar(out, changed, merged, local, keys, listed)
    requires if key in keys && key in local.m then v == local.m[key] else key in merged.m && v == merged.m[key]
    ensures PlantedSoFar(Obj(out.keys + [key], out.m[key := v]), changed || (key in keys && key in local.m), merged, local, keys, listed + [key])
  {
    var t := listed + [key];
    assert t[|listed|] == key && forall k :: k in listed ==> k in t;
    assert forall k :: k in t ==> k in listed || k == key;
  }

  /** Puts local's values of the excluded keys into a new object; without any, the merged one is kept. */
  method PlantLocalKeys(merged: Value, local: Value, keys: seq<string>) returns (result: Value)
    ensures result == PlantExcludedKeys(merged, local, keys)
  {
    hide ObjectKeys, Filter, PlantedSoFar, PlantExcludedKeys;
    if !merged.Obj? || !local.Obj? || keys == [] {
      PlantsNothing(merged, local, keys);
      return merged;
    }
    var listed := MergeEngine.ListObjectKeys(merged);
    var out, changed := EMPTY_OBJECT, false;
    PlantedNone(merged, local, keys);
    for i := 0 to |listed|
      invariant out.Obj? && PlantedSoFar(out, changed, merged, local, keys, listed[..i])
    {
      var key := listed[i];
      var value := merged.m[key];
      if key in keys && key in local.m {
        value := local.m[key];
      }
      PlantedStep(out, changed, merged, local, keys, listed[..i], key, value);
      assert listed[..i + 1] == listed[..i] + [key];
      changed := changed || (key in keys && key in local.m);
      out := Obj(out.keys + [key], out.m[key := value]);
    }
    assert listed[..|listed|] == listed;
    ghost var added: seq<string> := [];
    assert listed + added == listed;
    for i := 0 to |keys|
      invariant out.Obj? && PlantedSoFar(out, changed, merged, local, keys, listed + added)
      invariant added == Missing(keys[..i], merged, local)
    {
      var key := keys[i];
      MissingSnoc(keys[..i], key, merged, local);
      assert keys[..i + 1] == keys[..i] + [key];
      if key !in merged.m && key in local.m {
        PlantedStep(out, changed, merged, local, keys, listed + added, key, local.m[key]);
        assert listed + (added + [key]) == listed + added + [key];
        added := added + [key];
        out := Obj(out.keys + [key], out.m[key := local.m[key]]);
        changed := true;
      }
    }
    assert keys[..|keys|] == keys;
    PlantedAll(out, changed, merged, local, keys);
    return if changed then out else merged;
  }

  function Missing(keys: seq<string>, merged: Value, local: Value): seq<string>
    requires merged.Obj? && local.Obj?
  {
    Filter(keys, local.m.Keys - merged.m.Keys)
  }

  lemma MissingSnoc(keys: seq<string>, key: string, merged: Value, local: Value)
    requires merged.Obj? && local.Obj?
    ensures Missing(keys + [key], merged, local) == Missing(keys, merged, local) + if key !in merged.m && key in local.m then [key] else []
    ensures Missing([], merged, local) == []
  {
    MergeEngine.FilterSnoc(keys, key, local.m.Keys - merged.m.Keys);
  }

  lemma PlantedNone(merged: Value, local: Value, keys: seq<string>)
    requires merged.Obj? && local.Obj?
    ensures PlantedSoFar(EMPTY_OBJECT, false, merged, local, keys, [])
    ensures Missing([], merged, local) == []
  {
  }

  lemma PlantsNothing(merged: Value, local: Value, keys: seq<string>)
    requires !merged.Obj? || !local.Obj? || keys == []
    ensures PlantExcludedKeys(merged, local, keys) == merged
  {
  }

  lemma {:induction false} FilterAgrees(keys: seq<string>, keep: set<string>, other: set<string>)
    requires forall k :: k in keys ==> (k in keep <==> k in other)
    ensures Filter(keys, keep) == Filter(keys, other)
  {
    if keys != [] { FilterAgrees(keys[1..], keep, other); }
  }

  lemma PlantedAll(out: Value, changed: bool, merged: Value, local: Value, keys: seq<string>)
    requires merged.Obj? && local.Obj? && keys != []
    requires PlantedSoFar(out, changed, merged, local, keys, ObjectKeys(merged) + Missing(keys, merged, local))
    ensures PlantExcludedKeys(merged, local, keys) == if changed then out else merged
  {
    var planted := set k | k in keys && k in local.m;
    var listed := ObjectKeys(merged) + Missing(keys, merged, local);
    MissingMembers(merged, local, keys);
    FilterAgrees(keys, planted - merged.m.Keys, local.m.Keys - merged.m.Keys);
    hide PlantedSoFar, ObjectKeys, Filter, Missing;
    if planted == {} {
      PlantedUnchanged(out, changed, merged, local, keys, listed, planted);
    } else {
      PlantedMembers(out, changed, merged, local, keys, listed, planted);
    }
  }

  lemma MissingMembers(merged: Value, local: Value, keys: seq<string>)
    requires merged.Obj? && local.Obj?
    ensures forall k :: k in ObjectKeys(merged) + Missing(keys, merged, local) <==>
                        k in merged.m || (k in keys && k in local.m)
  {
    hide ObjectKeys, Filter;
    forall k ensures k in ObjectKeys(merged) + Missing(keys, merged, local) <==> k in merged.m || (k in keys && k in local.m) {
      assert k in Missing(keys, merged, local) <==> k in keys && k in local.m && k !in merged.m;
    }
  }

  lemma PlantedUnchanged(out: Value, changed: bool, merged: Value, local: Value, keys: seq<string>, listed: seq<string>, planted: set<string>)
    requires PlantedSoFar(out, changed, merged, local, keys, listed)
    requires planted == (set k | k in keys && k in local.m) && planted == {}
    ensures !changed
  {
    assert forall k :: k in keys && k in local.m ==> k in planted;
  }

  lemma PlantedMembers(out: Value, changed: bool, merged: Value, local: Value, keys: seq<string>, listed: seq<string>, planted: set<string>)
    requires PlantedSoFar(out, changed, merged, local, keys, listed)
    requires planted == (set k | k in keys && k in local.m) && planted != {}
    requires forall k :: k in listed <==> k in merged.m || (k in keys && k in local.m)
    ensures changed && out == Obj(listed, map k | k in merged.m.Keys + planted :: if k in planted then local.m[k] else merged.m[k])
  {
    var k :| k in planted;
    assert k in listed;
    assert out.m.Keys == merged.m.Keys + planted;
  }

  predicate Unresolved(v: Value, keys: seq<string>, key: string)
    requires v.Obj? && key in v.m
  {
    key in keys && v.m[key] == Str(PLACEHOLDER)
  }

  ghost function Dropped(v: Value, keys: seq<string>): set<string>
    requires v.Obj?
  {
    set k | k in v.m && Unresolved(v, keys, k)
  }

  ghost predicate DroppedSoFar(out: Value, changed: bool, v: Value, keys: seq<string>, listed: seq<string>) {
    && v.Obj? && out.Obj? && out.keys == Filter(listed, v.m.Keys - Dropped(v, keys))
    && (forall k :: k in out.m <==> k in listed && k in v.m && k !in Dropped(v, keys))
    && (forall k :: k in out.m ==> out.m[k] == v.m[k])
    && (changed <==> exists k :: k in listed && k in Dropped(v, keys))
  }

  lemma DroppedStep(out: Value, changed: bool, v: Value, keys: seq<string>, listed: seq<string>, key: string)
    requires DroppedSoFar(out, changed, v, keys, listed) && key in v.m
    ensures if Unresolved(v, keys, key) then DroppedSoFar(out, true, v, keys, listed + [key])
            else DroppedSoFar(Obj(out.keys + [key], out.m[key := v.m[key]]), changed, v, keys, listed + [key])
  {
    hide Filter;
    MergeEngine.FilterSnoc(listed, key, v.m.Keys - Dropped(v, keys));
    var t := listed + [key];
    assert t[|listed|] == key && forall k :: k in listed ==> k in t;
    assert forall k :: k in t ==> k in listed || k == key;
    assert out.keys + [] == out.keys;
  }

  lemma DroppedAll(out: Value, changed: bool, v: Value, keys: seq<string>)
    requires v.Obj? && keys != [] && DroppedSoFar(out, changed, v, keys, ObjectKeys(v))
    ensures DropPlaceholders(v, keys) == if changed then out else v
  {
    hide Filter, ObjectKeys;
    assert Dropped(v, keys) == set k | k in v.m && k in keys && v.m[k] == Str(PLACEHOLDER);
    assert out.m.Keys == v.m.Keys - Dropped(v, keys);
    assert out.m == v.m - Dropped(v, keys);
    assert changed <==> Dropped(v, keys) != {};
  }

  /** Leaves out the excluded keys that still hold the placeholder. */
  method DropUnresolved(v: Value, keys: seq<string>) returns (result: Value)
    ensures result == DropPlaceholders(v, keys)
  {
    hide ObjectKeys, DroppedSoFar, DropPlaceholders, Dropped, Filter, Unresolved;
    if !v.Obj? || keys == [] {
      NothingDropped(v, keys);
      return v;
    }
    var listed := MergeEngine.ListObjectKeys(v);
    var out, changed := EMPTY_OBJECT, false;
    DroppedNone(v, keys);
    for i := 0 to |listed|
      invariant out.Obj? && DroppedSoFar(out, changed, v, keys, listed[..i])
    {
      var key := listed[i];
      assert key in v.m;
      DroppedStep(out, changed, v, keys, listed[..i], key);
      assert listed[..i + 1] == listed[..i] + [key];
      if Unresolved(v, keys, key) {
        changed := true;
      } else {
        out := Obj(out.keys + [key], out.m[key := v.m[key]]);
      }
    }
    assert listed[..|listed|] == listed;
    DroppedAll(out, changed, v, keys);
    return if changed then out else v;
  }

  lemma NothingDropped(v: Value, keys: seq<string>)
    requires !v.Obj? || keys == []
    ensures DropPlaceholders(v, keys) == v
  {
  }

  lemma DroppedNone(v: Value, keys: seq<string>)
    requires v.Obj?
    ensures DroppedSoFar(EMPTY_OBJECT, false, v, keys, [])
  {
  }

  // ----- Actions -----

  method PlanCategoryFiles(env: Env, id: string, name: string, s: Sides<Option<Category>>) returns (actions: seq<Action>)
    ensures actions == PlanCategory(env, id, name, s)
  {
    hide PlanFile, UnionPaths;
    var mode := PlanMode(s.local, s.base, s.remote);
    if mode == "" {
      return [];
    }
    var f := FileSides(s);
    var paths := UnionPaths(f.base, f.local, f.remote);
    actions := [];
    for i := 0 to |paths|
      invariant actions + PlanPaths(env, mode, id, name, f, paths[i..]) == PlanPaths(env, mode, id, name, f, paths)
    {
      assert paths[i..][1..] == paths[i + 1..];
      var action := PlanFile(env, mode, FileRef(id, name, paths[i]), ViewAt(f, paths[i]));
      DriftEngine.Regroup(actions, if action.Some? then [action.value] else [], PlanPaths(env, mode, id, name, f, paths[i + 1..]));
      if action.Some? {
        actions := actions + [action.value];
      } else {
        assert actions + [] == actions;
      }
    }
    assert actions + [] == actions;
  }

  method PlanOneAdapter(env: Env, id: string, base: Snapshots, local: Snapshots, remote: Snapshots) returns (actions: seq<Action>)
    ensures actions == PlanAdapter(env, id, base, local, remote)
  {
    hide PlanCategory, UnionNames, AdapterSides, CategorySides;
    var s := AdapterSides(env, id, base, local, remote);
    var names := UnionNames(s.base, s.local, s.remote);
    actions := [];
    for i := 0 to |names|
      invariant actions + PlanNames(env, id, names[i..], s) == PlanNames(env, id, names, s)
    {
      assert names[i..][1..] == names[i + 1..];
      var more := PlanCategoryFiles(env, id, names[i], CategorySides(s, names[i]));
      DriftEngine.Regroup(actions, more, PlanNames(env, id, names[i + 1..], s));
      actions := actions + more;
    }
    assert actions + [] == actions;
  }

  /** The whole plan, adapter by adapter. */
  method PlanPullInOrder(env: Env, base: Snapshots, local: Snapshots, remote: Snapshots) returns (actions: seq<Action>)
    ensures actions == PlanPull(env, base, local, remote)
  {
    hide PlanAdapter, UnionIDs;
    var ids := UnionIDs(base, local, remote);
    actions := [];
    for i := 0 to |ids|
      invariant actions + PlanIDs(env, ids[i..], base, local, remote) == PlanIDs(env, ids, base, local, remote)
    {
      assert ids[i..][1..] == ids[i + 1..];
      var more := PlanOneAdapter(env, ids[i], base, local, remote);
      DriftEngine.Regroup(actions, more, PlanIDs(env, ids[i + 1..], base, local, remote));
      actions := actions + more;
    }
    assert actions + [] == actions;
  }

  method ListConflicts(actions: seq<Action>) returns (conflicts: seq<Action>)
    ensures conflicts == ConflictsOf(actions)
  {
    conflicts := [];
    for i := 0 to |actions|
      invariant conflicts + ConflictsOf(actions[i..]) == ConflictsOf(actions)
    {
      assert actions[i..][1..] == actions[i + 1..];
      if actions[i].PullConflict? {
        conflicts := conflicts + [actions[i]];
      }
    }
    assert conflicts + [] == conflicts;
  }

  // ----- The files of an ok verdict -----

  method AddPaths(known: seq<string>, files: Files) returns (paths: seq<string>)
    ensures forall p :: p in paths <==> p in known || p in files
  {
    paths := known;
    var todo := files.Keys;
    while todo != {}
      invariant todo <= files.Keys
      invariant forall p :: p in paths <==> p in known || p in files.Keys - todo
      decreases |todo|
    {
      var p :| p in todo;
      if p !in paths {
        paths := paths + [p];
      }
      todo := todo - {p};
    }
  }

  function CategoryPaths(categories: seq<Category>, name: string): set<string> {
    set c, p | c in categories && c.name == name && p in c.files :: p
  }

  lemma PathsGrow(s: Snapshots, i: nat, id: string, name: string)
    requires i < |s|
    ensures PathsIn(s[..i + 1], id, name) == PathsIn(s[..i], id, name) + if s[i].id == id then CategoryPaths(s[i].categories, name) else {}
  {
    assert s[..i + 1] == s[..i] + [s[i]];
  }

  lemma CategoryPathsGrow(categories: seq<Category>, i: nat, name: string)
    requires i < |categories|
    ensures CategoryPaths(categories[..i + 1], name) ==
            CategoryPaths(categories[..i], name) + if categories[i].name == name then categories[i].files.Keys else {}
  {
    assert categories[..i + 1] == categories[..i] + [categories[i]];
  }

  method AddCategories(known: seq<string>, categories: seq<Category>, name: string) returns (paths: seq<string>)
    ensures forall p :: p in paths <==> p in known || p in CategoryPaths(categories, name)
  {
    paths := known;
    for i := 0 to |categories|
      invariant forall p :: p in paths <==> p in known || p in CategoryPaths(categories[..i], name)
    {
      CategoryPathsGrow(categories, i, name);
      if categories[i].name == name {
        paths := AddPaths(paths, categories[i].files);
      }
    }
    assert categories[..|categories|] == categories;
  }

  method AddSnapshots(known: seq<string>, s: Snapshots, id: string, name: string) returns (paths: seq<string>)
    ensures forall p :: p in paths <==> p in known || p in PathsIn(s, id, name)
  {
    hide PathsIn, CategoryPaths;
    paths := known;
    assert PathsIn(s[..0], id, name) == {} by { NoPaths(id, name); }
    for i := 0 to |s|
      invariant forall p :: p in paths <==> p in known || p in PathsIn(s[..i], id, name)
    {
      PathsGrow(s, i, id, name);
      if s[i].id == id {
        paths := AddCategories(paths, s[i].categories, name);
      }
    }
    assert s[..|s|] == s;
  }

  lemma NoPaths(id: string, name: string)
    ensures PathsIn([], id, name) == {}
  {
  }

  predicate LongestFirst(paths: seq<string>) { forall i, j :: 0 <= i < j < |paths| ==> |paths[i]| >= |paths[j]| }

  lemma FrontIsLongest(path: string, sorted: seq<string>, rest: seq<string>)
    requires LongestFirst(sorted) && sorted != [] && |path| < |sorted[0]|
    requires LongestFirst(rest) && forall p :: p in rest <==> p == path || p in sorted[1..]
    ensures LongestFirst([sorted[0]] + rest) && forall p :: p in [sorted[0]] + rest <==> p == path || p in sorted
  {
    assert sorted == [sorted[0]] + sorted[1..];
    forall i | 0 <= i < |rest| ensures |rest[i]| <= |sorted[0]| {
      assert rest[i] in rest;
      if rest[i] != path {
        var j :| 0 <= j < |sorted[1..]| && sorted[1..][j] == rest[i];
        assert sorted[j + 1] == rest[i];
      }
    }
  }

  function Placed(path: string, sorted: seq<string>): (r: seq<string>)
    requires LongestFirst(sorted)
    ensures LongestFirst(r) && forall p :: p in r <==> p == path || p in sorted
  {
    if sorted == [] || |path| >= |sorted[0]| then [path] + sorted
    else
      var rest := Placed(path, sorted[1..]);
      FrontIsLongest(path, sorted, rest);
      [sorted[0]] + rest
  }

  /** A stable sort, longest paths first. */
  function ByLength(paths: seq<string>): (r: seq<string>)
    ensures LongestFirst(r) && forall p :: p in r <==> p in paths
  {
    if paths == [] then [] else Placed(paths[0], ByLength(paths[1..]))
  }

  /** The first path that the key goes on from with a colon, or the empty string. */
  method MatchKnownPath(key: string, paths: seq<string>, ghost known: set<string>) returns (path: string)
    requires LongestFirst(paths) && forall p :: p in paths <==> p in known
    ensures Owner(key, known) == if path == "" then None else Some(path)
  {
    OwnerWithinIs(key, known, |key|);
    for i := 0 to |paths|
      invariant forall j :: 0 <= j < i ==> !(paths[j] + ":" <= key)
    {
      if paths[i] + ":" <= key {
        FirstIsOwner(key, paths, known, i);
        return paths[i];
      }
    }
    return "";
  }

  lemma FirstIsOwner(key: string, paths: seq<string>, known: set<string>, i: nat)
    requires LongestFirst(paths) && (forall p :: p in paths <==> p in known) && i < |paths| && paths[i] + ":" <= key
    requires forall j :: 0 <= j < i ==> !(paths[j] + ":" <= key)
    ensures Owner(key, known) == if paths[i] == "" then None else Some(paths[i])
  {
    OwnerWithinIs(key, known, |key|);
    hide OwnerWithin;
    var owner := Owner(key, known);
    assert |paths[i] + ":"| <= |key|;
    if owner.Some? {
      assert owner.value in paths;
      var j :| 0 <= j < |paths| && paths[j] == owner.value;
      assert |paths[i]| >= |owner.value|;
      LongerGoesOn(owner.value, paths[i], key);
    }
  }

  method ListOpFiles(id: string, name: string, ops: seq<MirrorOp>) returns (files: seq<FileRef>)
    ensures files == OpFiles(id, name, ops)
  {
    files := [];
    for i := 0 to |ops|
      invariant files + OpFiles(id, name, ops[i..]) == OpFiles(id, name, ops)
    {
      assert ops[i..][1..] == ops[i + 1..];
      if Pushes(ops[i]) {
        files := files + [FileRef(id, name, ops[i].path)];
      }
    }
    assert files + [] == files;
  }

  method ListKeyFiles(id: string, name: string, keys: seq<string>, paths: seq<string>, ghost known: set<string>) returns (files: seq<FileRef>)
    requires LongestFirst(paths) && forall p :: p in paths <==> p in known
    ensures files == KeyFiles(id, name, keys, known)
  {
    hide Owner;
    files := [];
    for i := 0 to |keys|
      invariant files + KeyFiles(id, name, keys[i..], known) == KeyFiles(id, name, keys, known)
    {
      assert keys[i..][1..] == keys[i + 1..];
      var path := MatchKnownPath(keys[i], paths, known);
      if path != "" {
        files := files + [FileRef(id, name, path)];
      }
    }
    assert files + [] == files;
  }

  method ListCategoryFiles(d: CategoryDrift, base: Snapshots, local: Snapshots, remote: Snapshots) returns (files: seq<FileRef>)
    ensures files == CategoryFiles(d, base, local, remote)
  {
    hide OpFiles, KeyFiles;
    var paths := AddSnapshots([], base, d.adapter, d.category);
    paths := AddSnapshots(paths, local, d.adapter, d.category);
    paths := AddSnapshots(paths, remote, d.adapter, d.category);
    var whole := ListOpFiles(d.adapter, d.category, d.tally.ops);
    var byKey := ListKeyFiles(d.adapter, d.category, d.tally.changedKeys, ByLength(paths), KnownPaths(base, local, remote, d.adapter, d.category));
    return whole + byKey;
  }

  method ListPushedFiles(drifts: seq<CategoryDrift>, base: Snapshots, local: Snapshots, remote: Snapshots) returns (files: seq<FileRef>)
    ensures files == PushedFiles(drifts, base, local, remote)
  {
    hide CategoryFiles;
    var all := [];
    for i := 0 to |drifts|
      invariant all + DriftFiles(drifts[i..], base, local, remote) == DriftFiles(drifts, base, local, remote)
    {
      assert drifts[i..][1..] == drifts[i + 1..];
      var more := ListCategoryFiles(drifts[i], base, local, remote);
      DriftEngine.Regroup(all, more, DriftFiles(drifts[i + 1..], base, local, remote));
      all := all + more;
    }
    assert all + [] == all;
    files := [];
    for i := 0 to |all|
      invariant Deduped(all[i..], files) == Deduped(all, [])
    {
      assert all[i..][1..] == all[i + 1..];
      if all[i] !in files {
        files := files + [all[i]];
      }
    }
  }

  /** The check a push starts with: drift decides, the plan names the files. */
  method CheckBeforePush(env: Env, base: Snapshots, local: Snapshots, remote: Snapshots) returns (check: PushCheck)
    ensures check == CheckPushSafety(env, base, local, remote)
  {
    hide ComputeDrift, PlanPull, Strip, RemoteDrivenFiles, ConflictsOf, PushedFiles;
    var drifts := DriftEngine.ComputeDriftInOrder(env.round, Strip(env, base), Strip(env, local), Some(Strip(env, remote)));
    var pulls, conflicts := 0, 0;
    for i := 0 to |drifts|
      invariant pulls + Total(drifts[i..], Pulls) == Total(drifts, Pulls)
      invariant conflicts + Total(drifts[i..], Clashes) == Total(drifts, Clashes)
    {
      assert drifts[i..][1..] == drifts[i + 1..];
      pulls := pulls + drifts[i].tally.pull;
      conflicts := conflicts + drifts[i].tally.conflicts;
    }
    if pulls > 0 {
      var actions := PlanPullInOrder(env, base, local, remote);
      return RemoteAhead(RemoteDrivenFiles(actions));
    }
    if conflicts > 0 {
      var actions := PlanPullInOrder(env, base, local, remote);
      var items := ListConflicts(actions);
      return Conflicts(items);
    }
    var files := ListPushedFiles(drifts, Strip(env, base), Strip(env, local), Strip(env, remote));
    return PushOk(files);
  }
}
