/** The whole plan and the whole verdict: every file, each once, in order. */
module PlanTheorems {
  import opened JsonValue
  import opened Keys
  import opened JsonText
  import opened MergeOrder
  import opened Snapshot
  import opened Drift
  import opened Plan
  import opened FileLaws
  import opened GateLaws
  import opened SyncTheorems
  import opened ExcludedKeyLaws
  import opened PlanLaws

  // ----- Every file -----

  /** The plan holds this action for the file and no other, or none. */
  ghost predicate PlansExactly(plan: seq<Action>, ref: FileRef, a: Option<Action>) {
    && (a.Some? ==> a.value in plan && a.value.ref == ref)
    && forall x :: x in plan && x.ref == ref ==> a == Some(x)
  }

  // Sides as the planner looks them up: the last adapter of an ID, the first category of a name.
  function SideAt(s: Snapshots, ref: FileRef): Option<Category> { FindCategory(LastAdapter(s, ref.adapter), ref.category) }

  /** The mode is that of local's category if there is one, else of base's, else of remote's. */
  predicate PlansInMode(mode: string, ref: FileRef, base: Snapshots, local: Snapshots, remote: Snapshots) {
    if SideAt(local, ref).Some? then mode == SideAt(local, ref).value.mode
    else if SideAt(base, ref).Some? then mode == SideAt(base, ref).value.mode
    else if SideAt(remote, ref).Some? then mode == SideAt(remote, ref).value.mode
    else mode == ""
  }

  lemma SideMode(env: Env, s: Snapshots, ref: FileRef)
    ensures FindCategory(LastAdapter(Strip(env, s), ref.adapter), ref.category).Some? <==> SideAt(s, ref).Some?
    ensures SideAt(s, ref).Some? ==>
              FindCategory(LastAdapter(Strip(env, s), ref.adapter), ref.category).value.mode == SideAt(s, ref).value.mode
  {
    hide StripEntry;
    StripFindsLast(env, s, ref.adapter);
    var a := LastAdapter(s, ref.adapter);
    if a.Some? { StripFindsCategory(env, a.value, ref.category); }
  }

  lemma ModeIs(env: Env, ref: FileRef, base: Snapshots, local: Snapshots, remote: Snapshots)
    ensures PlansInMode(ModeOf(env, ref, base, local, remote), ref, base, local, remote)
  {
    hide Strip, FindCategory, LastAdapter;
    SideMode(env, base, ref);
    SideMode(env, local, ref);
    SideMode(env, remote, ref);
  }

  /**
   For every file of any snapshots, the plan holds exactly what the sides call for: nothing without a
   mode, the whole-file rule in a mirror or where some side is no JSON object, and the merge otherwise.
   */
  lemma PlanIs(env: Env, base: Snapshots, local: Snapshots, remote: Snapshots, ref: FileRef) returns (mode: string, f: FileView, a: Option<Action>)
    ensures PlansInMode(mode, ref, base, local, remote)
    ensures f == ViewOf(env, ref, base, local, remote)
    ensures f.rawLocal == EntryAt(FilesOf(SideAt(local, ref)), ref.path) && f.rawRemote == EntryAt(FilesOf(SideAt(remote, ref)), ref.path)
    ensures Judges(env, KeysAt(env, ref), f, EntryAt(FilesOf(SideAt(base, ref)), ref.path))
    ensures PlansExactly(PlanPull(env, base, local, remote), ref, a)
    ensures if mode == "" then a == None
            else if mode == MIRROR || !Mergeable(env, f) then WholePlan(a, ref, f)
            else if !Complete(f) then PartialPlan(env, a, ref, f)
            else ThreeWayPlan(env, a, ref, f)
  {
    hide PlanPull, PlanFile, Judges, WholePlan, PartialPlan, ThreeWayPlan, Mergeable, KeysAt, FindCategory, LastAdapter, Strip, PlansInMode;
    mode, f, a := ModeOf(env, ref, base, local, remote), ViewOf(env, ref, base, local, remote), Planned(env, ref, base, local, remote);
    ModeIs(env, ref, base, local, remote);
    ViewIsJudged(env, ref, base, local, remote);
    KeysAtAre(env, ref);
    var rawBase := EntryAt(FilesOf(SideAt(base, ref)), ref.path);
    forall x: Action | x.ref == ref ensures x in PlanPull(env, base, local, remote) <==> a == Some(x) { PlanIsByFile(env, base, local, remote, x); }
    if mode != "" {
      if mode == MIRROR || !Mergeable(env, f) {
        WholeFilePlan(env, mode, ref, f, rawBase);
      } else if !Complete(f) {
        PartialFilePlan(env, mode, ref, f, rawBase);
      } else {
        FullFilePlan(env, mode, ref, f, rawBase);
      }
    }
  }

  /** A mirrored file that remote alone changed is written with remote's judged text, or deleted if remote lacks it. */
  lemma MirrorFollowsRemote(env: Env, base: Snapshots, local: Snapshots, remote: Snapshots, ref: FileRef)
    requires ModeOf(env, ref, base, local, remote) == MIRROR
    requires var f := ViewOf(env, ref, base, local, remote); !TextsDiffer(f.base, f.local) && TextsDiffer(f.base, f.remote)
    ensures var f, plan := ViewOf(env, ref, base, local, remote), PlanPull(env, base, local, remote);
            if f.remote.Some? then PullWrite(ref, f.remote.value.content) in plan else Action.PullDelete(ref) in plan
  {
    hide PlanPull, Judges, FindCategory, LastAdapter, Strip, KeysAt, ViewOf, ModeOf;
    var f := ViewOf(env, ref, base, local, remote);
    ViewIsJudged(env, ref, base, local, remote);
    KeysAtAre(env, ref);
    WholeFilePlan(env, MIRROR, ref, f, EntryAt(FilesOf(SideAt(base, ref)), ref.path));
    PlanIsByFile(env, base, local, remote, Planned(env, ref, base, local, remote).value);
  }

  /**
   A planned conflict shows a value under an excluded key exactly if remote is a raw file, which judging
   does not touch, that holds one.
   */
  lemma ConflictsHideExcluded(env: Env, base: Snapshots, local: Snapshots, remote: Snapshots, a: Action, k: string)
    requires a in PlanPull(env, base, local, remote) && a.PullConflict? && k in KeysAt(env, a.ref)
    ensures var raw := EntryAt(FilesOf(SideAt(remote, a.ref)), a.ref.path);
            Child(TextSlot(env.round, a.remoteContent), k) != Absent <==>
            raw.Some? && raw.value.kind == File && Child(TextSlot(env.round, raw.value.content), k) != Absent
  {
    hide PlanPull, FindCategory, LastAdapter, KeysAt, TextSlot, NotMergeable, Mergeable, StripEntry, ViewOf, ModeOf,
      PlansInMode, HoldsMerge, Irreconcilable;
    var mode, f, x := PlanIs(env, base, local, remote, a.ref);
    EmptyTextHoldsNothing(env, k);
    if f.rawRemote.Some? {
      StripKeepsKind(env, KeysAt(env, a.ref), f.rawRemote.value);
      RawFileIsWhole(env, f);
      if f.rawRemote.value.kind == Json && a.remoteContent != "" { JudgedTextLacks(env, KeysAt(env, a.ref), f.rawRemote.value, k); }
    }
  }

  lemma RawFileIsWhole(env: Env, f: FileView)
    ensures f.remote.Some? && f.remote.value.kind == File ==> !Mergeable(env, f)
  {
    hide Parse;
  }

  lemma EmptyTextHoldsNothing(env: Env, k: string)
    ensures Child(TextSlot(env.round, ""), k) == Absent
  {
  }

  // ----- In order -----

  /** The order of the plan: adapters and categories as base, local, and remote first name them, paths by byte. */
  ghost predicate Earlier(env: Env, base: Snapshots, local: Snapshots, remote: Snapshots, x: FileRef, y: FileRef) {
    if x.adapter != y.adapter then ComesBefore(UnionIDs(base, local, remote), x.adapter, y.adapter)
    else if x.category != y.category then ComesBefore(CategoryOrder(env, x.adapter, base, local, remote), x.category, y.category)
    else Less(x.path, y.path)
  }

  function CategoryOrder(env: Env, id: string, base: Snapshots, local: Snapshots, remote: Snapshots): seq<string> {
    UnionNames(LastAdapter(Strip(env, base), id), LastAdapter(Strip(env, local), id), LastAdapter(Strip(env, remote), id))
  }

  ghost predicate Ordered(env: Env, base: Snapshots, local: Snapshots, remote: Snapshots, plan: seq<Action>) {
    forall i, j :: 0 <= i < j < |plan| ==> Earlier(env, base, local, remote, plan[i].ref, plan[j].ref)
  }

  lemma OrderedConcat(env: Env, base: Snapshots, local: Snapshots, remote: Snapshots, a: seq<Action>, b: seq<Action>)
    requires Ordered(env, base, local, remote, a) && Ordered(env, base, local, remote, b)
    requires forall x, y :: x in a && y in b ==> Earlier(env, base, local, remote, x.ref, y.ref)
    ensures Ordered(env, base, local, remote, a + b)
  {
    hide Earlier;
    forall i, j | 0 <= i < j < |a + b| ensures Earlier(env, base, local, remote, (a + b)[i].ref, (a + b)[j].ref) {
      if i < |a| <= j { assert a[i] in a && b[j - |a|] in b; }
    }
  }

  lemma {:induction false} PathsOrdered(env: Env, mode: string, id: string, name: string, s: Sides<Files>, paths: seq<string>,
                                        base: Snapshots, local: Snapshots, remote: Snapshots)
    requires Increasing(paths)
    ensures Ordered(env, base, local, remote, PlanPaths(env, mode, id, name, s, paths))
    ensures forall a :: a in PlanPaths(env, mode, id, name, s, paths) ==> a.ref == FileRef(id, name, a.ref.path) && a.ref.path in paths
  {
    hide PlanFile, CategoryOrder;
    if paths != [] {
      PathsOrdered(env, mode, id, name, s, paths[1..], base, local, remote);
      assert forall p :: p in paths[1..] ==> Less(paths[0], p);
      var a := PlanFile(env, mode, FileRef(id, name, paths[0]), ViewAt(s, paths[0]));
      OrderedConcat(env, base, local, remote, if a.Some? then [a.value] else [], PlanPaths(env, mode, id, name, s, paths[1..]));
    }
  }

  lemma {:induction false} NamesOrdered(env: Env, id: string, before: seq<string>, names: seq<string>, s: Sides<Option<Adapter>>,
                                        base: Snapshots, local: Snapshots, remote: Snapshots)
    requires before + names == CategoryOrder(env, id, base, local, remote) && Distinct(names)
    ensures Ordered(env, base, local, remote, PlanNames(env, id, names, s))
    ensures forall a :: a in PlanNames(env, id, names, s) ==> a.ref.adapter == id && a.ref.category in names
    decreases |names|
  {
    hide PlanPaths, CategoryOrder, Ordered;
    if names == [] {
      NothingIsOrdered(env, base, local, remote);
    } else {
      var all, n, rest := CategoryOrder(env, id, base, local, remote), names[0], names[1..];
      assert (before + [n]) + rest == before + names;
      NamesOrdered(env, id, before + [n], rest, s, base, local, remote);
      var here, more := PlanCategory(env, id, n, CategorySides(s, n)), PlanNames(env, id, rest, s);
      CategoryOrdered(env, id, n, CategorySides(s, n), base, local, remote);
      forall x, y | x in here && y in more ensures Earlier(env, base, local, remote, x.ref, y.ref) {
        var j :| 0 <= j < |rest| && rest[j] == y.ref.category;
        assert all[|before|] == n && all[|before| + 1 + j] == rest[j] && names[j + 1] == rest[j];
      }
      OrderedConcat(env, base, local, remote, here, more);
    }
  }

  lemma CategoryOrdered(env: Env, id: string, name: string, s: Sides<Option<Category>>, base: Snapshots, local: Snapshots, remote: Snapshots)
    ensures Ordered(env, base, local, remote, PlanCategory(env, id, name, s))
    ensures forall a :: a in PlanCategory(env, id, name, s) ==> a.ref.adapter == id && a.ref.category == name
  {
    hide PlanPaths, Ordered;
    var f := FileSides(s);
    assert Increasing(UnionPaths(f.base, f.local, f.remote)) by { PathsIncrease(f.base, f.local, f.remote); }
    PathsOrdered(env, PlanMode(s.local, s.base, s.remote), id, name, f, UnionPaths(f.base, f.local, f.remote), base, local, remote);
    assert Ordered(env, base, local, remote, []) by { NothingIsOrdered(env, base, local, remote); }
  }

  lemma NothingIsOrdered(env: Env, base: Snapshots, local: Snapshots, remote: Snapshots)
    ensures Ordered(env, base, local, remote, [])
  {
  }

  lemma PathsIncrease(b: Files, l: Files, r: Files)
    ensures Increasing(UnionPaths(b, l, r))
  {
  }

  lemma {:induction false} IDsOrdered(env: Env, before: seq<string>, ids: seq<string>, base: Snapshots, local: Snapshots, remote: Snapshots)
    requires before + ids == UnionIDs(base, local, remote) && Distinct(ids)
    ensures Ordered(env, base, local, remote, PlanIDs(env, ids, base, local, remote))
    ensures forall a :: a in PlanIDs(env, ids, base, local, remote) ==> a.ref.adapter in ids
    decreases |ids|
  {
    hide PlanNames, UnionIDs, Ordered, UnionNames;
    if ids == [] {
      NothingIsOrdered(env, base, local, remote);
    } else {
      var all, id, rest := UnionIDs(base, local, remote), ids[0], ids[1..];
      assert (before + [id]) + rest == before + ids;
      IDsOrdered(env, before + [id], rest, base, local, remote);
      var here, more := PlanAdapter(env, id, base, local, remote), PlanIDs(env, rest, base, local, remote);
      AdapterOrdered(env, id, base, local, remote);
      forall x, y | x in here && y in more ensures Earlier(env, base, local, remote, x.ref, y.ref) {
        var j :| 0 <= j < |rest| && rest[j] == y.ref.adapter;
        assert all[|before|] == id && all[|before| + 1 + j] == rest[j] && ids[j + 1] == rest[j];
      }
      OrderedConcat(env, base, local, remote, here, more);
    }
  }

  lemma AdapterOrdered(env: Env, id: string, base: Snapshots, local: Snapshots, remote: Snapshots)
    ensures Ordered(env, base, local, remote, PlanAdapter(env, id, base, local, remote))
    ensures forall a :: a in PlanAdapter(env, id, base, local, remote) ==> a.ref.adapter == id
  {
    hide PlanNames, Ordered, Strip;
    var s := AdapterSides(env, id, base, local, remote);
    var names := CategoryOrder(env, id, base, local, remote);
    assert [] + names == names;
    NamesOrdered(env, id, [], names, s, base, local, remote);
  }

  lemma IDsAreDistinct(base: Snapshots, local: Snapshots, remote: Snapshots)
    ensures Distinct(UnionIDs(base, local, remote))
  {
  }

  /** The plan is in order, so it holds no file twice. */
  lemma PlanIsOrdered(env: Env, base: Snapshots, local: Snapshots, remote: Snapshots)
    ensures Ordered(env, base, local, remote, PlanPull(env, base, local, remote))
  {
    hide PlanIDs, Ordered, UnionIDs;
    var ids := UnionIDs(base, local, remote);
    IDsAreDistinct(base, local, remote);
    assert [] + ids == ids;
    IDsOrdered(env, [], ids, base, local, remote);
  }

  // ----- The verdict -----

  /** Remote-ahead if some file counts a pull, else conflicts if some file counts one, else ok. */
  lemma VerdictIs(env: Env, base: Snapshots, local: Snapshots, remote: Snapshots)
    ensures var check := CheckPushSafety(env, base, local, remote);
            var pulls := exists ref :: GateTally(env, ref, base, local, remote).pull > 0;
            var clashes := exists ref :: GateTally(env, ref, base, local, remote).conflicts > 0;
            && (check.RemoteAhead? <==> pulls)
            && (check.Conflicts? <==> !pulls && clashes)
            && (check.PushOk? <==> !pulls && !clashes)
  {
    hide ComputeDrift, Total, PlanPull, GateTally, Strip, RemoteDrivenFiles, ConflictsOf, PushedFiles;
    TotalsOfGate(env, base, local, remote, Pulls);
    TotalsOfGate(env, base, local, remote, Clashes);
    forall ref ensures GateTally(env, ref, base, local, remote).pull == Count(GateTally(env, ref, base, local, remote), Pulls)
                       && GateTally(env, ref, base, local, remote).conflicts == Count(GateTally(env, ref, base, local, remote), Clashes) { }
  }

  // The plan writes or deletes this file, or shows a conflict on it.
  ghost predicate Changes(plan: seq<Action>, ref: FileRef) { exists a :: a in plan && !a.PullConflict? && a.ref == ref }

  ghost predicate Disputes(plan: seq<Action>, ref: FileRef) { exists a :: a in plan && a.PullConflict? && a.ref == ref }

  /** Remote-ahead names the files the plan writes or deletes; those it conflicts on only when it writes and deletes none. */
  lemma RemoteAheadNames(env: Env, base: Snapshots, local: Snapshots, remote: Snapshots, ref: FileRef)
    requires CheckPushSafety(env, base, local, remote).RemoteAhead?
    ensures var plan := PlanPull(env, base, local, remote);
            ref in CheckPushSafety(env, base, local, remote).files <==>
            if exists x :: Changes(plan, x) then Changes(plan, ref) else Disputes(plan, ref)
  {
    hide ComputeDrift, Total, PlanPull, Strip, PushedFiles;
    var plan := PlanPull(env, base, local, remote);
    var direct := ChangesOf(plan);
    if direct != [] {
      assert direct[0] in direct;
      assert Changes(plan, direct[0].ref);
    }
    if x :| Changes(plan, x) {
      var a :| a in plan && !a.PullConflict? && a.ref == x;
      assert a in direct;
    }
  }

  /** A conflicts verdict shows the plan's conflicts as planned. */
  lemma ConflictsShown(env: Env, base: Snapshots, local: Snapshots, remote: Snapshots, a: Action)
    requires CheckPushSafety(env, base, local, remote).Conflicts?
    ensures a in CheckPushSafety(env, base, local, remote).items <==> a.PullConflict? && a in PlanPull(env, base, local, remote)
  {
    hide ComputeDrift, Total, PlanPull, Strip, PushedFiles, RemoteDrivenFiles;
  }
}
