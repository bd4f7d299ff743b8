/** The push gate and the pull plan, over whole snapshots. */
module GateLaws {
  import opened JsonNumber
  import opened Snapshot
  import opened Drift
  import opened Plan
  import opened FileLaws

  // ----- The planner, file by file -----

  function SidesOf(env: Env, ref: FileRef, base: Snapshots, local: Snapshots, remote: Snapshots): Sides<Option<Category>> {
    CategorySides(AdapterSides(env, ref.adapter, base, local, remote), ref.category)
  }

  function ModeOf(env: Env, ref: FileRef, base: Snapshots, local: Snapshots, remote: Snapshots): string {
    var s := SidesOf(env, ref, base, local, remote);
    PlanMode(s.local, s.base, s.remote)
  }

  function ViewOf(env: Env, ref: FileRef, base: Snapshots, local: Snapshots, remote: Snapshots): FileView {
    ViewAt(FileSides(SidesOf(env, ref, base, local, remote)), ref.path)
  }

  function Planned(env: Env, ref: FileRef, base: Snapshots, local: Snapshots, remote: Snapshots): Option<Action> {
    if ModeOf(env, ref, base, local, remote) == "" then None
    else PlanFile(env, ModeOf(env, ref, base, local, remote), ref, ViewOf(env, ref, base, local, remote))
  }

  lemma {:induction false} PathsContain(env: Env, mode: string, id: string, name: string, s: Sides<Files>, paths: seq<string>, a: Action)
    ensures a in PlanPaths(env, mode, id, name, s, paths) <==>
            a.ref == FileRef(id, name, a.ref.path) && a.ref.path in paths && PlanFile(env, mode, a.ref, ViewAt(s, a.ref.path)) == Some(a)
  {
    hide PlanFile;
    if paths != [] { PathsContain(env, mode, id, name, s, paths[1..], a); }
  }

  lemma CategoryContains(env: Env, id: string, name: string, s: Sides<Option<Category>>, a: Action)
    ensures a in PlanCategory(env, id, name, s) <==>
            && a.ref == FileRef(id, name, a.ref.path) && PlanMode(s.local, s.base, s.remote) != ""
            && PlanFile(env, PlanMode(s.local, s.base, s.remote), a.ref, ViewAt(FileSides(s), a.ref.path)) == Some(a)
  {
    hide PlanFile, PlanPaths;
    var f := FileSides(s);
    PathsContain(env, PlanMode(s.local, s.base, s.remote), id, name, f, UnionPaths(f.base, f.local, f.remote), a);
  }

  lemma {:induction false} NamesContain(env: Env, id: string, names: seq<string>, s: Sides<Option<Adapter>>, a: Action)
    ensures a in PlanNames(env, id, names, s) <==>
            a.ref.adapter == id && a.ref.category in names && a in PlanCategory(env, id, a.ref.category, CategorySides(s, a.ref.category))
  {
    hide PlanCategory;
    if names != [] {
      NamesContain(env, id, names[1..], s, a);
      CategoryContains(env, id, names[0], CategorySides(s, names[0]), a);
    }
  }

  lemma {:induction false} IDsContain(env: Env, ids: seq<string>, base: Snapshots, local: Snapshots, remote: Snapshots, a: Action)
    ensures a in PlanIDs(env, ids, base, local, remote) <==>
            a.ref.adapter in ids && a in PlanAdapter(env, a.ref.adapter, base, local, remote)
  {
    hide PlanNames, UnionNames;
    if ids != [] {
      IDsContain(env, ids[1..], base, local, remote, a);
      var s := AdapterSides(env, ids[0], base, local, remote);
      NamesContain(env, ids[0], UnionNames(s.base, s.local, s.remote), s, a);
    }
  }

  /** The plan is exactly the action planned for each file. */
  lemma PlanIsByFile(env: Env, base: Snapshots, local: Snapshots, remote: Snapshots, a: Action)
    ensures a in PlanPull(env, base, local, remote) <==> Planned(env, a.ref, base, local, remote) == Some(a)
  {
    hide PlanFile, PlanIDs, PlanNames, PlanCategory, Strip, StripAdapter;
    var id, name := a.ref.adapter, a.ref.category;
    var s := AdapterSides(env, id, base, local, remote);
    IDsContain(env, UnionIDs(base, local, remote), base, local, remote, a);
    NamesContain(env, id, UnionNames(s.base, s.local, s.remote), s, a);
    CategoryContains(env, id, name, CategorySides(s, name), a);
    StripFindsLast(env, base, id);
    StripFindsLast(env, local, id);
    StripFindsLast(env, remote, id);
  }

  /** The judged sides of every file are its stripped raw sides. */
  lemma ViewIsJudged(env: Env, ref: FileRef, base: Snapshots, local: Snapshots, remote: Snapshots)
    ensures Judges(env, ExcludedKeys(env, ref.adapter, ref.category), ViewOf(env, ref, base, local, remote),
                   EntryAt(FilesOf(FindCategory(LastAdapter(base, ref.adapter), ref.category)), ref.path))
  {
    SideIsStripped(env, ref, base);
    SideIsStripped(env, ref, local);
    SideIsStripped(env, ref, remote);
  }

  lemma SideIsStripped(env: Env, ref: FileRef, s: Snapshots)
    ensures EntryAt(FilesOf(FindCategory(LastAdapter(Strip(env, s), ref.adapter), ref.category)), ref.path)
            == StripSide(env, ExcludedKeys(env, ref.adapter, ref.category),
                         EntryAt(FilesOf(FindCategory(LastAdapter(s, ref.adapter), ref.category)), ref.path))
  {
    hide StripEntry;
    StripFindsLast(env, s, ref.adapter);
    var a := LastAdapter(s, ref.adapter);
    if a.Some? { StripFindsCategory(env, a.value, ref.category); }
  }

  // ----- The drift counters, file by file -----

  function DriftSides(ref: FileRef, base: Snapshots, local: Snapshots, remote: Snapshots): (Option<Category>, Option<Category>, Option<Category>) {
    (FindCategory(FirstAdapter(base, ref.adapter), ref.category),
     FindCategory(FirstAdapter(local, ref.adapter), ref.category),
     FindCategory(FirstAdapter(remote, ref.adapter), ref.category))
  }

  // What the file named by `ref` adds to the counters of judged snapshots.
  function Counted(round: Rounding, ref: FileRef, base: Snapshots, local: Snapshots, remote: Snapshots): Tally {
    var s := DriftSides(ref, base, local, remote);
    var mode := DriftMode(s.1, s.0, s.2);
    if mode == "" then NO_TALLY else FileTally(round, mode, FilesOf(s.0), FilesOf(s.1), FilesOf(s.2), ref.path)
  }

  lemma {:induction false} FilesCount(round: Rounding, mode: string, b: Files, l: Files, r: Files, paths: seq<string>, c: Counter)
    ensures Count(FilesTally(round, mode, b, l, r, paths), c) == 0 <==>
            forall p :: p in paths ==> Count(FileTally(round, mode, b, l, r, p), c) == 0
  {
    hide FileTally;
    if paths != [] {
      FilesCount(round, mode, b, l, r, paths[..|paths| - 1], c);
      assert paths == paths[..|paths| - 1] + [paths[|paths| - 1]];
    }
  }

  lemma MissingFileCountsNothing(round: Rounding, mode: string, b: Files, l: Files, r: Files, p: string)
    requires p !in b && p !in l && p !in r
    ensures var t := FileTally(round, mode, b, l, r, p); t.pull == 0 && t.conflicts == 0 && t.push == 0
  {
  }

  lemma CategoryCounts(round: Rounding, id: string, name: string, b: Option<Category>, l: Option<Category>, r: Option<Category>, c: Counter)
    ensures Total(DriftOfCategory(round, id, name, b, l, r), c) == 0 <==>
            forall p :: DriftMode(l, b, r) != "" ==> Count(FileTally(round, DriftMode(l, b, r), FilesOf(b), FilesOf(l), FilesOf(r), p), c) == 0
  {
    hide FileTally, FilesTally;
    var mode, fb, fl, fr := DriftMode(l, b, r), FilesOf(b), FilesOf(l), FilesOf(r);
    if mode != "" {
      var paths := UnionPaths(fb, fl, fr);
      FilesCount(round, mode, fb, fl, fr, paths, c);
      forall p | p !in paths ensures Count(FileTally(round, mode, fb, fl, fr, p), c) == 0 { MissingFileCountsNothing(round, mode, fb, fl, fr, p); }
      var d := CategoryDrift(id, name, mode, FilesTally(round, mode, fb, fl, fr, paths));
      assert Total([d], c) == Count(d.tally, c) + Total([d][1..], c);
    }
  }

  lemma {:induction false} TotalConcat(a: seq<CategoryDrift>, b: seq<CategoryDrift>, c: Counter)
    ensures Total(a + b, c) == Total(a, c) + Total(b, c)
  {
    if a == [] {
      assert a + b == b;
    } else {
      assert (a + b)[1..] == a[1..] + b;
      TotalConcat(a[1..], b, c);
    }
  }

  function NameTotal(round: Rounding, id: string, n: string, b: Option<Adapter>, l: Option<Adapter>, r: Option<Adapter>, c: Counter): nat {
    Total(DriftOfCategory(round, id, n, FindCategory(b, n), FindCategory(l, n), FindCategory(r, n)), c)
  }

  lemma {:induction false} NamesCount(round: Rounding, id: string, names: seq<string>, b: Option<Adapter>, l: Option<Adapter>, r: Option<Adapter>, c: Counter)
    ensures Total(DriftOfNames(round, id, names, b, l, r), c) == 0 <==> forall n :: n in names ==> NameTotal(round, id, n, b, l, r, c) == 0
  {
    hide DriftOfCategory, FindCategory;
    if names != [] {
      var n := names[0];
      NamesCount(round, id, names[1..], b, l, r, c);
      TotalConcat(DriftOfCategory(round, id, n, FindCategory(b, n), FindCategory(l, n), FindCategory(r, n)), DriftOfNames(round, id, names[1..], b, l, r), c);
      assert names == [n] + names[1..];
      assert NameTotal(round, id, n, b, l, r, c) == 0 || n in names;
    }
  }

  lemma {:induction false} IDsCount(round: Rounding, ids: seq<string>, base: Snapshots, local: Snapshots, remote: Snapshots, c: Counter)
    ensures Total(DriftOfIDs(round, ids, base, local, remote), c) == 0 <==>
            forall id :: id in ids ==> Total(DriftOfAdapter(round, id, base, local, remote), c) == 0
  {
    hide DriftOfAdapter;
    if ids != [] {
      IDsCount(round, ids[1..], base, local, remote, c);
      TotalConcat(DriftOfAdapter(round, ids[0], base, local, remote), DriftOfIDs(round, ids[1..], base, local, remote), c);
      assert ids == [ids[0]] + ids[1..];
    }
  }

  ghost predicate Uncounted(round: Rounding, ref: FileRef, base: Snapshots, local: Snapshots, remote: Snapshots, c: Counter) {
    Count(Counted(round, ref, base, local, remote), c) == 0
  }

  lemma AdapterCounts(round: Rounding, id: string, base: Snapshots, local: Snapshots, remote: Snapshots, c: Counter)
    ensures (id in UnionIDs(base, local, remote) ==> Total(DriftOfAdapter(round, id, base, local, remote), c) == 0) <==>
            forall n, p :: Uncounted(round, FileRef(id, n, p), base, local, remote, c)
  {
    hide FileTally, DriftOfNames, DriftOfCategory, Total, Names, FindCategory;
    var b, l, r := FirstAdapter(base, id), FirstAdapter(local, id), FirstAdapter(remote, id);
    var names := UnionNames(b, l, r);
    NamesCount(round, id, names, b, l, r, c);
    forall n ensures (NameTotal(round, id, n, b, l, r, c) == 0 <==> forall p :: Uncounted(round, FileRef(id, n, p), base, local, remote, c))
                     && (n !in names ==> forall p :: Uncounted(round, FileRef(id, n, p), base, local, remote, c)) {
      NameCounts(round, id, n, base, local, remote, c);
    }
  }

  lemma NameCounts(round: Rounding, id: string, n: string, base: Snapshots, local: Snapshots, remote: Snapshots, c: Counter)
    ensures var b, l, r := FirstAdapter(base, id), FirstAdapter(local, id), FirstAdapter(remote, id);
            && (NameTotal(round, id, n, b, l, r, c) == 0 <==> forall p :: Uncounted(round, FileRef(id, n, p), base, local, remote, c))
            && (n !in UnionNames(b, l, r) ==> forall p :: Uncounted(round, FileRef(id, n, p), base, local, remote, c))
  {
    hide FileTally, DriftOfCategory, Total, FindCategory;
    var b, l, r := FirstAdapter(base, id), FirstAdapter(local, id), FirstAdapter(remote, id);
    var cb, cl, cr := FindCategory(b, n), FindCategory(l, n), FindCategory(r, n);
    CategoryCounts(round, id, n, cb, cl, cr, c);
    forall p ensures Uncounted(round, FileRef(id, n, p), base, local, remote, c) <==>
                     (DriftMode(cl, cb, cr) != "" ==> Count(FileTally(round, DriftMode(cl, cb, cr), FilesOf(cb), FilesOf(cl), FilesOf(cr), p), c) == 0) {}
  }

  /** A total is zero exactly when no file counts. */
  lemma TotalIsByFile(round: Rounding, base: Snapshots, local: Snapshots, remote: Snapshots, c: Counter)
    ensures Total(ComputeDrift(round, base, local, Some(remote)), c) == 0 <==> forall ref :: Uncounted(round, ref, base, local, remote, c)
  {
    hide DriftOfIDs, Total, Uncounted, DriftOfAdapter;
    var ids := UnionIDs(base, local, remote);
    IDsCount(round, ids, base, local, remote, c);
    forall id ensures (id in ids ==> Total(DriftOfAdapter(round, id, base, local, remote), c) == 0) <==>
                      forall n, p :: Uncounted(round, FileRef(id, n, p), base, local, remote, c) {
      AdapterCounts(round, id, base, local, remote, c);
    }
    if forall id :: id in ids ==> Total(DriftOfAdapter(round, id, base, local, remote), c) == 0 {
      forall ref: FileRef ensures Uncounted(round, ref, base, local, remote, c) {
        assert ref.adapter in ids ==> Total(DriftOfAdapter(round, ref.adapter, base, local, remote), c) == 0;
        assert Uncounted(round, FileRef(ref.adapter, ref.category, ref.path), base, local, remote, c);
      }
    }
  }
}
