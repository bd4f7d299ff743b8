/** The main results about drift: which categories it lists, and what their counters add up to. */
module DriftTheorems {
  import opened JsonValue
  import opened JsonNumber
  import opened Keys
  import opened Diff
  import opened Snapshot
  import opened Drift
  import opened Plan
  import opened FileMatrix
  import opened GateLaws
  import opened SyncTheorems
  import opened ChangedFiles

  // ----- Which categories are listed -----

  /** The first mode that local, base, or remote declares, in this order. */
  predicate LeadingMode(mode: string, local: Option<Category>, base: Option<Category>, remote: Option<Category>) {
    if local.Some? && local.value.mode != "" then mode == local.value.mode
    else if base.Some? && base.value.mode != "" then mode == base.value.mode
    else if remote.Some? && remote.value.mode != "" then mode == remote.value.mode
    else mode == ""
  }

  lemma DriftModeLeads(local: Option<Category>, base: Option<Category>, remote: Option<Category>)
    ensures LeadingMode(DriftMode(local, base, remote), local, base, remote)
  {
  }

  /** A category is listed exactly if some side declares a mode for it; it then bears that mode and counts all its files. */
  lemma ListedCategories(round: Rounding, base: Snapshots, local: Snapshots, remote: Snapshots, d: CategoryDrift)
    ensures var s := DriftSides(FileRef(d.adapter, d.category, ""), base, local, remote);
            d in ComputeDrift(round, base, local, Some(remote)) <==>
            && LeadingMode(d.mode, s.1, s.0, s.2) && d.mode != ""
            && d.tally == FilesTally(round, d.mode, FilesOf(s.0), FilesOf(s.1), FilesOf(s.2), UnionPaths(FilesOf(s.0), FilesOf(s.1), FilesOf(s.2)))
  {
    hide ComputeDrift, FilesTally, FindCategory, FirstAdapter, UnionPaths;
    DriftsHold(round, base, local, remote, FileRef(d.adapter, d.category, ""), d);
    var s := DriftSides(FileRef(d.adapter, d.category, ""), base, local, remote);
    DriftModeLeads(s.1, s.0, s.2);
  }

  ghost predicate NoTwins(ds: seq<CategoryDrift>) {
    forall i, j :: 0 <= i < j < |ds| ==> ds[i].adapter != ds[j].adapter || ds[i].category != ds[j].category
  }

  lemma {:induction false} NamesHaveNoTwins(round: Rounding, id: string, names: seq<string>, b: Option<Adapter>, l: Option<Adapter>, r: Option<Adapter>)
    requires Distinct(names)
    ensures var ds := DriftOfNames(round, id, names, b, l, r);
            NoTwins(ds) && forall d :: d in ds ==> d.adapter == id && d.category in names
  {
    hide FilesTally, FindCategory;
    if names != [] {
      NamesHaveNoTwins(round, id, names[1..], b, l, r);
      assert forall n :: n in names[1..] ==> n in names && n != names[0];
    }
  }

  lemma TwinsApart(a: seq<CategoryDrift>, b: seq<CategoryDrift>)
    requires NoTwins(a) && NoTwins(b) && forall x, y :: x in a && y in b ==> x.adapter != y.adapter
    ensures NoTwins(a + b)
  {
    forall i, j | 0 <= i < j < |a + b| ensures (a + b)[i].adapter != (a + b)[j].adapter || (a + b)[i].category != (a + b)[j].category {
      if i < |a| <= j { assert a[i] in a && b[j - |a|] in b; }
    }
  }

  lemma {:induction false} IDsHaveNoTwins(round: Rounding, ids: seq<string>, base: Snapshots, local: Snapshots, remote: Snapshots)
    requires Distinct(ids)
    ensures NoTwins(DriftOfIDs(round, ids, base, local, remote))
  {
    hide DriftOfNames, UnionNames;
    if ids != [] {
      var b, l, r := FirstAdapter(base, ids[0]), FirstAdapter(local, ids[0]), FirstAdapter(remote, ids[0]);
      var here, more := DriftOfAdapter(round, ids[0], base, local, remote), DriftOfIDs(round, ids[1..], base, local, remote);
      NamesAreDistinct(b, l, r);
      NamesHaveNoTwins(round, ids[0], UnionNames(b, l, r), b, l, r);
      IDsHaveNoTwins(round, ids[1..], base, local, remote);
      forall x, y | x in here && y in more ensures x.adapter != y.adapter {
        IDsHold(round, ids[1..], base, local, remote, y);
      }
      TwinsApart(here, more);
    }
  }

  lemma NamesAreDistinct(b: Option<Adapter>, l: Option<Adapter>, r: Option<Adapter>)
    ensures Distinct(UnionNames(b, l, r))
  {
  }

  /** No category is listed twice. */
  lemma ListedOnce(round: Rounding, base: Snapshots, local: Snapshots, remote: Option<Snapshots>)
    ensures NoTwins(ComputeDrift(round, base, local, remote))
  {
    var r := if remote.Some? then remote.value else base;
    IDsHaveNoTwins(round, UnionIDs(base, local, r), base, local, r);
  }

  // ----- Sums -----

  function Sum(counts: seq<nat>): nat { if counts == [] then 0 else counts[0] + Sum(counts[1..]) }

  lemma {:induction false} SumSnoc(counts: seq<nat>, n: nat)
    ensures Sum(counts + [n]) == Sum(counts) + n
  {
    if counts == [] {
      assert (counts + [n])[1..] == [];
    } else {
      assert (counts + [n])[1..] == counts[1..] + [n];
      SumSnoc(counts[1..], n);
    }
  }

  lemma CountNext(round: Rounding, mode: string, b: Files, l: Files, r: Files, paths: seq<string>, c: Counter)
    ensures Count(FilesTally(round, mode, b, l, r, paths), c) ==
            if paths == [] then 0
            else
              var n := |paths| - 1;
              Count(FilesTally(round, mode, b, l, r, paths[..n]), c) + Count(FileTally(round, mode, b, l, r, paths[n]), c)
  {
    hide FileTally;
  }

  /** Each counter of a category is the sum over its files, each taken once. */
  lemma {:induction false} CategoryCountIsSum(round: Rounding, mode: string, b: Files, l: Files, r: Files, paths: seq<string>, c: Counter)
    ensures Count(FilesTally(round, mode, b, l, r, paths), c) ==
            Sum(seq(|paths|, i requires 0 <= i < |paths| => Count(FileTally(round, mode, b, l, r, paths[i]), c)))
  {
    hide FileTally, FilesTally;
    CountNext(round, mode, b, l, r, paths, c);
    var counts := seq(|paths|, i requires 0 <= i < |paths| => Count(FileTally(round, mode, b, l, r, paths[i]), c));
    if paths != [] {
      var n := |paths| - 1;
      CategoryCountIsSum(round, mode, b, l, r, paths[..n], c);
      var before := seq(n, i requires 0 <= i < n => Count(FileTally(round, mode, b, l, r, paths[..n][i]), c));
      assert counts == before + [Count(FileTally(round, mode, b, l, r, paths[n]), c)];
      SumSnoc(before, Count(FileTally(round, mode, b, l, r, paths[n]), c));
    }
  }

  // ----- Pushes -----

  lemma FilePushesIffMoved(round: Rounding, mode: string, b: Files, l: Files, r: Files, path: string)
    ensures FileTally(round, mode, b, l, r, path).push > 0 <==> Moved(round, mode, EntryAt(b, path), EntryAt(l, path), EntryAt(r, path))
  {
    hide ParseEntry, DiffJSON, ValueOf, Degraded, CompareFile, DeepEqual;
    var be, le, re := EntryAt(b, path), EntryAt(l, path), EntryAt(r, path);
    WholeFileCounts(path, be, le, re);
    CompareFileIs(be, le, re);
    DiffKeysAreLabels(ValueOf(round, be), ValueOf(round, le));
    RemoteSideCountsNoPush(round, path, be, le, re);
  }

  lemma GatePushesIffMoved(env: Env, base: Snapshots, local: Snapshots, remote: Snapshots, ref: FileRef)
    ensures GateTally(env, ref, base, local, remote).push > 0 <==> LocalMoved(env, ref, base, local, remote)
  {
    hide FileTally, Moved, Strip, FirstAdapter, FindCategory;
    var s := DriftSides(ref, Strip(env, base), Strip(env, local), Strip(env, remote));
    FilePushesIffMoved(env.round, DriftMode(s.1, s.0, s.2), FilesOf(s.0), FilesOf(s.1), FilesOf(s.2), ref.path);
  }

  /** Nothing is counted as a push exactly if local changed no file. */
  lemma NoPushIffNothingMoved(env: Env, base: Snapshots, local: Snapshots, remote: Snapshots)
    ensures Total(ComputeDrift(env.round, Strip(env, base), Strip(env, local), Some(Strip(env, remote))), Pushed) == 0 <==>
            forall ref :: !LocalMoved(env, ref, base, local, remote)
  {
    hide ComputeDrift, Total, GateTally, LocalMoved, Strip;
    TotalsOfGate(env, base, local, remote, Pushed);
    forall ref ensures Count(GateTally(env, ref, base, local, remote), Pushed) == 0 <==> !LocalMoved(env, ref, base, local, remote) {
      GatePushesIffMoved(env, base, local, remote, ref);
    }
  }

  /** The same for one category. */
  lemma CategoryPushesIffMoved(round: Rounding, id: string, name: string, b: Option<Category>, l: Option<Category>, r: Option<Category>)
    ensures var mode := DriftMode(l, b, r);
            Total(DriftOfCategory(round, id, name, b, l, r), Pushed) == 0 <==>
            forall p :: mode != "" ==> !Moved(round, mode, EntryAt(FilesOf(b), p), EntryAt(FilesOf(l), p), EntryAt(FilesOf(r), p))
  {
    hide Total, DriftOfCategory, FileTally, Moved;
    var mode, fb, fl, fr := DriftMode(l, b, r), FilesOf(b), FilesOf(l), FilesOf(r);
    CategoryCounts(round, id, name, b, l, r, Pushed);
    forall p ensures Count(FileTally(round, mode, fb, fl, fr, p), Pushed) == 0 <==> !Moved(round, mode, EntryAt(fb, p), EntryAt(fl, p), EntryAt(fr, p)) {
      FilePushesIffMoved(round, mode, fb, fl, fr, p);
    }
  }

  /** Without a remote, remote stands at base: nothing is pulled and nothing conflicts. */
  lemma OfflineDriftIsLocal(env: Env, base: Snapshots, local: Snapshots)
    ensures var ds := ComputeDrift(env.round, Strip(env, base), Strip(env, local), None);
            && Total(ds, Pulls) == 0 && Total(ds, Clashes) == 0
            && (Total(ds, Pushed) == 0 <==> forall ref :: !LocalMoved(env, ref, base, local, base))
  {
    hide Total, Strip, DriftOfIDs, LocalMoved, GateTally;
    forall ref ensures Count(GateTally(env, ref, base, local, base), Pulls) == 0 && Count(GateTally(env, ref, base, local, base), Clashes) == 0 {
      AtBaseCountsNothing(env, ref, base, local);
    }
    TotalsOfGate(env, base, local, base, Pulls);
    TotalsOfGate(env, base, local, base, Clashes);
    NoPushIffNothingMoved(env, base, local, base);
  }
}
