/** The main results about pull plans and the push gate. */
module SyncTheorems {
  import opened JsonValue
  import opened JsonText
  import opened Diff
  import opened MergeLaws
  import opened Snapshot
  import opened Drift
  import opened Plan
  import opened FileLaws
  import opened FileGate
  import opened FilePull
  import opened GateLaws

  function KeysAt(env: Env, ref: FileRef): seq<string> { ExcludedKeys(env, ref.adapter, ref.category) }

  // What the gate counts for a file of raw snapshots.
  function GateTally(env: Env, ref: FileRef, base: Snapshots, local: Snapshots, remote: Snapshots): Tally {
    Counted(env.round, ref, Strip(env, base), Strip(env, local), Strip(env, remote))
  }

  // The drift engine reads the first adapter of an ID and the planner the last.
  predicate Unambiguous(base: Snapshots, local: Snapshots, remote: Snapshots) {
    UniqueIDs(base) && UniqueIDs(local) && UniqueIDs(remote)
  }

  // A category whose leading snapshot (local, else base, else remote) declares no mode declares none at all.
  ghost predicate ModesLead(env: Env, base: Snapshots, local: Snapshots, remote: Snapshots) {
    forall ref :: ModeOf(env, ref, base, local, remote) == "" ==>
      var s := SidesOf(env, ref, base, local, remote); DriftMode(s.local, s.base, s.remote) == ""
  }

  lemma GateTallyIsTally(env: Env, ref: FileRef, base: Snapshots, local: Snapshots, remote: Snapshots)
    requires Unambiguous(base, local, remote)
    ensures ModeOf(env, ref, base, local, remote) != "" ==>
              GateTally(env, ref, base, local, remote) == TallyOf(env, ModeOf(env, ref, base, local, remote), ref.path, ViewOf(env, ref, base, local, remote))
    ensures ModeOf(env, ref, base, local, remote) == "" && ModesLead(env, base, local, remote) ==>
              GateTally(env, ref, base, local, remote) == NO_TALLY
  {
    hide MergeFile, StripAdapter, Strip, UniqueIDs, FindCategory, FirstAdapter, LastAdapter;
    StripKeepsIDs(env, base);
    StripKeepsIDs(env, local);
    StripKeepsIDs(env, remote);
    FirstIsLast(Strip(env, base), ref.adapter);
    FirstIsLast(Strip(env, local), ref.adapter);
    FirstIsLast(Strip(env, remote), ref.adapter);
  }

  lemma TotalsOfGate(env: Env, base: Snapshots, local: Snapshots, remote: Snapshots, c: Counter)
    ensures Total(ComputeDrift(env.round, Strip(env, base), Strip(env, local), Some(Strip(env, remote))), c) == 0 <==>
            forall ref :: Count(GateTally(env, ref, base, local, remote), c) == 0
  {
    hide ComputeDrift, Total, Counted, Strip;
    var b, l, r := Strip(env, base), Strip(env, local), Strip(env, remote);
    TotalIsByFile(env.round, b, l, r, c);
    if forall ref :: Uncounted(env.round, ref, b, l, r, c) {
      forall ref ensures Count(GateTally(env, ref, base, local, remote), c) == 0 { assert Uncounted(env.round, ref, b, l, r, c); }
    }
    if forall ref :: Count(GateTally(env, ref, base, local, remote), c) == 0 {
      forall ref ensures Uncounted(env.round, ref, b, l, r, c) { assert Count(GateTally(env, ref, base, local, remote), c) == 0; }
    }
  }

  // ----- The gate and the plan agree -----

  lemma SomeFileCounts(env: Env, base: Snapshots, local: Snapshots, remote: Snapshots, c: Counter) returns (a: Action)
    requires Unambiguous(base, local, remote) && ModesLead(env, base, local, remote) && !c.Pushed?
    requires Total(ComputeDrift(env.round, Strip(env, base), Strip(env, local), Some(Strip(env, remote))), c) > 0
    ensures a in PlanPull(env, base, local, remote) && (c.Clashes? ==> a.PullConflict?)
  {
    hide ComputeDrift, Total, PlanPull, PlanFile, TallyOf, GateTally, ViewOf, ModeOf, ExcludedKeys, Judges;
    TotalsOfGate(env, base, local, remote, c);
    var ref :| Count(GateTally(env, ref, base, local, remote), c) != 0;
    GateTallyIsTally(env, ref, base, local, remote);
    ViewIsJudged(env, ref, base, local, remote);
    var raw := EntryAt(FilesOf(FindCategory(LastAdapter(base, ref.adapter), ref.category)), ref.path);
    CountedIsPlanned(env, ModeOf(env, ref, base, local, remote), ref, ViewOf(env, ref, base, local, remote), raw);
    a := Planned(env, ref, base, local, remote).value;
    PlanIsByFile(env, base, local, remote, a);
  }

  /** A remote-ahead verdict names a file, and a conflicts verdict shows a conflict. */
  lemma VerdictsNameFiles(env: Env, base: Snapshots, local: Snapshots, remote: Snapshots)
    requires Unambiguous(base, local, remote) && ModesLead(env, base, local, remote)
    ensures match CheckPushSafety(env, base, local, remote)
            case RemoteAhead(files) => files != []
            case Conflicts(items) => items != []
            case PushOk(_) => true
  {
    hide ComputeDrift, Total, PlanPull;
    var drifts := ComputeDrift(env.round, Strip(env, base), Strip(env, local), Some(Strip(env, remote)));
    var plan := PlanPull(env, base, local, remote);
    if Total(drifts, Pulls) > 0 {
      var a := SomeFileCounts(env, base, local, remote, Pulls);
      assert a in ChangesOf(plan) || a in ConflictsOf(plan);
      assert a.ref in RemoteDrivenFiles(plan) || ChangesOf(plan) != [];
      if ChangesOf(plan) != [] { assert ChangesOf(plan)[0].ref in RemoteDrivenFiles(plan); }
    } else if Total(drifts, Clashes) > 0 {
      var a := SomeFileCounts(env, base, local, remote, Clashes);
      assert a in ConflictsOf(plan);
    }
  }

  /** With remote at base nothing is counted, nothing is planned, and the push is let through. */
  lemma RemoteAtBaseIsSafe(env: Env, base: Snapshots, local: Snapshots)
    ensures PlanPull(env, base, local, base) == []
    ensures CheckPushSafety(env, base, local, base).PushOk?
  {
    hide ComputeDrift, Total, PlanPull, PlanFile, TallyOf, Strip;
    forall ref ensures Planned(env, ref, base, local, base).None? {
      RemoteAtBaseIsQuiet(env, ModeOf(env, ref, base, local, base), ref, ViewOf(env, ref, base, local, base));
    }
    EmptyIffNonePlanned(env, base, local, base);
    forall c: Counter | !c.Pushed? ensures Total(ComputeDrift(env.round, Strip(env, base), Strip(env, local), Some(Strip(env, base))), c) == 0 {
      forall ref ensures Count(GateTally(env, ref, base, local, base), c) == 0 { AtBaseCountsNothing(env, ref, base, local); }
      TotalsOfGate(env, base, local, base, c);
    }
  }

  lemma AtBaseCountsNothing(env: Env, ref: FileRef, base: Snapshots, local: Snapshots)
    ensures GateTally(env, ref, base, local, base).pull == 0 && GateTally(env, ref, base, local, base).conflicts == 0
  {
    hide MergeFile, Strip, PlanFile;
    var s := DriftSides(ref, Strip(env, base), Strip(env, local), Strip(env, base));
    var f := FileView(EntryAt(FilesOf(s.0), ref.path), EntryAt(FilesOf(s.1), ref.path), EntryAt(FilesOf(s.2), ref.path), None, None);
    RemoteAtBaseIsQuiet(env, DriftMode(s.1, s.0, s.2), ref, f);
  }

  /** Seen in the mode the planner uses, a file counts nothing and leaves nothing open. */
  ghost predicate FileIsQuiet(env: Env, ref: FileRef, base: Snapshots, local: Snapshots, remote: Snapshots) {
    var mode, f := ModeOf(env, ref, base, local, remote), ViewOf(env, ref, base, local, remote);
    mode != "" ==>
      && TallyOf(env, mode, ref.path, f).pull == 0 && TallyOf(env, mode, ref.path, f).conflicts == 0
      && GateHolds(env, mode, KeysAt(env, ref), f)
  }

  lemma PlannedIffNotQuiet(env: Env, ref: FileRef, base: Snapshots, local: Snapshots, remote: Snapshots)
    ensures Planned(env, ref, base, local, remote).None? <==> FileIsQuiet(env, ref, base, local, remote)
  {
    hide PlanFile, TallyOf, GateHolds, Strip, ViewOf, ModeOf;
    var mode, f := ModeOf(env, ref, base, local, remote), ViewOf(env, ref, base, local, remote);
    var raw := EntryAt(FilesOf(FindCategory(LastAdapter(base, ref.adapter), ref.category)), ref.path);
    ViewIsJudged(env, ref, base, local, remote);
    CountedIsPlanned(env, mode, ref, f, raw);
    if TallyOf(env, mode, ref.path, f).pull == 0 && TallyOf(env, mode, ref.path, f).conflicts == 0 {
      UncountedIsQuietIff(env, mode, ref, f, raw);
    }
  }

  /** For all snapshots: a remote-ahead verdict shows no file exactly when every file is quiet in the planner's mode. */
  lemma RemoteAheadIsEmptyIff(env: Env, base: Snapshots, local: Snapshots, remote: Snapshots)
    requires CheckPushSafety(env, base, local, remote).RemoteAhead?
    ensures CheckPushSafety(env, base, local, remote).files == [] <==> forall ref :: FileIsQuiet(env, ref, base, local, remote)
  {
    hide ComputeDrift, Total, PlanPull, FileIsQuiet, Planned;
    var plan := PlanPull(env, base, local, remote);
    EmptyIffNonePlanned(env, base, local, remote);
    forall ref ensures Planned(env, ref, base, local, remote).None? <==> FileIsQuiet(env, ref, base, local, remote) {
      PlannedIffNotQuiet(env, ref, base, local, remote);
    }
    if plan != [] {
      assert plan[0] in ChangesOf(plan) || plan[0] in ConflictsOf(plan);
      if ChangesOf(plan) != [] {
        assert ChangesOf(plan)[0].ref in RemoteDrivenFiles(plan);
      } else {
        assert plan[0].ref in RemoteDrivenFiles(plan);
      }
    }
  }

  /** Seen in the mode the planner uses, a file gives no cause for a conflict. */
  ghost predicate FileIsUndisputed(env: Env, ref: FileRef, base: Snapshots, local: Snapshots, remote: Snapshots) {
    var mode, f := ModeOf(env, ref, base, local, remote), ViewOf(env, ref, base, local, remote);
    mode != "" ==> !Disputed(env, mode, ref.path, f)
  }

  lemma PlannedConflictIffDisputed(env: Env, ref: FileRef, base: Snapshots, local: Snapshots, remote: Snapshots)
    ensures var a := Planned(env, ref, base, local, remote);
            a.Some? && a.value.PullConflict? <==> !FileIsUndisputed(env, ref, base, local, remote)
  {
    hide PlanFile, Disputed, Strip, ViewOf, ModeOf;
    var mode, f := ModeOf(env, ref, base, local, remote), ViewOf(env, ref, base, local, remote);
    var raw := EntryAt(FilesOf(FindCategory(LastAdapter(base, ref.adapter), ref.category)), ref.path);
    ViewIsJudged(env, ref, base, local, remote);
    PlannedConflictIff(env, mode, ref, f, raw);
  }

  /** For all snapshots: a conflicts verdict shows no conflict exactly when every file is undisputed in the planner's mode. */
  lemma ConflictsIsEmptyIff(env: Env, base: Snapshots, local: Snapshots, remote: Snapshots)
    requires CheckPushSafety(env, base, local, remote).Conflicts?
    ensures CheckPushSafety(env, base, local, remote).items == [] <==> forall ref :: FileIsUndisputed(env, ref, base, local, remote)
  {
    hide ComputeDrift, Total, PlanPull, FileIsUndisputed, Planned;
    var items := ConflictsOf(PlanPull(env, base, local, remote));
    forall ref ensures Planned(env, ref, base, local, remote).Some? && Planned(env, ref, base, local, remote).value.PullConflict?
                       <==> !FileIsUndisputed(env, ref, base, local, remote) {
      PlannedConflictIffDisputed(env, ref, base, local, remote);
    }
    if items == [] {
      forall ref ensures FileIsUndisputed(env, ref, base, local, remote) {
        var a := Planned(env, ref, base, local, remote);
        if a.Some? && a.value.PullConflict? {
          PlannedKeepsRef(env, ref, base, local, remote);
          PlanIsByFile(env, base, local, remote, a.value);
        }
      }
    } else {
      PlanIsByFile(env, base, local, remote, items[0]);
    }
  }

  lemma PlannedKeepsRef(env: Env, ref: FileRef, base: Snapshots, local: Snapshots, remote: Snapshots)
    ensures Planned(env, ref, base, local, remote).Some? ==> Planned(env, ref, base, local, remote).value.ref == ref
  {
    hide PlanFile, ViewOf, ModeOf;
  }

  /** For all snapshots: the verdict is ok exactly when no file counts a pull or a conflict. */
  lemma OkIffUncounted(env: Env, base: Snapshots, local: Snapshots, remote: Snapshots)
    ensures CheckPushSafety(env, base, local, remote).PushOk? <==>
            forall ref :: GateTally(env, ref, base, local, remote).pull == 0 && GateTally(env, ref, base, local, remote).conflicts == 0
  {
    hide ComputeDrift, Total, PlanPull, GateTally, Strip, RemoteDrivenFiles, ConflictsOf;
    TotalsOfGate(env, base, local, remote, Pulls);
    TotalsOfGate(env, base, local, remote, Clashes);
    if CheckPushSafety(env, base, local, remote).PushOk? {
      forall ref ensures GateTally(env, ref, base, local, remote).pull == 0 && GateTally(env, ref, base, local, remote).conflicts == 0 {
        assert Count(GateTally(env, ref, base, local, remote), Pulls) == 0 && Count(GateTally(env, ref, base, local, remote), Clashes) == 0;
      }
    }
  }

  // ----- The gate is complete exactly when... -----

  /**
   When the gate lets a push through, the pull plan is empty exactly when, for every file, what the
   counters leave open holds.
   */
  lemma OkMeansQuietIff(env: Env, base: Snapshots, local: Snapshots, remote: Snapshots)
    requires Unambiguous(base, local, remote) && CheckPushSafety(env, base, local, remote).PushOk?
    ensures PlanPull(env, base, local, remote) == [] <==>
            forall ref :: ModeOf(env, ref, base, local, remote) != "" ==>
              GateHolds(env, ModeOf(env, ref, base, local, remote), KeysAt(env, ref), ViewOf(env, ref, base, local, remote))
  {
    hide ComputeDrift, Total, PlanPull, PlanFile, TallyOf, GateTally, ViewOf, ModeOf, GateHolds, ExcludedKeys, Judges;
    TotalsOfGate(env, base, local, remote, Pulls);
    TotalsOfGate(env, base, local, remote, Clashes);
    forall ref ensures Planned(env, ref, base, local, remote).None? <==>
                       (ModeOf(env, ref, base, local, remote) != "" ==>
                        GateHolds(env, ModeOf(env, ref, base, local, remote), KeysAt(env, ref), ViewOf(env, ref, base, local, remote))) {
      assert Count(GateTally(env, ref, base, local, remote), Pulls) == 0 && Count(GateTally(env, ref, base, local, remote), Clashes) == 0;
      GateTallyIsTally(env, ref, base, local, remote);
      ViewIsJudged(env, ref, base, local, remote);
      if ModeOf(env, ref, base, local, remote) != "" {
        var raw := EntryAt(FilesOf(FindCategory(LastAdapter(base, ref.adapter), ref.category)), ref.path);
        UncountedIsQuietIff(env, ModeOf(env, ref, base, local, remote), ref, ViewOf(env, ref, base, local, remote), raw);
      }
    }
    EmptyIffNonePlanned(env, base, local, remote);
  }

  lemma EmptyIffNonePlanned(env: Env, base: Snapshots, local: Snapshots, remote: Snapshots)
    ensures PlanPull(env, base, local, remote) == [] <==> forall ref :: Planned(env, ref, base, local, remote).None?
  {
    hide PlanPull, PlanFile, ViewOf, ModeOf;
    var plan := PlanPull(env, base, local, remote);
    if plan == [] {
      forall ref ensures Planned(env, ref, base, local, remote).None? {
        if Planned(env, ref, base, local, remote).Some? {
          var a := Planned(env, ref, base, local, remote).value;
          PlanIsByFile(env, base, local, remote, a);
        }
      }
    } else {
      PlanIsByFile(env, base, local, remote, plan[0]);
    }
  }

  // Object keys are non-empty and free of dots, at every depth the diff descends to.
  predicate PlainKeys(v: Value) {
    v.Obj? ==> forall k :: k in v.m ==> PlainKey(k) && PlainKeys(v.m[k])
  }

  lemma {:induction false} DiffPathsArePlain(b: Slot, l: Slot, p: Path)
    requires Differs(b, l, p) && (b.Present? ==> PlainKeys(b.v)) && (l.Present? ==> PlainKeys(l.v))
    ensures PlainPath(p)
    decreases |p|
  {
    if p != [] {
      DiffPathsArePlain(Child(b, p[0]), Child(l, p[0]), p[1..]);
      assert Child(b, p[0]).Present? || Child(l, p[0]).Present?;
      assert p == [p[0]] + p[1..];
    }
  }

  /** With plain keys, covering the labels covers the paths. */
  lemma PlainLabelsArePaths(b: Slot, l: Slot, r: Slot)
    requires b.IsObject() && l.IsObject() && r.IsObject() && PlainKeys(b.v) && PlainKeys(l.v) && PlainKeys(r.v)
    requires LabelsLocal(b, l, r)
    ensures RemotePathsLocal(b, l, r)
  {
    hide PlainKeys, Label;
    forall p: Path | Differs(b, r, p) ensures Differs(b, l, p) {
      var q: Path :| Differs(b, l, q) && Label(q) == Label(p);
      DiffPathsArePlain(b, r, p);
      DiffPathsArePlain(b, l, q);
      DiffOfObjects(b, r, p);
      DiffOfObjects(b, l, q);
      LabelInjective(p, q);
    }
  }

  // Checkable conditions under which a clean gate is complete for one file.
  ghost predicate Regular(env: Env, keys: seq<string>, f: FileView) {
    && (AnyDegraded(env, f) || Mergeable(env, f))
    && (Complete(f) && Mergeable(env, f) ==>
          var b, l, r, raw := BaseSlot(env, f), LocalSlot(env, f), RemoteSlot(env, f), RawValue(env, f.rawLocal);
          && PlainKeys(b.v) && PlainKeys(l.v) && PlainKeys(r.v)
          && (forall p: Path :: At(b, p).Absent? && At(l, p).IsObject() && At(r, p).IsObject() ==> SameSlot(At(l, p), At(r, p)))
          && NoPlaceholder(raw, keys) && RawTextual(raw, keys))
  }

  lemma RegularHolds(env: Env, mode: string, ref: FileRef, f: FileView, rawBase: Option<Entry>)
    requires var keys := KeysAt(env, ref); Judges(env, keys, f, rawBase) && (mode == MIRROR || Regular(env, keys, f))
    requires TallyOf(env, mode, ref.path, f).pull == 0
    ensures GateHolds(env, mode, KeysAt(env, ref), f)
  {
    hide Parse, PlainKeys, StripEntry, NoPlaceholder, RawTextual, MergeFile;
    if mode != MIRROR && !AnyDegraded(env, f) && Complete(f) {
      var b, l, r := BaseSlot(env, f), LocalSlot(env, f), RemoteSlot(env, f);
      CompleteFileCounts(env, ref.path, f);
      JudgedObjects(env, KeysAt(env, ref), f, rawBase);
      PlainLabelsArePaths(b, l, r);
      forall p: Path | At(b, p).Absent? && At(l, p).IsObject() && At(r, p).IsObject() ensures Covers(At(l, p).v, At(r, p).v) {
        assert SameSlot(At(l, p), At(r, p));
      }
    }
  }

  /** Push gate completeness: for regular snapshots an ok verdict means the pull plan is empty. */
  lemma OkMeansQuiet(env: Env, base: Snapshots, local: Snapshots, remote: Snapshots)
    requires Unambiguous(base, local, remote) && CheckPushSafety(env, base, local, remote).PushOk?
    requires forall ref :: ModeOf(env, ref, base, local, remote) !in {"", MIRROR} ==>
                             Regular(env, KeysAt(env, ref), ViewOf(env, ref, base, local, remote))
    ensures PlanPull(env, base, local, remote) == []
  {
    hide ComputeDrift, Total, PlanPull, PlanFile, TallyOf, GateTally, ViewOf, ModeOf, GateHolds, Regular, ExcludedKeys, Judges;
    TotalsOfGate(env, base, local, remote, Pulls);
    forall ref | ModeOf(env, ref, base, local, remote) != ""
      ensures GateHolds(env, ModeOf(env, ref, base, local, remote), KeysAt(env, ref), ViewOf(env, ref, base, local, remote))
    {
      assert Count(GateTally(env, ref, base, local, remote), Pulls) == 0;
      GateTallyIsTally(env, ref, base, local, remote);
      ViewIsJudged(env, ref, base, local, remote);
      var raw := EntryAt(FilesOf(FindCategory(LastAdapter(base, ref.adapter), ref.category)), ref.path);
      RegularHolds(env, ModeOf(env, ref, base, local, remote), ref, ViewOf(env, ref, base, local, remote), raw);
    }
    OkMeansQuietIff(env, base, local, remote);
  }

  // ----- A pull never destroys a local edit -----

  /** Every planned write and delete is safe for the file it targets. */
  lemma PullIsSafe(env: Env, base: Snapshots, local: Snapshots, remote: Snapshots, a: Action)
    requires a in PlanPull(env, base, local, remote)
    ensures Safe(env, ModeOf(env, a.ref, base, local, remote), KeysAt(env, a.ref), ViewOf(env, a.ref, base, local, remote), a)
  {
    hide PlanPull, PlanFile, ViewOf, ModeOf, Safe, ExcludedKeys, Judges;
    PlanIsByFile(env, base, local, remote, a);
    ViewIsJudged(env, a.ref, base, local, remote);
    var raw := EntryAt(FilesOf(FindCategory(LastAdapter(base, a.ref.adapter), a.ref.category)), a.ref.path);
    PlannedIsSafe(env, ModeOf(env, a.ref, base, local, remote), a.ref, ViewOf(env, a.ref, base, local, remote), raw);
  }
}
