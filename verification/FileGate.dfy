/** The drift counters and the planned action of one file agree, and exactly when a zero count means no action. */
module FileGate {
  import opened JsonValue
  import opened JsonText
  import opened Merge
  import opened Diff
  import opened MergeLaws
  import opened Snapshot
  import opened Drift
  import opened Plan
  import opened FileLaws

  function TallyOf(env: Env, mode: string, path: string, f: FileView): Tally {
    if mode == MIRROR then CountOp(MirrorOp(CompareFile(f.base, f.local, f.remote), path))
    else MergeFile(env.round, path, f.base, f.local, f.remote)
  }

  // Every remote change is reported under a label some local change has too.
  ghost predicate LabelsLocal(b: Slot, l: Slot, r: Slot) {
    forall p: Path :: Differs(b, r, p) ==> exists q: Path :: Differs(b, l, q) && Label(q) == Label(p)
  }

  lemma LabelSubset(b: Slot, l: Slot, r: Slot)
    requires b.Present? && l.Present? && r.Present?
    ensures (forall k :: k in DiffJSON(b.v, r.v).keys ==> k in DiffJSON(b.v, l.v).keys) <==> LabelsLocal(b, l, r)
  {
    hide DiffJSON, DiffAt, DeepEqual, Label;
    DiffKeysAreLabels(b.v, l.v);
    DiffKeysAreLabels(b.v, r.v);
    assert Present(b.v) == b && Present(l.v) == l && Present(r.v) == r;
    if forall k :: k in DiffJSON(b.v, r.v).keys ==> k in DiffJSON(b.v, l.v).keys {
      forall p: Path | Differs(b, r, p) ensures exists q: Path :: Differs(b, l, q) && Label(q) == Label(p) {
        assert Label(p) in DiffJSON(b.v, r.v).keys;
      }
    }
    if LabelsLocal(b, l, r) {
      forall k | k in DiffJSON(b.v, r.v).keys ensures k in DiffJSON(b.v, l.v).keys {
        var p: Path :| Differs(b, r, p) && Label(p) == k;
      }
    }
  }

  /** For a complete JSON file the counters are the merge's conflicts and the remote labels local lacks. */
  lemma CompleteFileCounts(env: Env, path: string, f: FileView)
    requires Complete(f) && !AnyDegraded(env, f)
    ensures var t := MergeFile(env.round, path, f.base, f.local, f.remote);
            var b, l, r := BaseSlot(env, f), LocalSlot(env, f), RemoteSlot(env, f);
            && t.conflicts == |MergeJSON(b.v, l.v, r.v).conflicts|
            && (t.pull == 0 <==> LabelsLocal(b, l, r))
  {
    hide Parse, MergeJSON, DiffJSON, LabelsLocal, RemoteOnly;
    RemoteOnlyCounts(path, DiffJSON(BaseSlot(env, f).v, RemoteSlot(env, f).v).keys, DiffJSON(BaseSlot(env, f).v, LocalSlot(env, f).v).keys);
    LabelSubset(BaseSlot(env, f), LocalSlot(env, f), RemoteSlot(env, f));
  }

  // ----- Agreement -----

  lemma DisjointLabels(b: Slot, l: Slot, r: Slot)
    requires !LabelsLocal(b, l, r)
    ensures !RemotePathsLocal(b, l, r) && !SameSlot(r, b)
  {
    hide DeepEqual;
    var p: Path :| Differs(b, r, p) && !exists q: Path :: Differs(b, l, q) && Label(q) == Label(p);
    assert !Differs(b, l, p);
    if SameSlot(r, b) { SameSymmetric(r, b); }
  }

  lemma SameContentSameValue(env: Env, x: Option<Entry>, y: Option<Entry>)
    requires x.Some? && y.Some? && x.value.content == y.value.content
    ensures DeepEqual(ValueOf(env.round, x), ValueOf(env.round, y))
  {
    DeepEqualReflexive(ValueOf(env.round, x));
  }

  // A change of either kind in a complete file shows in the bytes.
  lemma CountsShowInContent(env: Env, path: string, f: FileView)
    requires Complete(f) && !AnyDegraded(env, f)
    ensures var t := MergeFile(env.round, path, f.base, f.local, f.remote);
            && (t.pull > 0 || t.conflicts > 0 ==> f.base.value.content != f.remote.value.content)
            && (t.conflicts > 0 ==> f.base.value.content != f.local.value.content)
  {
    hide Parse, MergeFile, DeepEqual;
    var b, l, r := BaseSlot(env, f), LocalSlot(env, f), RemoteSlot(env, f);
    CompleteFileCounts(env, path, f);
    if f.base.value.content == f.remote.value.content {
      SameContentSameValue(env, f.remote, f.base);
      if !LabelsLocal(b, l, r) { DisjointLabels(b, l, r); }
    }
    if f.base.value.content == f.local.value.content { SameContentSameValue(env, f.local, f.base); }
  }

  /** Whatever the drift engine counts as a pull or a conflict, the plan acts on. */
  lemma CountedIsPlanned(env: Env, mode: string, ref: FileRef, f: FileView, rawBase: Option<Entry>)
    requires var keys := ExcludedKeys(env, ref.adapter, ref.category); Judges(env, keys, f, rawBase)
    ensures TallyOf(env, mode, ref.path, f).pull > 0 ==> PlanFile(env, mode, ref, f).Some?
    ensures TallyOf(env, mode, ref.path, f).conflicts > 0 ==>
              PlanFile(env, mode, ref, f).Some? && PlanFile(env, mode, ref, f).value.PullConflict?
  {
    hide Parse, DeepEqual, MergeJSON, DiffJSON, RemoteOnly, OmitPlaceholders, Contains, DropPlaceholders, PlantExcludedKeys, StripEntry;
    if mode != MIRROR && !AnyDegraded(env, f) {
      if Complete(f) {
        CountsShowInContent(env, ref.path, f);
        CompleteFileCounts(env, ref.path, f);
        if Mergeable(env, f) && f.base.value.content != f.remote.value.content {
          CompleteIsPlanned(env, ref, f, rawBase);
        }
      } else if f.base.Some? && f.local.Some? {
        DiffKeysAreLabels(ValueOf(env.round, f.base), ValueOf(env.round, f.local));
        if f.base.value.content == f.local.value.content { SameContentSameValue(env, f.base, f.local); }
      }
    }
  }

  lemma CompleteIsPlanned(env: Env, ref: FileRef, f: FileView, rawBase: Option<Entry>)
    requires var keys := ExcludedKeys(env, ref.adapter, ref.category); Judges(env, keys, f, rawBase)
    requires Complete(f) && Mergeable(env, f) && f.base.value.content != f.remote.value.content
    ensures var a := PlanMergeFile(env, ref, f);
            var t := MergeFile(env.round, ref.path, f.base, f.local, f.remote);
            && (t.pull > 0 ==> a.Some?) && (t.conflicts > 0 ==> a.Some? && a.value.PullConflict?)
  {
    hide Parse, DeepEqual, MergeFile, PlanMergedFile, MergeJSON;
    var b, l, r := BaseSlot(env, f), LocalSlot(env, f), RemoteSlot(env, f);
    CompleteFileCounts(env, ref.path, f);
    MergedFileIsQuietIff(env, ref, f, rawBase);
    if !LabelsLocal(b, l, r) { DisjointLabels(b, l, r); }
  }

  // ----- Exactness -----

  /**
   What zero counters leave open. JSON that is not an object is counted by value but planned by
   bytes, so remote's bytes must stand at base; and when remote's bytes of an object moved, remote
   must bring nothing new and local's raw text must survive judging.
   */
  ghost predicate GateHolds(env: Env, mode: string, keys: seq<string>, f: FileView) {
    if mode == MIRROR || AnyDegraded(env, f) || !Complete(f) || f.base.value.content == f.remote.value.content then true
    else
      && Mergeable(env, f)
      && NothingNew(BaseSlot(env, f), LocalSlot(env, f), RemoteSlot(env, f))
      && NoPlaceholder(RawValue(env, f.rawLocal), keys) && RawTextual(RawValue(env, f.rawLocal), keys)
  }

  /** When the drift engine counts nothing for a file, the plan leaves it alone exactly when the gate's condition holds. */
  lemma UncountedIsQuietIff(env: Env, mode: string, ref: FileRef, f: FileView, rawBase: Option<Entry>)
    requires var keys := ExcludedKeys(env, ref.adapter, ref.category); Judges(env, keys, f, rawBase)
    requires TallyOf(env, mode, ref.path, f).pull == 0 && TallyOf(env, mode, ref.path, f).conflicts == 0
    ensures PlanFile(env, mode, ref, f).None? <==> GateHolds(env, mode, ExcludedKeys(env, ref.adapter, ref.category), f)
  {
    hide Parse, DeepEqual, MergeJSON, DiffJSON, RemoteOnly, OmitPlaceholders, Contains, DropPlaceholders, PlantExcludedKeys, StripEntry,
      NothingNew, NoPlaceholder, RawTextual;
    if mode != MIRROR && !AnyDegraded(env, f) && Complete(f) && Mergeable(env, f) && f.base.value.content != f.remote.value.content {
      CompleteIsQuietIff(env, ref, f, rawBase);
    }
  }

  lemma CompleteIsQuietIff(env: Env, ref: FileRef, f: FileView, rawBase: Option<Entry>)
    requires var keys := ExcludedKeys(env, ref.adapter, ref.category); Judges(env, keys, f, rawBase)
    requires Complete(f) && Mergeable(env, f) && f.base.value.content != f.remote.value.content
    requires MergeFile(env.round, ref.path, f.base, f.local, f.remote).conflicts == 0
    ensures PlanMergeFile(env, ref, f).None? <==>
            && NothingNew(BaseSlot(env, f), LocalSlot(env, f), RemoteSlot(env, f))
            && NoPlaceholder(RawValue(env, f.rawLocal), ExcludedKeys(env, ref.adapter, ref.category))
            && RawTextual(RawValue(env, f.rawLocal), ExcludedKeys(env, ref.adapter, ref.category))
  {
    hide Parse, DeepEqual, MergeFile, PlanMergedFile, MergeJSON, NothingNew, NoPlaceholder, RawTextual;
    CompleteFileCounts(env, ref.path, f);
    MergedFileIsQuietIff(env, ref, f, rawBase);
  }

  // ----- Conflicts -----

  /**
   What makes the planner see a conflict: a counted one, or JSON that is not an object, which the drift
   engine compares by value and the planner as a whole file.
   */
  ghost predicate Disputed(env: Env, mode: string, path: string, f: FileView) {
    || TallyOf(env, mode, path, f).conflicts > 0
    || (mode != MIRROR && !AnyDegraded(env, f) && !Mergeable(env, f) && CompareFile(f.base, f.local, f.remote).Clash?)
  }

  /** A file is planned as a conflict exactly when it is disputed. */
  lemma PlannedConflictIff(env: Env, mode: string, ref: FileRef, f: FileView, rawBase: Option<Entry>)
    requires var keys := ExcludedKeys(env, ref.adapter, ref.category); Judges(env, keys, f, rawBase)
    ensures PlanFile(env, mode, ref, f).Some? && PlanFile(env, mode, ref, f).value.PullConflict? <==> Disputed(env, mode, ref.path, f)
  {
    hide Parse, DeepEqual, DiffJSON, RemoteOnly, OmitPlaceholders, Contains, StripEntry, PlanMergeFile, MergeFile, Judges, TallyOf;
    CountedIsPlanned(env, mode, ref, f, rawBase);
    if mode == MIRROR {
      MirrorConflictIff(env, ref, f);
    } else if AnyDegraded(env, f) || !Mergeable(env, f) {
      WholeConflictIff(env, mode, ref, f);
    } else if Complete(f) {
      CompleteConflictIsCounted(env, mode, ref, f);
    } else {
      PartialConflictIsCounted(env, mode, ref, f);
    }
  }

  lemma MirrorConflictIff(env: Env, ref: FileRef, f: FileView)
    ensures PlanFile(env, MIRROR, ref, f).Some? && PlanFile(env, MIRROR, ref, f).value.PullConflict?
            <==> TallyOf(env, MIRROR, ref.path, f).conflicts > 0
  {
  }

  lemma WholeConflictIff(env: Env, mode: string, ref: FileRef, f: FileView)
    requires mode != MIRROR && (AnyDegraded(env, f) || !Mergeable(env, f))
    ensures PlanFile(env, mode, ref, f).Some? && PlanFile(env, mode, ref, f).value.PullConflict? <==> CompareFile(f.base, f.local, f.remote).Clash?
    ensures AnyDegraded(env, f) ==> (TallyOf(env, mode, ref.path, f).conflicts > 0 <==> CompareFile(f.base, f.local, f.remote).Clash?)
  {
    hide Parse, CompareFile, RemoteSide, DiffJSON;
  }

  lemma CompleteConflictIsCounted(env: Env, mode: string, ref: FileRef, f: FileView)
    requires mode != MIRROR && !AnyDegraded(env, f) && Mergeable(env, f) && Complete(f)
    ensures PlanFile(env, mode, ref, f).Some? && PlanFile(env, mode, ref, f).value.PullConflict? ==> TallyOf(env, mode, ref.path, f).conflicts > 0
  {
    hide Parse, DeepEqual, MergeJSON, DiffJSON, MergeFile, DropPlaceholders, PlantExcludedKeys, OmitPlaceholders;
    CompleteFileCounts(env, ref.path, f);
  }

  lemma PartialConflictIsCounted(env: Env, mode: string, ref: FileRef, f: FileView)
    requires mode != MIRROR && !AnyDegraded(env, f) && Mergeable(env, f) && !Complete(f)
    ensures PlanFile(env, mode, ref, f).Some? && PlanFile(env, mode, ref, f).value.PullConflict? ==> TallyOf(env, mode, ref.path, f).conflicts > 0
  {
    hide Parse, DeepEqual, MergeJSON, DiffJSON, PlanMergedFile, OmitPlaceholders;
  }

  // ----- Remote at base -----

  /** A file whose remote side stands at base counts no pull and no conflict, and plans nothing. */
  lemma RemoteAtBaseIsQuiet(env: Env, mode: string, ref: FileRef, f: FileView)
    requires f.remote == f.base
    ensures TallyOf(env, mode, ref.path, f).pull == 0 && TallyOf(env, mode, ref.path, f).conflicts == 0
    ensures PlanFile(env, mode, ref, f).None?
  {
    hide Parse, DeepEqual, MergeJSON, DiffJSON, RemoteOnly, OmitPlaceholders, Contains, DropPlaceholders, PlantExcludedKeys;
    if mode != MIRROR && !AnyDegraded(env, f) && Complete(f) { CountsShowInContent(env, ref.path, f); }
  }
}
