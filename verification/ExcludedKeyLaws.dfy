/**
 Excluded keys from the raw side: judging hides their values, so a pull that looks safe on the
 judged files can still lose them. This module says exactly when a planned action keeps them, and
 when it writes the placeholder.
 */
module ExcludedKeyLaws {
  import opened JsonValue
  import opened JsonNumber
  import opened JsonText
  import opened JsonLaws
  import opened Merge
  import opened Diff
  import opened Snapshot
  import opened Plan
  import opened FileLaws
  import opened FilePull
  import opened GateLaws
  import opened SyncTheorems

  function TextSlot(round: Rounding, content: string): Slot {
    if Parse(round, content).Parsed? then Present(Parse(round, content).value) else Absent
  }

  // The raw value of an excluded key, unless it is the placeholder.
  predicate Holds(raw: Value, keys: seq<string>, k: string) {
    raw.Obj? && k in keys && k in raw.m && raw.m[k] != Str(PLACEHOLDER)
  }

  ghost predicate HoldsNone(raw: Value, keys: seq<string>) { forall k :: !Holds(raw, keys, k) }

  // Every such value stands in `w`, as text carries both.
  ghost predicate Stands(raw: Value, keys: seq<string>, w: Slot) {
    forall k :: Holds(raw, keys, k) ==> SameSlot(ReparsedSlot(Child(w, k)), ReparsedSlot(Child(Present(raw), k)))
  }

  /** After the action, local's raw excluded values are where they were; nothing stands after a delete. */
  ghost predicate KeepsExcluded(env: Env, keys: seq<string>, f: FileView, a: Action) {
    match a
    case PullConflict(_, _, _, _, _) => true
    case PullDelete(_) => HoldsNone(RawValue(env, f.rawLocal), keys)
    case PullWrite(_, content) => Stands(RawValue(env, f.rawLocal), keys, TextSlot(env.round, content))
  }

  predicate MergedThreeWay(env: Env, mode: string, f: FileView) { mode != MIRROR && Mergeable(env, f) && Complete(f) }

  /**
   What a caller can look at beforehand: the file is merged three ways, local holds no excluded value,
   or remote is a raw file, which judging does not touch, whose text holds the same ones.
   */
  ghost predicate ExcludedAreSafe(env: Env, mode: string, keys: seq<string>, f: FileView) {
    var raw := RawValue(env, f.rawLocal);
    || MergedThreeWay(env, mode, f)
    || HoldsNone(raw, keys)
    || (f.rawRemote.Some? && f.rawRemote.value.kind == File && Stands(raw, keys, TextSlot(env.round, f.rawRemote.value.content)))
  }

  // ----- What judged text holds -----

  lemma ReparsedTwice(v: Value)
    ensures DeepEqual(Reparsed(Reparsed(v)), Reparsed(v))
  {
    ReparsedIsTextual(v);
    ReparsedIsEqualIffTextual(Reparsed(v));
  }

  lemma OnlyObjectsStayObjects(v: Value)
    ensures Reparsed(v).Obj? <==> v.Obj?
  {
    hide PropertyOrder, ObjectKeys;
  }

  /** The judged text of a JSON entry holds no excluded key. */
  lemma JudgedTextLacks(env: Env, keys: seq<string>, raw: Entry, k: string)
    requires raw.kind == Json && k in keys
    ensures Child(TextSlot(env.round, StripEntry(env, keys, raw).content), k) == Absent
  {
    hide Parse, CompactSerialize, Reparsed, StripTopKeys, Encodable;
    if Parse(env.round, StripEntry(env, keys, raw).content).Parsed? {
      JudgedValue(env, keys, raw);
      var v := Parse(env.round, raw.content).value;
      if v.Obj? {
        JudgedMembers(v, keys, k);
      } else {
        NothingToStrip(v, keys);
        OnlyObjectsStayObjects(v);
      }
    }
  }

  lemma NothingToStrip(v: Value, keys: seq<string>)
    requires !v.Obj?
    ensures StripTopKeys(v, keys) == v
  {
  }

  lemma StandsWhereLacking(raw: Value, keys: seq<string>, w: Slot)
    requires forall k :: k in keys ==> Child(w, k) == Absent
    ensures Stands(raw, keys, w) <==> HoldsNone(raw, keys)
  {
    hide Reparsed;
    if k :| Holds(raw, keys, k) {
      assert !SameSlot(ReparsedSlot(Child(w, k)), ReparsedSlot(Child(Present(raw), k)));
    }
  }

  /** Dropping placeholders changes no judged text: its excluded keys are gone already. */
  lemma OmittingIsIdle(env: Env, keys: seq<string>, raw: Entry)
    requires !NotMergeable(env.round, Some(StripEntry(env, keys, raw)))
    ensures OmitPlaceholders(env.round, StripEntry(env, keys, raw).content, keys) == StripEntry(env, keys, raw).content
  {
    hide Parse, StripEntry, Contains;
    var content := StripEntry(env, keys, raw).content;
    assert raw.kind == Json by { StripKeepsKind(env, keys, raw); }
    var v := Parse(env.round, content).value;
    forall k | k in keys ensures k !in v.m { JudgedTextLacks(env, keys, raw, k); }
    assert (set k | k in v.m && k in keys && v.m[k] == Str(PLACEHOLDER)) == {};
  }

  lemma StripKeepsKind(env: Env, keys: seq<string>, raw: Entry)
    ensures StripEntry(env, keys, raw).kind == raw.kind
    ensures raw.kind == File ==> StripEntry(env, keys, raw) == raw
  {
    hide Parse, CompactSerialize;
  }

  // ----- Planned actions -----

  // Outside three-way merges, whatever is written into a file local holds is the judged remote text.
  lemma WholeWriteIsRemote(env: Env, mode: string, ref: FileRef, f: FileView, rawBase: Option<Entry>)
    requires Judges(env, KeysAt(env, ref), f, rawBase) && !MergedThreeWay(env, mode, f)
    requires PlanFile(env, mode, ref, f).Some? && PlanFile(env, mode, ref, f).value.PullWrite?
    ensures f.remote.Some? && PlanFile(env, mode, ref, f).value.content == f.remote.value.content
  {
    hide Parse, StripEntry, OmitPlaceholders, DiffJSON, PlanMergedFile, NotMergeable;
    if mode != MIRROR && Mergeable(env, f) {
      OmittingIsIdle(env, KeysAt(env, ref), f.rawRemote.value);
    }
  }

  lemma MergedWriteKeepsExcluded(env: Env, ref: FileRef, f: FileView, rawBase: Option<Entry>)
    requires Judges(env, KeysAt(env, ref), f, rawBase) && Complete(f) && Mergeable(env, f)
    ensures var a := PlanMergedFile(env, ref, KeysAt(env, ref), f);
            a.Some? ==> KeepsExcluded(env, KeysAt(env, ref), f, a.value)
  {
    hide Parse, PlanMergedFile, Reparsed, EditsKept, Judges;
    MergedWriteKeepsEdits(env, ref, f, rawBase);
    var a := PlanMergedFile(env, ref, KeysAt(env, ref), f);
    if a.Some? && a.value.PullWrite? {
      var raw, w := RawValue(env, f.rawLocal), TextSlot(env.round, a.value.content);
      forall k | Holds(raw, KeysAt(env, ref), k) ensures SameSlot(ReparsedSlot(Child(w, k)), ReparsedSlot(Child(Present(raw), k))) {
        ReparsedTwice(raw.m[k]);
      }
    }
  }

  /** A planned action keeps local's raw excluded values exactly when it is a conflict or they are safe. */
  lemma PlannedKeepsExcludedIff(env: Env, mode: string, ref: FileRef, f: FileView, rawBase: Option<Entry>)
    requires Judges(env, KeysAt(env, ref), f, rawBase) && PlanFile(env, mode, ref, f).Some?
    ensures KeepsExcluded(env, KeysAt(env, ref), f, PlanFile(env, mode, ref, f).value) <==>
            PlanFile(env, mode, ref, f).value.PullConflict? || ExcludedAreSafe(env, mode, KeysAt(env, ref), f)
  {
    hide Parse, StripEntry, OmitPlaceholders, DiffJSON, PlanMergedFile, NotMergeable, HoldsNone, Stands, TextSlot, KeysAt;
    KeysAtAre(env, ref);
    var keys, a := KeysAt(env, ref), PlanFile(env, mode, ref, f).value;
    if MergedThreeWay(env, mode, f) {
      MergedWriteKeepsExcluded(env, ref, f, rawBase);
    } else if a.PullWrite? {
      var raw := RawValue(env, f.rawLocal);
      WholeWriteIsRemote(env, mode, ref, f, rawBase);
      StripKeepsKind(env, keys, f.rawRemote.value);
      NothingHeldStands(raw, keys, TextSlot(env.round, a.content));
      if f.rawRemote.value.kind == Json {
        forall k | k in keys ensures Child(TextSlot(env.round, a.content), k) == Absent { JudgedTextLacks(env, keys, f.rawRemote.value, k); }
        StandsWhereLacking(raw, keys, TextSlot(env.round, a.content));
      }
    }
  }

  lemma NothingHeldStands(raw: Value, keys: seq<string>, w: Slot)
    ensures HoldsNone(raw, keys) ==> Stands(raw, keys, w)
  {
  }

  /** For the whole plan: which writes and deletes keep local's raw excluded values. */
  lemma PullKeepsExcludedIff(env: Env, base: Snapshots, local: Snapshots, remote: Snapshots, a: Action)
    requires a in PlanPull(env, base, local, remote)
    ensures var f := ViewOf(env, a.ref, base, local, remote);
            KeepsExcluded(env, KeysAt(env, a.ref), f, a) <==>
            a.PullConflict? || ExcludedAreSafe(env, ModeOf(env, a.ref, base, local, remote), KeysAt(env, a.ref), f)
  {
    hide PlanPull, PlanFile, ViewOf, ModeOf, ExcludedAreSafe, KeepsExcluded, KeysAt, Judges;
    PlanIsByFile(env, base, local, remote, a);
    ViewIsJudged(env, a.ref, base, local, remote);
    var raw := EntryAt(FilesOf(FindCategory(LastAdapter(base, a.ref.adapter), a.ref.category)), a.ref.path);
    assert KeysAt(env, a.ref) == ExcludedKeys(env, a.ref.adapter, a.ref.category) by { KeysAtAre(env, a.ref); }
    PlannedKeepsExcludedIff(env, ModeOf(env, a.ref, base, local, remote), a.ref, ViewOf(env, a.ref, base, local, remote), raw);
  }

  lemma KeysAtAre(env: Env, ref: FileRef)
    ensures KeysAt(env, ref) == ExcludedKeys(env, ref.adapter, ref.category)
  {
  }

  // ----- The placeholder -----

  ghost predicate HoldsPlaceholder(keys: seq<string>, w: Slot) {
    exists k :: k in keys && Child(w, k) == Present(Str(PLACEHOLDER))
  }

  lemma ObjectsMergeToObject(b: Slot, l: Slot, r: Slot)
    requires b.IsObject() && l.IsObject() && r.IsObject()
    ensures MergeSlot([], b, l, r).slot.IsObject()
  {
    hide MergeSlot, DeepEqual;
    MergeStep([], b, l, r);
  }

  lemma MergedWriteLacksPlaceholder(env: Env, ref: FileRef, f: FileView, rawBase: Option<Entry>)
    requires Judges(env, KeysAt(env, ref), f, rawBase) && Complete(f) && Mergeable(env, f)
    ensures var a := PlanMergedFile(env, ref, KeysAt(env, ref), f);
            a.Some? && a.value.PullWrite? ==> !HoldsPlaceholder(KeysAt(env, ref), TextSlot(env.round, a.value.content))
  {
    hide Parse, SerializeFile, Reparsed, Encodable, MergeSlot, DeepEqual, DropPlaceholders, PlantExcludedKeys;
    var keys := KeysAt(env, ref);
    var b, l, r, raw := BaseSlot(env, f), LocalSlot(env, f), RemoteSlot(env, f), RawValue(env, f.rawLocal);
    JudgedObjects(env, keys, f, rawBase);
    var out := MergeSlot([], b, l, r);
    ObjectsMergeToObject(b, l, r);
    if out.conflicts == [] {
      forall k | k in keys ensures k !in out.slot.v.m { MergeLacksExcluded(b, l, r, k); }
      MergeInherits(env.round, [], b, l, r, false);
      PlantedInherits(env.round, out.slot.v, raw, keys);
      var planted := DropPlaceholders(PlantExcludedKeys(out.slot.v, raw, keys), keys);
      SerializeReadsBack(env.round, planted);
      forall k | k in keys ensures Child(Present(Reparsed(planted)), k) != Present(Str(PLACEHOLDER)) {
        PlantedMembers(out.slot.v, raw, keys, k);
        ReparsedChild(Present(planted), k);
        TextStaysText(Child(Present(planted), k));
      }
    }
  }

  lemma TextStaysText(s: Slot)
    ensures ReparsedSlot(s) == Present(Str(PLACEHOLDER)) ==> s == Present(Str(PLACEHOLDER))
  {
  }

  /** A planned write puts the placeholder under an excluded key exactly when remote is a raw file whose text does. */
  lemma PlannedWritesPlaceholderIff(env: Env, mode: string, ref: FileRef, f: FileView, rawBase: Option<Entry>)
    requires Judges(env, KeysAt(env, ref), f, rawBase)
    requires PlanFile(env, mode, ref, f).Some? && PlanFile(env, mode, ref, f).value.PullWrite?
    ensures HoldsPlaceholder(KeysAt(env, ref), TextSlot(env.round, PlanFile(env, mode, ref, f).value.content)) <==>
            f.rawRemote.Some? && f.rawRemote.value.kind == File
            && HoldsPlaceholder(KeysAt(env, ref), TextSlot(env.round, f.rawRemote.value.content))
  {
    hide Parse, StripEntry, OmitPlaceholders, DiffJSON, PlanMergedFile, TextSlot, KeysAt;
    KeysAtAre(env, ref);
    var keys, a := KeysAt(env, ref), PlanFile(env, mode, ref, f).value;
    if MergedThreeWay(env, mode, f) {
      StripKeepsKind(env, keys, f.rawRemote.value);
      MergedWriteLacksPlaceholder(env, ref, f, rawBase);
    } else {
      WholeWriteIsRemote(env, mode, ref, f, rawBase);
      StripKeepsKind(env, keys, f.rawRemote.value);
      if f.rawRemote.value.kind == Json {
        forall k | k in keys ensures Child(TextSlot(env.round, a.content), k) == Absent { JudgedTextLacks(env, keys, f.rawRemote.value, k); }
      }
    }
  }

  /** For the whole plan: no write holds the placeholder, except one that copies a raw file. */
  lemma PullWritesPlaceholderIff(env: Env, base: Snapshots, local: Snapshots, remote: Snapshots, a: Action)
    requires a in PlanPull(env, base, local, remote) && a.PullWrite?
    ensures var f := ViewOf(env, a.ref, base, local, remote);
            HoldsPlaceholder(KeysAt(env, a.ref), TextSlot(env.round, a.content)) <==>
            f.rawRemote.Some? && f.rawRemote.value.kind == File && HoldsPlaceholder(KeysAt(env, a.ref), TextSlot(env.round, f.rawRemote.value.content))
  {
    hide PlanPull, PlanFile, ViewOf, ModeOf, HoldsPlaceholder, KeysAt, Judges, TextSlot;
    PlanIsByFile(env, base, local, remote, a);
    ViewIsJudged(env, a.ref, base, local, remote);
    var raw := EntryAt(FilesOf(FindCategory(LastAdapter(base, a.ref.adapter), a.ref.category)), a.ref.path);
    KeysAtAre(env, a.ref);
    PlannedWritesPlaceholderIff(env, ModeOf(env, a.ref, base, local, remote), a.ref, ViewOf(env, a.ref, base, local, remote), raw);
  }
}
