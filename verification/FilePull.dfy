/** A planned write or delete never destroys a local edit. */
module FilePull {
  import opened JsonValue
  import opened JsonNumber
  import opened JsonText
  import opened JsonLaws
  import opened Merge
  import opened Diff
  import opened MergeLaws
  import opened Snapshot
  import opened Drift
  import opened Plan
  import opened FileLaws

  // Every leaf edit and deletion `side` made against base stands in `w`, as text carries it.
  ghost predicate EditsKept(b: Slot, side: Slot, w: Slot) {
    forall p: Path :: !At(side, p).IsObject() && !SameSlot(At(side, p), At(b, p)) ==>
                        SameSlot(At(w, p), ReparsedSlot(At(side, p)))
  }

  // Every raw local value of an excluded key, unless it is the placeholder, stands in `w`.
  ghost predicate ExcludedKept(raw: Value, keys: seq<string>, w: Slot) {
    raw.Obj? ==> forall k :: k in keys && k in raw.m && raw.m[k] != Str(PLACEHOLDER) ==> Child(w, k) == Present(Reparsed(raw.m[k]))
  }

  // The text is a JSON object holding both sides' edits and local's excluded values.
  ghost predicate KeepsEdits(env: Env, keys: seq<string>, f: FileView, content: string) {
    && Parse(env.round, content).Parsed?
    && var w := Present(Parse(env.round, content).value);
       && w.IsObject()
       && EditsKept(BaseSlot(env, f), LocalSlot(env, f), w)
       && EditsKept(BaseSlot(env, f), RemoteSlot(env, f), w)
       && ExcludedKept(RawValue(env, f.rawLocal), keys, w)
  }

  /**
   What makes an action safe for the local side. A three-way merged object keeps every edit. Any
   other write replaces a file local does not have or has exactly as base does, and a delete
   removes a file local has not changed.
   */
  ghost predicate Safe(env: Env, mode: string, keys: seq<string>, f: FileView, a: Action) {
    match a
    case PullConflict(_, _, _, _, _) => true
    case PullDelete(_) =>
      && f.base.Some? && f.local.Some? && f.remote.None?
      && if mode == MIRROR || !Mergeable(env, f) then f.local.value.content == f.base.value.content
         else SameSlot(BaseSlot(env, f), LocalSlot(env, f))
    case PullWrite(_, content) =>
      if mode != MIRROR && Mergeable(env, f) && Complete(f) then KeepsEdits(env, keys, f, content)
      else (f.base.None? && f.local.None?) || (f.base.Some? && f.local.Some? && f.local.value.content == f.base.value.content)
  }

  lemma PlantedInherits(round: Rounding, merged: Value, raw: Value, keys: seq<string>)
    requires merged.Obj? && raw.Obj? && Encodable(round, merged) && Encodable(round, raw)
    requires forall x :: x in keys ==> x !in merged.m
    ensures Encodable(round, DropPlaceholders(PlantExcludedKeys(merged, raw, keys), keys))
  {
    hide DropPlaceholders, PlantExcludedKeys, Encodable, Textual;
    var planted := Present(DropPlaceholders(PlantExcludedKeys(merged, raw, keys), keys));
    forall k ensures Inherited(round, Child(planted, k), false) && (Child(planted, k).Present? ==> JsonString.WellFormed(k)) {
      PlantedMembers(merged, raw, keys, k);
      ChildInherits(round, Present(merged), k, false);
      ChildInherits(round, Present(raw), k, false);
    }
    PlantedMembers(merged, raw, keys, "");
    ParentInherits(round, planted, false);
  }

  // A place below a kept member: planting and the trip through text change nothing there.
  lemma PlantedAt(merged: Value, raw: Value, keys: seq<string>, p: Path)
    requires merged.Obj? && raw.Obj? && p != [] && p[0] !in keys && forall x :: x in keys ==> x !in merged.m
    ensures At(Present(Reparsed(DropPlaceholders(PlantExcludedKeys(merged, raw, keys), keys))), p) == ReparsedSlot(At(Present(merged), p))
  {
    hide DropPlaceholders, PlantExcludedKeys, Reparsed;
    PlantedMembers(merged, raw, keys, p[0]);
    ReparsedAt(Present(DropPlaceholders(PlantExcludedKeys(merged, raw, keys), keys)), p);
  }

  // One side's edits survive planting.
  lemma SideKept(b: Slot, l: Slot, r: Slot, side: Slot, raw: Value, keys: seq<string>)
    requires b.IsObject() && l.IsObject() && r.IsObject() && raw.Obj? && side in {l, r}
    requires MergeSlot([], b, l, r).conflicts == []
    requires forall k :: k in keys ==> Child(b, k) == Child(l, k) == Child(r, k) == Absent
    ensures MergeSlot([], b, l, r).slot.IsObject()
    ensures EditsKept(b, side, Present(Reparsed(DropPlaceholders(PlantExcludedKeys(MergeSlot([], b, l, r).slot.v, raw, keys), keys))))
  {
    hide DropPlaceholders, PlantExcludedKeys, Reparsed, MergeSlot, DeepEqual;
    var m := MergeSlot([], b, l, r).slot;
    MergeStep([], b, l, r);
    CleanIffNoConflicts([], b, l, r);
    forall k | k in keys ensures k !in m.v.m { MergeLacksExcluded(b, l, r, k); }
    forall p: Path | !At(side, p).IsObject() && !SameSlot(At(side, p), At(b, p))
      ensures SameSlot(At(Present(Reparsed(DropPlaceholders(PlantExcludedKeys(m.v, raw, keys), keys))), p), ReparsedSlot(At(side, p)))
    {
      if p[0] in keys { AbsentBelow(p[1..]); }
      assert !ConflictOn(b, l, r, p);
      if side == l { LocalEditSurvives([], b, l, r, p); } else { RemoteEditSurvives([], b, l, r, p); }
      PlantedAt(m.v, raw, keys, p);
      if At(m, p).Present? { ReparsedRespectsEquality(At(m, p).v, At(side, p).v); }
    }
  }

  lemma ExcludedStay(merged: Value, raw: Value, keys: seq<string>)
    requires merged.Obj? && raw.Obj? && forall x :: x in keys ==> x !in merged.m
    ensures ExcludedKept(raw, keys, Present(Reparsed(DropPlaceholders(PlantExcludedKeys(merged, raw, keys), keys))))
  {
    hide DropPlaceholders, PlantExcludedKeys, Reparsed;
    var planted := Present(DropPlaceholders(PlantExcludedKeys(merged, raw, keys), keys));
    forall k | k in keys && k in raw.m && raw.m[k] != Str(PLACEHOLDER) ensures Child(ReparsedSlot(planted), k) == Present(Reparsed(raw.m[k])) {
      PlantedMembers(merged, raw, keys, k);
      ReparsedChild(planted, k);
    }
  }

  /** A merged file is written only with both sides' edits and local's excluded values in place. */
  lemma MergedWriteKeepsEdits(env: Env, ref: FileRef, f: FileView, rawBase: Option<Entry>)
    requires var keys := ExcludedKeys(env, ref.adapter, ref.category); Judges(env, keys, f, rawBase)
    requires Complete(f) && Mergeable(env, f)
    ensures var keys := ExcludedKeys(env, ref.adapter, ref.category);
            var a := PlanMergedFile(env, ref, keys, f);
            a.Some? && a.value.PullWrite? ==> KeepsEdits(env, keys, f, a.value.content)
  {
    hide Parse, SerializeFile, Reparsed, Encodable, Textual, MergeSlot, DeepEqual, DropPlaceholders, PlantExcludedKeys, EditsKept, ExcludedKept;
    var keys := ExcludedKeys(env, ref.adapter, ref.category);
    var b, l, r, raw := BaseSlot(env, f), LocalSlot(env, f), RemoteSlot(env, f), RawValue(env, f.rawLocal);
    JudgedObjects(env, keys, f, rawBase);
    var out := MergeSlot([], b, l, r);
    if out.conflicts == [] {
      SideKept(b, l, r, l, raw, keys);
      SideKept(b, l, r, r, raw, keys);
      forall k | k in keys ensures k !in out.slot.v.m { MergeLacksExcluded(b, l, r, k); }
      MergeInherits(env.round, [], b, l, r, false);
      PlantedInherits(env.round, out.slot.v, raw, keys);
      ExcludedStay(out.slot.v, raw, keys);
      PlantedMembers(out.slot.v, raw, keys, "");
      var planted := DropPlaceholders(PlantExcludedKeys(out.slot.v, raw, keys), keys);
      SerializeReadsBack(env.round, planted);
      ObjectStaysObject(planted);
    }
  }

  lemma ObjectStaysObject(v: Value)
    requires v.Obj?
    ensures Reparsed(v).Obj?
  {
    hide PropertyOrder, ObjectKeys;
  }

  /** Every action the planner makes for a file is safe for its local side. */
  lemma PlannedIsSafe(env: Env, mode: string, ref: FileRef, f: FileView, rawBase: Option<Entry>)
    requires var keys := ExcludedKeys(env, ref.adapter, ref.category); Judges(env, keys, f, rawBase)
    requires PlanFile(env, mode, ref, f).Some?
    ensures Safe(env, mode, ExcludedKeys(env, ref.adapter, ref.category), f, PlanFile(env, mode, ref, f).value)
  {
    hide Parse, DeepEqual, MergeJSON, DiffJSON, OmitPlaceholders, Contains, DropPlaceholders, PlantExcludedKeys, StripEntry, KeepsEdits, PlanMergedFile;
    if mode != MIRROR && Mergeable(env, f) {
      if Complete(f) {
        MergedWriteKeepsEdits(env, ref, f, rawBase);
      } else if f.base.Some? && f.local.Some? {
        DiffKeysAreLabels(ValueOf(env.round, f.base), ValueOf(env.round, f.local));
      }
    }
  }
}
