/**
 One file at a time: how the drift counters and the planned action relate, and what a planned
 write leaves in place.
 */
module FileLaws {
  import opened JsonValue
  import opened Keys
  import opened JsonNumber
  import opened JsonText
  import opened JsonLaws
  import opened Merge
  import opened MergeLaws
  import opened Snapshot
  import opened Drift
  import opened Plan

  // ----- Judged values and the raw ones they come from -----

  function StripSide(env: Env, keys: seq<string>, raw: Option<Entry>): Option<Entry> {
    if raw.Some? then Some(StripEntry(env, keys, raw.value)) else None
  }

  // The judged sides are the stripped raw sides.
  ghost predicate Judges(env: Env, keys: seq<string>, f: FileView, rawBase: Option<Entry>) {
    && f.base == StripSide(env, keys, rawBase)
    && f.local == StripSide(env, keys, f.rawLocal)
    && f.remote == StripSide(env, keys, f.rawRemote)
  }

  lemma StripKeepsEncodable(round: Rounding, v: Value, keys: seq<string>)
    requires Encodable(round, v)
    ensures Encodable(round, StripTopKeys(v, keys))
  {
  }

  /** A judged JSON entry holds its raw value without the excluded keys, as text carries it. */
  lemma JudgedValue(env: Env, keys: seq<string>, raw: Entry)
    requires raw.kind == Json && Parse(env.round, StripEntry(env, keys, raw).content).Parsed?
    ensures Parse(env.round, raw.content).Parsed?
    ensures keys == [] ==> StripEntry(env, keys, raw) == raw
    ensures keys != [] ==> Parse(env.round, StripEntry(env, keys, raw).content).value
                           == Reparsed(StripTopKeys(Parse(env.round, raw.content).value, keys))
    ensures Encodable(env.round, Parse(env.round, raw.content).value)
    ensures Encodable(env.round, Parse(env.round, StripEntry(env, keys, raw).content).value)
  {
    hide Parse, CompactSerialize, Reparsed, StripTopKeys;
    DocumentIsEncodable(env.round, raw.content);
    DocumentIsEncodable(env.round, StripEntry(env, keys, raw).content);
    if keys != [] {
      var v := Parse(env.round, raw.content).value;
      StripKeepsEncodable(env.round, v, keys);
      CompactReadsBack(env.round, StripTopKeys(v, keys));
    }
  }

  function ReparsedSlot(s: Slot): Slot { if s.Present? then Present(Reparsed(s.v)) else Absent }

  lemma ReparsedChild(s: Slot, k: string)
    ensures Child(ReparsedSlot(s), k) == ReparsedSlot(Child(s, k))
  {
    hide PropertyOrder, ObjectKeys;
  }

  lemma {:induction false} ReparsedAt(s: Slot, p: Path)
    ensures At(ReparsedSlot(s), p) == ReparsedSlot(At(s, p))
    decreases |p|
  {
    if p != [] {
      ReparsedChild(s, p[0]);
      ReparsedAt(Child(s, p[0]), p[1..]);
    }
  }

  lemma {:induction false} ReparsedRespectsEquality(a: Value, b: Value)
    requires DeepEqual(a, b)
    ensures DeepEqual(Reparsed(a), Reparsed(b))
  {
    hide PropertyOrder, ObjectKeys;
    match a
    case Arr(items) => forall i | 0 <= i < |items| { ReparsedRespectsEquality(items[i], b.items[i]); }
    case Obj(_, m) =>
      DeepEqualKeys(a, b);
      assert Reparsed(a).m.Keys == m.Keys && Reparsed(b).m.Keys == b.m.Keys;
      assert |Reparsed(a).m| == |Reparsed(a).m.Keys| && |Reparsed(b).m| == |Reparsed(b).m.Keys|;
      forall k | k in m { ReparsedRespectsEquality(m[k], b.m[k]); }
    case _ =>
  }

  lemma {:induction false} TextualRespectsEquality(a: Value, b: Value)
    requires DeepEqual(a, b) && Textual(a)
    ensures Textual(b)
  {
    match a
    case Arr(items) => forall i | 0 <= i < |items| { TextualRespectsEquality(items[i], b.items[i]); }
    case Obj(_, m) =>
      DeepEqualKeys(a, b);
      forall k | k in b.m { TextualRespectsEquality(m[k], b.m[k]); }
    case _ =>
  }

  // Properties a merge inherits from its two sides.
  ghost predicate Inherited(round: Rounding, s: Slot, textual: bool) {
    s.Present? ==> Encodable(round, s.v) && (textual ==> Textual(s.v))
  }

  lemma ChildInherits(round: Rounding, s: Slot, k: string, textual: bool)
    requires Inherited(round, s, textual)
    ensures Inherited(round, Child(s, k), textual) && (Child(s, k).Present? ==> JsonString.WellFormed(k))
  {
  }

  lemma ParentInherits(round: Rounding, s: Slot, textual: bool)
    requires s.IsObject()
    requires forall k :: Inherited(round, Child(s, k), textual) && (Child(s, k).Present? ==> JsonString.WellFormed(k))
    ensures Inherited(round, s, textual)
  {
    forall k | k in s.v.m ensures JsonString.WellFormed(k) && Encodable(round, s.v.m[k]) && (textual ==> Textual(s.v.m[k])) {
      assert Inherited(round, Child(s, k), textual);
    }
  }

  lemma {:induction false} MergeInherits(round: Rounding, path: Path, b: Slot, l: Slot, r: Slot, textual: bool)
    requires Inherited(round, l, textual) && Inherited(round, r, textual)
    ensures Inherited(round, MergeSlot(path, b, l, r).slot, textual)
    decreases l.Present?, l.OrNull()
  {
    hide MergeSlot, Encodable, Textual;
    MergeStep(path, b, l, r);
    if Recurses(b, l, r) {
      var m := MergeSlot(path, b, l, r).slot;
      forall k ensures Inherited(round, Child(m, k), textual) && (Child(m, k).Present? ==> JsonString.WellFormed(k)) {
        ChildInherits(round, l, k, textual);
        ChildInherits(round, r, k, textual);
        MergeInherits(round, path + [k], Child(b, k), Child(l, k), Child(r, k), textual);
        NothingFromNothing(path + [k], Child(b, k), Child(l, k), Child(r, k));
      }
      ParentInherits(round, m, textual);
    }
  }

  lemma NothingFromNothing(path: Path, b: Slot, l: Slot, r: Slot)
    ensures l.Absent? && r.Absent? ==> MergeSlot(path, b, l, r).slot.Absent?
  {
  }

  // ----- What planting does, member by member -----

  ghost predicate NoPlaceholder(raw: Value, keys: seq<string>) {
    raw.Obj? ==> forall k :: k in keys && k in raw.m ==> raw.m[k] != Str(PLACEHOLDER)
  }

  // The members judging keeps survive a trip through text; with no excluded keys nothing is rewritten.
  ghost predicate RawTextual(raw: Value, keys: seq<string>) {
    raw.Obj? && keys != [] ==> forall k :: k in raw.m && k !in keys ==> Textual(raw.m[k])
  }

  /** Excluded members come from local unless local holds the placeholder; the others come from the merge. */
  lemma PlantedMembers(merged: Value, raw: Value, keys: seq<string>, k: string)
    requires merged.Obj? && raw.Obj? && forall x :: x in keys ==> x !in merged.m
    ensures var planted := DropPlaceholders(PlantExcludedKeys(merged, raw, keys), keys);
            planted.Obj? && Child(Present(planted), k) ==
              if k in keys then (if k in raw.m && raw.m[k] != Str(PLACEHOLDER) then Present(raw.m[k]) else Absent)
              else Child(Present(merged), k)
  {
    hide ObjectKeys, Filter;
    var p := PlantExcludedKeys(merged, raw, keys);
    assert p.Obj? && Child(Present(p), k) == if k in keys && k in raw.m then Present(raw.m[k]) else Child(Present(merged), k) by {
      var planted := set x | x in keys && x in raw.m;
      if keys != [] && planted == {} && k in keys && k in raw.m { assert k in planted; }
    }
    var dropped := set x | x in p.m && x in keys && p.m[x] == Str(PLACEHOLDER);
    assert k in dropped <==> k in p.m && k in keys && p.m[k] == Str(PLACEHOLDER);
  }

  lemma JudgedMembers(v: Value, keys: seq<string>, k: string)
    requires v.Obj?
    ensures Reparsed(StripTopKeys(v, keys)).Obj?
    ensures Child(Present(Reparsed(StripTopKeys(v, keys))), k)
            == if k in keys then Absent else ReparsedSlot(Child(Present(v), k))
  {
    hide PropertyOrder, ObjectKeys, Filter;
  }

  /** The planted value is the raw local one exactly when the merge is the judged local one and judging lost nothing. */
  lemma PlantedIsRawIff(round: Rounding, merged: Value, raw: Value, keys: seq<string>)
    requires keys != [] && raw.Obj? && Inherited(round, Present(merged), true) && merged.Obj?
    requires forall x :: x in keys ==> x !in merged.m
    ensures DeepEqual(DropPlaceholders(PlantExcludedKeys(merged, raw, keys), keys), raw) <==>
            && DeepEqual(merged, Reparsed(StripTopKeys(raw, keys)))
            && NoPlaceholder(raw, keys) && RawTextual(raw, keys)
  {
    hide DropPlaceholders, PlantExcludedKeys, Reparsed, StripTopKeys, Encodable, Textual, DeepEqual;
    var planted := DropPlaceholders(PlantExcludedKeys(merged, raw, keys), keys);
    var judged := Reparsed(StripTopKeys(raw, keys));
    forall k ensures PlantedChildLaw(merged, raw, keys, planted, judged, k) {
      PlantedMembers(merged, raw, keys, k);
      JudgedMembers(raw, keys, k);
      PlantedChild(round, merged, raw, keys, planted, judged, k);
    }
    PlantedMembers(merged, raw, keys, "");
    JudgedMembers(raw, keys, "");
    if DeepEqual(planted, raw) {
      forall k ensures SameSlot(Child(Present(planted), k), Child(Present(raw), k)) { SameChild(Present(planted), Present(raw), k); }
      forall k ensures SameSlot(Child(Present(merged), k), Child(Present(judged), k)) { assert PlantedChildLaw(merged, raw, keys, planted, judged, k); }
      SameObjects(Present(merged), Present(judged));
      forall k | k in keys && k in raw.m ensures raw.m[k] != Str(PLACEHOLDER) { assert PlantedChildLaw(merged, raw, keys, planted, judged, k); }
      forall k | k in raw.m && k !in keys ensures Textual(raw.m[k]) { assert PlantedChildLaw(merged, raw, keys, planted, judged, k); }
    }
    if DeepEqual(merged, judged) && NoPlaceholder(raw, keys) && RawTextual(raw, keys) {
      forall k ensures SameSlot(Child(Present(planted), k), Child(Present(raw), k)) {
        SameChild(Present(merged), Present(judged), k);
        assert PlantedChildLaw(merged, raw, keys, planted, judged, k);
      }
      SameObjects(Present(planted), Present(raw));
    }
  }

  // One member of the equivalence above.
  ghost predicate PlantedChildLaw(merged: Value, raw: Value, keys: seq<string>, planted: Value, judged: Value, k: string) {
    SameSlot(Child(Present(planted), k), Child(Present(raw), k)) <==>
      && SameSlot(Child(Present(merged), k), Child(Present(judged), k))
      && (raw.Obj? && k in raw.m ==> if k in keys then raw.m[k] != Str(PLACEHOLDER) else Textual(raw.m[k]))
  }

  lemma PlantedChild(round: Rounding, merged: Value, raw: Value, keys: seq<string>, planted: Value, judged: Value, k: string)
    requires raw.Obj? && merged.Obj? && planted.Obj? && judged.Obj? && Inherited(round, Present(merged), true)
    requires k in keys ==> k !in merged.m
    requires Child(Present(planted), k) ==
             if k in keys then (if k in raw.m && raw.m[k] != Str(PLACEHOLDER) then Present(raw.m[k]) else Absent)
             else Child(Present(merged), k)
    requires Child(Present(judged), k) == if k in keys then Absent else ReparsedSlot(Child(Present(raw), k))
    ensures PlantedChildLaw(merged, raw, keys, planted, judged, k)
  {
    hide Reparsed, Encodable, Textual, DeepEqual;
    if k in raw.m {
      var m, x := Child(Present(merged), k), raw.m[k];
      DeepEqualReflexive(x);
      ReparsedIsEqualIffTextual(x);
      ChildInherits(round, Present(merged), k, true);
      if k !in keys && m.Present? {
        if DeepEqual(m.v, x) {
          TextualRespectsEquality(m.v, x);
          DeepEqualSymmetric(Reparsed(x), x);
          DeepEqualTransitive(m.v, x, Reparsed(x));
        }
        if DeepEqual(m.v, Reparsed(x)) && Textual(x) { DeepEqualTransitive(m.v, Reparsed(x), x); }
      }
    }
  }

  // ----- The gate and the plan for one file -----

  predicate Complete(f: FileView) { f.base.Some? && f.local.Some? && f.remote.Some? }

  predicate Mergeable(env: Env, f: FileView) {
    !NotMergeable(env.round, f.base) && !NotMergeable(env.round, f.local) && !NotMergeable(env.round, f.remote)
  }

  predicate AnyDegraded(env: Env, f: FileView) {
    Degraded(env.round, f.base) || Degraded(env.round, f.local) || Degraded(env.round, f.remote)
  }

  function BaseSlot(env: Env, f: FileView): Slot { Present(ValueOf(env.round, f.base)) }
  function LocalSlot(env: Env, f: FileView): Slot { Present(ValueOf(env.round, f.local)) }
  function RemoteSlot(env: Env, f: FileView): Slot { Present(ValueOf(env.round, f.remote)) }

  // The judged values of a complete, mergeable file.
  lemma JudgedObjects(env: Env, keys: seq<string>, f: FileView, rawBase: Option<Entry>)
    requires Judges(env, keys, f, rawBase) && Complete(f) && Mergeable(env, f)
    ensures BaseSlot(env, f).IsObject() && LocalSlot(env, f).IsObject() && RemoteSlot(env, f).IsObject()
    ensures f.rawLocal.Some? && ParseEntry(env.round, f.rawLocal).Parsed?
    ensures Inherited(env.round, LocalSlot(env, f), keys != []) && Inherited(env.round, RemoteSlot(env, f), keys != [])
    ensures RawValue(env, f.rawLocal).Obj? && Encodable(env.round, RawValue(env, f.rawLocal))
    ensures keys == [] ==> RawValue(env, f.rawLocal) == LocalSlot(env, f).v
    ensures keys != [] ==> LocalSlot(env, f).v == Reparsed(StripTopKeys(RawValue(env, f.rawLocal), keys))
    ensures forall k :: k in keys ==> Child(BaseSlot(env, f), k) == Child(LocalSlot(env, f), k) == Child(RemoteSlot(env, f), k) == Absent
  {
    hide Parse, Reparsed, StripTopKeys, Encodable, Textual;
    JudgedSide(env, keys, rawBase.value);
    JudgedSide(env, keys, f.rawLocal.value);
    JudgedSide(env, keys, f.rawRemote.value);
  }

  lemma JudgedSide(env: Env, keys: seq<string>, raw: Entry)
    requires !NotMergeable(env.round, Some(StripEntry(env, keys, raw)))
    ensures Parse(env.round, raw.content).Parsed? && Parse(env.round, StripEntry(env, keys, raw).content).Parsed?
    ensures var x, v := Parse(env.round, raw.content).value, Parse(env.round, StripEntry(env, keys, raw).content).value;
            && x.Obj? && v.Obj? && Encodable(env.round, x) && Inherited(env.round, Present(v), keys != [])
            && (keys == [] ==> v == x)
            && (keys != [] ==> v == Reparsed(StripTopKeys(x, keys)))
            && (forall k :: k in keys ==> Child(Present(v), k) == Absent)
  {
    hide Parse, Encodable, Textual, CompactSerialize, PropertyOrder, ObjectKeys, Filter;
    JudgedValue(env, keys, raw);
    var x := Parse(env.round, raw.content).value;
    if keys != [] {
      ReparsedIsTextual(StripTopKeys(x, keys));
      forall k | k in keys && x.Obj? ensures Child(Present(Reparsed(StripTopKeys(x, keys))), k) == Absent { JudgedMembers(x, keys, k); }
    }
  }

  lemma MergeLacksExcluded(b: Slot, l: Slot, r: Slot, k: string)
    requires b.IsObject() && l.IsObject() && r.IsObject()
    requires Child(b, k) == Child(l, k) == Child(r, k) == Absent
    ensures Child(MergeSlot([], b, l, r).slot, k) == Absent && MergeSlot([], b, l, r).slot.IsObject()
  {
    hide MergeSlot, DeepEqual;
    MergeStep([], b, l, r);
    AbsentChildrenMergeToNothing([] + [k]);
  }

  // Remote brings nothing that local does not already hold.
  ghost predicate NothingNew(b: Slot, l: Slot, r: Slot) { RemotePathsLocal(b, l, r) && AddedObjectsCovered(b, l, r) }

  /** A clean three-way merge plans no write exactly when remote brings nothing new and local's raw text is kept as it is. */
  lemma MergedFileIsQuietIff(env: Env, ref: FileRef, f: FileView, rawBase: Option<Entry>)
    requires var keys := ExcludedKeys(env, ref.adapter, ref.category); Judges(env, keys, f, rawBase)
    requires Complete(f) && Mergeable(env, f)
    ensures var keys := ExcludedKeys(env, ref.adapter, ref.category);
            var b, l, r, raw := BaseSlot(env, f), LocalSlot(env, f), RemoteSlot(env, f), RawValue(env, f.rawLocal);
            && (MergeJSON(b.v, l.v, r.v).conflicts != [] ==>
                  PlanMergedFile(env, ref, keys, f).Some? && PlanMergedFile(env, ref, keys, f).value.PullConflict?)
            && (MergeJSON(b.v, l.v, r.v).conflicts == [] ==>
                  (PlanMergedFile(env, ref, keys, f).None? <==> NothingNew(b, l, r) && NoPlaceholder(raw, keys) && RawTextual(raw, keys)))
  {
    hide Parse, Reparsed, StripTopKeys, Encodable, Textual, MergeSlot, DeepEqual, DropPlaceholders, PlantExcludedKeys;
    var keys := ExcludedKeys(env, ref.adapter, ref.category);
    var b, l, r, raw := BaseSlot(env, f), LocalSlot(env, f), RemoteSlot(env, f), RawValue(env, f.rawLocal);
    JudgedObjects(env, keys, f, rawBase);
    var out := MergeSlot([], b, l, r);
    MergeStep([], b, l, r);
    if out.conflicts == [] {
      CleanIffNoConflicts([], b, l, r);
      CleanMergeIsLocalIff([], b, l, r);
      if keys == [] {
        NothingPlanted(out.slot.v, raw);
      } else {
        MergeInherits(env.round, [], b, l, r, true);
        forall x | x in keys ensures x !in out.slot.v.m { MergeLacksExcluded(b, l, r, x); }
        PlantedIsRawIff(env.round, out.slot.v, raw, keys);
      }
    }
  }

  lemma NothingPlanted(merged: Value, raw: Value)
    ensures DropPlaceholders(PlantExcludedKeys(merged, raw, []), []) == merged
  {
  }
}
