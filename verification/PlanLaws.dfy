/** What the plan does with a file, stated by which sides changed and how; every case, and nothing else. */
module PlanLaws {
  import opened JsonValue
  import opened Keys
  import opened JsonText
  import opened JsonLaws
  import opened Merge
  import opened MergeLaws
  import opened MergeOrder
  import opened Diff
  import opened Snapshot
  import opened Drift
  import opened FileMatrix
  import opened Plan
  import opened FileLaws
  import opened FilePull
  import opened SyncTheorems
  import opened ExcludedKeyLaws

  // ----- Files that can be merged -----

  /** The side holds a JSON object. */
  predicate IsObjectText(env: Env, e: Option<Entry>) {
    e.Some? && e.value.kind == Json && Parse(env.round, e.value.content).Parsed? && Parse(env.round, e.value.content).value.Obj?
  }

  /** A file can be merged if no side is raw, malformed, or another value than an object. */
  lemma MergeableIs(env: Env, f: FileView)
    ensures Mergeable(env, f) <==>
              (f.base.None? || IsObjectText(env, f.base)) && (f.local.None? || IsObjectText(env, f.local))
              && (f.remote.None? || IsObjectText(env, f.remote))
  {
    hide Parse;
  }

  // ----- Files compared whole -----

  /** A whole-file conflict shows local's raw text, and remote's unless judging has taken something out of it. */
  predicate ShowsConflict(a: Action, ref: FileRef, reason: string, f: FileView) {
    && a.PullConflict? && a.ref == ref && a.reason == reason && a.keyPaths == []
    && a.localContent == (if f.rawLocal.Some? then f.rawLocal.value.content else "")
    && a.remoteContent ==
      (if f.rawRemote.Some? && f.remote.Some? && f.rawRemote.value.content == f.remote.value.content then f.rawRemote.value.content else "")
  }

  // A planned action, or none.
  predicate IsWrite(a: Option<Action>, ref: FileRef, e: Option<Entry>) { e.Some? && a == Some(PullWrite(ref, e.value.content)) }

  predicate IsDelete(a: Option<Action>, ref: FileRef) { a == Some(Action.PullDelete(ref)) }

  predicate IsConflict(a: Option<Action>, ref: FileRef, reason: string, f: FileView) { a.Some? && ShowsConflict(a.value, ref, reason, f) }

  function ClashReason(f: FileView): string {
    if f.local.None? then "local-delete-vs-remote-modify"
    else if f.remote.None? then "local-modify-vs-remote-delete"
    else "modify-vs-modify"
  }

  /** Whoever changed decides: remote alone is followed, both at once is a conflict, unless they changed alike. */
  predicate WholePlan(a: Option<Action>, ref: FileRef, f: FileView) {
    if !TextsDiffer(f.base, f.remote) then a == None
    else if !TextsDiffer(f.base, f.local) then (if f.remote.Some? then IsWrite(a, ref, f.remote) else IsDelete(a, ref))
    else if ChangedAlike(f.base, f.local, f.remote) then a == None
    else IsConflict(a, ref, ClashReason(f), f)
  }

  /** A mirrored file, or one of which some side is no JSON object. */
  lemma WholeFilePlan(env: Env, mode: string, ref: FileRef, f: FileView, rawBase: Option<Entry>)
    requires Judges(env, KeysAt(env, ref), f, rawBase) && (mode == MIRROR || !Mergeable(env, f))
    ensures WholePlan(PlanFile(env, mode, ref, f), ref, f)
  {
    hide Parse, StripEntry, NotMergeable, PlanMergedFile, OmitPlaceholders, DiffJSON, KeysAt;
    CompareFileIs(f.base, f.local, f.remote);
    hide CompareFile;
  }

  // ----- JSON objects of which a side is missing -----

  /** As for whole files, except that a delete asks whether local's value, rather than its text, is base's. */
  predicate PartialPlan(env: Env, a: Option<Action>, ref: FileRef, f: FileView) {
    if !TextsDiffer(f.base, f.remote) || ChangedAlike(f.base, f.local, f.remote) then a == None
    else if f.base.None? && f.local.None? then IsWrite(a, ref, f.remote)
    else if f.base.Some? && f.local.Some? && DeepEqual(ValueOf(env.round, f.base), ValueOf(env.round, f.local)) then IsDelete(a, ref)
    else IsConflict(a, ref, ClashReason(f), f)
  }

  /** Three JSON objects, one or two of them missing, in a category that merges. */
  lemma PartialFilePlan(env: Env, mode: string, ref: FileRef, f: FileView, rawBase: Option<Entry>)
    requires Judges(env, KeysAt(env, ref), f, rawBase) && mode != MIRROR && Mergeable(env, f) && !Complete(f)
    ensures PartialPlan(env, PlanFile(env, mode, ref, f), ref, f)
  {
    hide Parse, StripEntry, NotMergeable, PlanMergedFile, OmitPlaceholders, ValueOf;
    DiffKeysAreLabels(ValueOf(env.round, f.base), ValueOf(env.round, f.local));
    hide DiffJSON;
    KeysAtAre(env, ref);
    if f.remote.Some? { OmittingIsIdle(env, KeysAt(env, ref), f.rawRemote.value); }
  }

  // ----- Three JSON objects -----

  // The judged merge, and whether some path of it cannot be reconciled.
  function MergedSlot(env: Env, f: FileView): Slot {
    MergeSlot([], BaseSlot(env, f), LocalSlot(env, f), RemoteSlot(env, f)).slot
  }

  ghost predicate Irreconcilable(env: Env, f: FileView) {
    exists p: Path :: ReasonAt(BaseSlot(env, f), LocalSlot(env, f), RemoteSlot(env, f), p).Because?
  }

  /** The conflict names the irreconcilable paths by their dotted spelling, in merge order, and shows no content. */
  ghost predicate NamesPaths(env: Env, ref: FileRef, f: FileView, a: Action) {
    var cs := MergeSlot([], BaseSlot(env, f), LocalSlot(env, f), RemoteSlot(env, f)).conflicts;
    && a.PullConflict? && a.ref == ref && a.reason == "merge-keys" && a.localContent == "" && a.remoteContent == ""
    && |a.keyPaths| == |cs| && forall i :: 0 <= i < |cs| ==> a.keyPaths[i] == Render(cs[i].path)
  }

  // Members the written object must have: local's excluded ones, unless they are placeholders, and otherwise the merge's.
  predicate WrittenMember(merged: Slot, raw: Value, keys: seq<string>, w: Slot, k: string) {
    ReparsedSlot(Child(w, k)) == Child(w, k) && Child(w, k) ==
      ReparsedSlot(if k in keys then (if Child(Present(raw), k) == Present(Str("__REQUIRED__")) then Absent else Child(Present(raw), k))
                   else Child(merged, k))
  }

  lemma {:induction false} ReparsedIsStable(v: Value)
    ensures Reparsed(Reparsed(v)) == Reparsed(v)
  {
    match v
    case Arr(items) => forall i | 0 <= i < |items| ensures Reparsed(Reparsed(items[i])) == Reparsed(items[i]) { ReparsedIsStable(items[i]); }
    case Obj(_, m) =>
      forall k | k in m ensures Reparsed(Reparsed(m[k])) == Reparsed(m[k]) { ReparsedIsStable(m[k]); }
      ReparsedObjectIsStable(v);
    case _ =>
  }

  lemma ReparsedObjectIsStable(v: Value)
    requires v.Obj? && forall k :: k in v.m ==> Reparsed(Reparsed(v.m[k])) == Reparsed(v.m[k])
    ensures Reparsed(Reparsed(v)) == Reparsed(v)
  {
    hide PropertyOrder, ObjectKeys;
    var w := Reparsed(v);
    ReparsedKeys(v);
    PropertyOrderIdempotent(ObjectKeys(v));
    assert Reparsed(w).m == w.m;
  }

  lemma ReparsedKeys(v: Value)
    requires v.Obj?
    ensures Reparsed(v).Obj? && InStep(Reparsed(v)) && ObjectKeys(Reparsed(v)) == PropertyOrder(ObjectKeys(v))
  {
    hide PropertyOrder;
    InStepKeys(Reparsed(v));
  }

  // ----- The order of the written members -----

  lemma AppendNewFirst(a: seq<string>, k: string, rest: seq<string>)
    ensures AppendNew(a, [k] + rest) == AppendNew(if k in a then a else a + [k], rest)
  {
    assert ([k] + rest)[1..] == rest;
  }

  lemma {:induction false} FilterAppendNew(a: seq<string>, more: seq<string>, keep: set<string>)
    ensures Filter(AppendNew(a, more), keep) == AppendNew(Filter(a, keep), Filter(more, keep))
    decreases |more|
  {
    hide Filter, AppendNew;
    FilterFirst(more, keep);
    AppendNewNext(a, more);
    if more == [] {
      AppendNewNext(Filter(a, keep), []);
    } else {
      FilterSnoc(a, more[0], keep);
      assert Filter(a, keep) + [] == Filter(a, keep);
      FilterAppendNew(if more[0] in a then a else a + [more[0]], more[1..], keep);
      AppendNewFirst(Filter(a, keep), more[0], Filter(more[1..], keep));
    }
  }

  lemma FilterFirst(keys: seq<string>, keep: set<string>)
    ensures keys == [] ==> Filter(keys, keep) == []
    ensures keys != [] ==> Filter(keys, keep) == if keys[0] in keep then [keys[0]] + Filter(keys[1..], keep) else Filter(keys[1..], keep)
  {
  }

  lemma AppendNewNext(a: seq<string>, more: seq<string>)
    ensures more == [] ==> AppendNew(a, more) == a
    ensures more != [] ==> AppendNew(a, more) == AppendNew(if more[0] in a then a else a + [more[0]], more[1..])
  {
  }

  lemma {:induction false} AppendNewSkips(a: seq<string>, more: seq<string>, keep: set<string>, other: set<string>)
    requires forall k :: k in more && k !in a ==> (k in keep <==> k in other)
    ensures AppendNew(a, Filter(more, keep)) == AppendNew(a, Filter(more, other))
    decreases |more|
  {
    if more != [] { AppendNewSkips(if more[0] in a || more[0] !in keep then a else a + [more[0]], more[1..], keep, other); }
  }

  lemma {:induction false} AppendNewConcat(a: seq<string>, b: seq<string>, c: seq<string>)
    ensures AppendNew(a, b + c) == AppendNew(AppendNew(a, b), c)
    decreases |b|
  {
    if b == [] {
      assert b + c == c;
    } else {
      assert (b + c)[0] == b[0] && (b + c)[1..] == b[1..] + c;
      AppendNewConcat(if b[0] in a then a else a + [b[0]], b[1..], c);
    }
  }

  lemma {:induction false} FilterTwice(keys: seq<string>, keep: set<string>, less: set<string>)
    requires less <= keep
    ensures Filter(Filter(keys, keep), less) == Filter(keys, less)
  {
    if keys != [] { FilterTwice(keys[1..], keep, less); }
  }

  // An object whose key list has all its members, repeated or not.
  lemma ListedObjectKeys(o: Value)
    requires o.Obj? && forall k :: k in o.m ==> k in o.keys
    ensures ObjectKeys(o) == Filter(AppendNew([], o.keys), o.m.Keys)
  {
    var listed := AppendNew([], Filter(o.keys, o.m.Keys));
    assert o.m.Keys - (set k | k in listed) == {};
    FilterAppendNew([], o.keys, o.m.Keys);
  }

  lemma PlantedOrder(merged: Value, raw: Value, keys: seq<string>)
    requires merged.Obj?
    ensures var p := PlantExcludedKeys(merged, raw, keys);
            p.Obj? && ObjectKeys(p) == Filter(AppendNew(ObjectKeys(merged), keys), p.m.Keys)
  {
    var listed, p := ObjectKeys(merged), PlantExcludedKeys(merged, raw, keys);
    if p == merged {
      hide ObjectKeys, AppendNew;
      FilterAll(listed, p.m.Keys);
      FilterAppendNew(listed, keys, p.m.Keys);
      FilterNothing(keys);
      AppendNewSkips(listed, keys, {}, p.m.Keys);
      assert AppendNew(listed, []) == listed by { NothingAppended(listed); }
    } else {
      var planted := set k | k in keys && k in raw.m;
      hide ObjectKeys;
      NewlyPlanted(listed, keys, planted - merged.m.Keys, p);
    }
  }

  lemma NothingAppended(a: seq<string>)
    ensures AppendNew(a, []) == a
  {
  }

  lemma NewlyPlanted(listed: seq<string>, keys: seq<string>, more: set<string>, p: Value)
    requires p.Obj? && p.keys == listed + Filter(keys, more) && Distinct(listed) && more <= p.m.Keys
    requires forall k :: k in p.m ==> k in listed || k in more
    requires (forall k :: k in listed ==> k in p.m) && forall k :: k in more ==> k in keys
    ensures ObjectKeys(p) == Filter(AppendNew(listed, keys), p.m.Keys)
  {
    hide ObjectKeys, AppendNew, Filter;
    ListedObjectKeys(p);
    AppendNewConcat([], listed, Filter(keys, more));
    assert [] + listed == listed;
    AppendNewDistinct([], listed);
    FilterAll(listed, p.m.Keys);
    FilterAppendNew(listed, Filter(keys, more), p.m.Keys);
    FilterAll(Filter(keys, more), p.m.Keys);
    FilterAppendNew(listed, keys, p.m.Keys);
    AppendNewSkips(listed, keys, more, p.m.Keys);
  }

  lemma {:induction false} FilterNothing(keys: seq<string>)
    ensures Filter(keys, {}) == []
  {
    if keys != [] { FilterNothing(keys[1..]); }
  }

  lemma DroppedOrder(v: Value, keys: seq<string>)
    requires v.Obj?
    ensures var d := DropPlaceholders(v, keys); d.Obj? && ObjectKeys(d) == Filter(ObjectKeys(v), d.m.Keys)
  {
    var listed, d := ObjectKeys(v), DropPlaceholders(v, keys);
    if d == v {
      FilterAll(listed, v.m.Keys);
    } else {
      InStepKeys(d);
    }
  }

  /** The written members come in property order: the merge's members in their order, then the excluded ones as configured. */
  ghost predicate WrittenInOrder(merged: Slot, keys: seq<string>, w: Value) {
    merged.IsObject() && w.Obj? && KeysOf(Present(w)) == PropertyOrder(Filter(AppendNew(KeysOf(merged), keys), w.m.Keys))
  }

  lemma WrittenOrder(merged: Value, raw: Value, keys: seq<string>)
    requires merged.Obj?
    ensures WrittenInOrder(Present(merged), keys, Reparsed(DropPlaceholders(PlantExcludedKeys(merged, raw, keys), keys)))
  {
    hide PropertyOrder, PlantExcludedKeys, DropPlaceholders, ObjectKeys;
    var p := PlantExcludedKeys(merged, raw, keys);
    PlantedOrder(merged, raw, keys);
    DroppedOrder(p, keys);
    var d := DropPlaceholders(p, keys);
    DroppedMembers(p, keys);
    FilterTwice(AppendNew(ObjectKeys(merged), keys), p.m.Keys, d.m.Keys);
    ReparsedKeys(d);
    assert Reparsed(d).m.Keys == d.m.Keys;
  }

  lemma DroppedMembers(v: Value, keys: seq<string>)
    requires v.Obj?
    ensures DropPlaceholders(v, keys).Obj? && DropPlaceholders(v, keys).m.Keys <= v.m.Keys
  {
  }

  /** The written text is the canonical text, with its final newline, of exactly the merged members and local's excluded ones. */
  ghost predicate HoldsMerge(env: Env, keys: seq<string>, f: FileView, content: string) {
    && Parse(env.round, content).Parsed?
    && var w := Parse(env.round, content).value;
       && w.Obj? && content == Serialize(w) + "\n"
       && WrittenInOrder(MergedSlot(env, f), keys, w)
       && forall k :: WrittenMember(MergedSlot(env, f), RawValue(env, f.rawLocal), keys, Present(w), k)
  }

  lemma MergedWriteIs(env: Env, ref: FileRef, f: FileView, rawBase: Option<Entry>)
    requires Judges(env, KeysAt(env, ref), f, rawBase) && Complete(f) && Mergeable(env, f) && !Irreconcilable(env, f)
    ensures var a := PlanMergedFile(env, ref, KeysAt(env, ref), f);
            a.Some? ==> a.value.PullWrite? && a.value.ref == ref && HoldsMerge(env, KeysAt(env, ref), f, a.value.content)
  {
    hide Parse, Serialize, Reparsed, Encodable, MergeSlot, DeepEqual, DropPlaceholders, PlantExcludedKeys, Judges, ReasonAt, KeysAt,
      WrittenMember, WrittenInOrder, Mergeable, ValueOf;
    var keys := KeysAt(env, ref);
    var b, l, r, raw := BaseSlot(env, f), LocalSlot(env, f), RemoteSlot(env, f), RawValue(env, f.rawLocal);
    JudgedObjects(env, keys, f, rawBase);
    CleanIffNoConflicts([], b, l, r);
    var out := MergeSlot([], b, l, r);
    ObjectsMergeToObject(b, l, r);
    forall k | k in keys ensures k !in out.slot.v.m { MergeLacksExcluded(b, l, r, k); }
    MergeInherits(env.round, [], b, l, r, false);
    PlantedInherits(env.round, out.slot.v, raw, keys);
    var planted := DropPlaceholders(PlantExcludedKeys(out.slot.v, raw, keys), keys);
    PlantedMembers(out.slot.v, raw, keys, "");
    SerializeReadsBack(env.round, planted);
    OnlyObjectsStayObjects(planted);
    WrittenOrder(out.slot.v, raw, keys);
    forall k ensures WrittenMember(out.slot, raw, keys, Present(Reparsed(planted)), k) { MemberIsWritten(out.slot.v, raw, keys, k); }
  }

  lemma MemberIsWritten(merged: Value, raw: Value, keys: seq<string>, k: string)
    requires merged.Obj? && raw.Obj? && forall x :: x in keys ==> x !in merged.m
    ensures WrittenMember(Present(merged), raw, keys, Present(Reparsed(DropPlaceholders(PlantExcludedKeys(merged, raw, keys), keys))), k)
  {
    hide Reparsed, DropPlaceholders, PlantExcludedKeys;
    var planted := DropPlaceholders(PlantExcludedKeys(merged, raw, keys), keys);
    PlantedMembers(merged, raw, keys, k);
    ReparsedChild(Present(planted), k);
    if Child(Present(planted), k).Present? { ReparsedIsStable(Child(Present(planted), k).v); }
  }

  /**
   Nothing if remote did not change its text; a conflict that names the paths exactly if some path is
   irreconcilable; otherwise nothing, exactly if remote brings nothing new and local's text is kept as
   it is, or else the merge.
   */
  ghost predicate ThreeWayPlan(env: Env, a: Option<Action>, ref: FileRef, f: FileView) {
    var keys, raw := KeysAt(env, ref), RawValue(env, f.rawLocal);
    if !TextsDiffer(f.base, f.remote) then a == None
    else if Irreconcilable(env, f) then a.Some? && NamesPaths(env, ref, f, a.value)
    else
      && (a == None <==> NothingNew(BaseSlot(env, f), LocalSlot(env, f), RemoteSlot(env, f)) && NoPlaceholder(raw, keys) && RawTextual(raw, keys))
      && (a.Some? ==> a.value.PullWrite? && a.value.ref == ref && HoldsMerge(env, keys, f, a.value.content))
  }

  /** Three JSON objects in a category that merges. */
  lemma FullFilePlan(env: Env, mode: string, ref: FileRef, f: FileView, rawBase: Option<Entry>)
    requires Judges(env, KeysAt(env, ref), f, rawBase) && mode != MIRROR && Mergeable(env, f) && Complete(f)
    ensures ThreeWayPlan(env, PlanFile(env, mode, ref, f), ref, f)
  {
    hide Parse, ReasonAt, MergeSlot, HoldsMerge, NothingNew, NoPlaceholder, RawTextual, Judges, ValueOf, NotMergeable, KeysAt, Planted;
    KeysAtAre(env, ref);
    CleanIffNoConflicts([], BaseSlot(env, f), LocalSlot(env, f), RemoteSlot(env, f));
    MergedFileIsQuietIff(env, ref, f, rawBase);
    if !Irreconcilable(env, f) { MergedWriteIs(env, ref, f, rawBase); }
  }
}
