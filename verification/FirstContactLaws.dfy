/** What the first merge plans: shared JSON objects are merged from the empty object, everything else from nothing. */
module FirstContactLaws {
  import opened JsonValue
  import opened Keys
  import opened JsonText
  import opened JsonLaws
  import opened Merge
  import opened MergeLaws
  import opened Snapshot
  import opened Drift
  import opened Plan
  import opened FileLaws
  import opened FilePull
  import opened GateLaws
  import opened SyncTheorems
  import opened FirstContact
  import opened PlanLaws
  import opened PlanTheorems

  // ----- The synthetic base -----

  predicate ConfiguredCategory(env: Env, ref: FileRef) {
    && ref.adapter in env.config && env.config[ref.adapter].enabled
    && ref.category in env.config[ref.adapter].categories && env.config[ref.adapter].categories[ref.category].enabled
  }

  lemma {:induction false} CategoryFound(config: AdapterConfig, names: seq<string>, fill: string -> Files, id: string, name: string)
    requires forall n :: n in names ==> n in config.categories
    ensures var c := FindCategory(Some(Adapter(id, BaseCategories(config, names, fill))), name);
            c == if name in names then Some(Category(name, config.categories[name].mode, fill(name))) else None
  {
    if names != [] {
      assert BaseCategories(config, names, fill)[1..] == BaseCategories(config, names[1..], fill);
      CategoryFound(config, names[1..], fill, id, name);
    }
  }

  lemma BaseAdapterFound(env: Env, fill: (string, string) -> Files, id: string)
    ensures var a := LastAdapter(ShapedBase(env, fill), id);
            if id in env.config && env.config[id].enabled
            then a == Some(Adapter(id, BaseCategories(env.config[id], Sorted(EnabledCategories(env.config[id])), n => fill(id, n))))
            else a == None
  {
    hide BaseCategories, Sorted;
    var ids := Sorted(set x | x in env.config && env.config[x].enabled);
    var s := ShapedBase(env, fill);
    var a := LastAdapter(s, id);
    BaseHasLength(env, ids, fill);
    if id in ids {
      var i :| 0 <= i < |ids| && ids[i] == id;
      AdaptersHold(env, ids, fill, i);
      assert s[i] in s;
    }
    if a.Some? {
      var i :| 0 <= i < |s| && s[i] == a.value;
      AdaptersHold(env, ids, fill, i);
      assert ids[i] in ids;
    }
  }

  lemma {:induction false} BaseHasLength(env: Env, ids: seq<string>, fill: (string, string) -> Files)
    requires forall id :: id in ids ==> id in env.config
    ensures |BaseAdapters(env, ids, fill)| == |ids|
  {
    hide BaseCategories, Sorted;
    if ids != [] { BaseHasLength(env, ids[1..], fill); }
  }

  /** The base of the first merge has every enabled category of an enabled adapter, in its configured mode, and no other. */
  lemma MergeBaseIs(env: Env, ref: FileRef, local: Snapshots, remote: Snapshots)
    ensures SideAt(MergeBase(env, local, remote), ref) ==
              if ConfiguredCategory(env, ref)
              then Some(Category(ref.category, env.config[ref.adapter].categories[ref.category].mode,
                                 SharedFiles(env, local, remote, ref.adapter, ref.category)))
              else None
  {
    hide ShapedBase, SharedFiles, BaseCategories, FindCategory, LastAdapter, OrderedLike;
    var fill := (id, n) => SharedFiles(env, local, remote, id, n);
    OrderKeepsCategories(ShapedBase(env, fill), local + remote, ref.adapter, ref.category);
    BaseAdapterFound(env, fill, ref.adapter);
    if ref.adapter in env.config && env.config[ref.adapter].enabled {
      var config := env.config[ref.adapter];
      CategoryFound(config, Sorted(EnabledCategories(config)), n => fill(ref.adapter, n), ref.adapter, ref.category);
    } else {
      NoAdapterNoCategory(ref.category);
    }
  }

  lemma NoAdapterNoCategory(name: string)
    ensures FindCategory(None, name) == None
  {
  }

  /** Both raw sides hold the file as a JSON object, in a category the configuration enables and merges. */
  predicate Shared(env: Env, ref: FileRef, local: Snapshots, remote: Snapshots) {
    && ConfiguredCategory(env, ref) && env.config[ref.adapter].categories[ref.category].mode == "merge"
    && IsObjectText(env, EntryAt(FilesOf(SideAt(local, ref)), ref.path))
    && IsObjectText(env, EntryAt(FilesOf(SideAt(remote, ref)), ref.path))
  }

  lemma SharedBase(env: Env, ref: FileRef, local: Snapshots, remote: Snapshots)
    ensures EntryAt(FilesOf(SideAt(MergeBase(env, local, remote), ref)), ref.path) ==
            if Shared(env, ref, local, remote) then Some(Entry(Json, "{}")) else None
  {
    hide Parse, FindCategory, LastAdapter, MergeBase;
    MergeBaseIs(env, ref, local, remote);
  }

  // ----- A merge from the empty object -----

  lemma FromEmptyIsFromNothing(l: Slot, r: Slot)
    requires l.IsObject() && r.IsObject() && Recurses(Present(EMPTY_OBJECT), l, r) && CleanMerge(Present(EMPTY_OBJECT), l, r)
    ensures Recurses(Absent, l, r) && CleanMerge(Absent, l, r)
    ensures SameSlot(MergeSlot([], Present(EMPTY_OBJECT), l, r).slot, MergeSlot([], Absent, l, r).slot)
  {
    hide MergeSlot, DeepEqual;
    forall p: Path ensures ReasonAt(Absent, l, r, p) == Agreed { assert ReasonAt(Present(EMPTY_OBJECT), l, r, p) == Agreed; }
    var m, n := MergeSlot([], Present(EMPTY_OBJECT), l, r).slot, MergeSlot([], Absent, l, r).slot;
    MergeStep([], Present(EMPTY_OBJECT), l, r);
    MergeStep([], Absent, l, r);
    forall k ensures SameSlot(Child(m, k), Child(n, k)) { SameReflexive(Child(m, k)); }
    SameObjects(m, n);
  }

  /** A clean merge of two objects from the empty one is local exactly if local already holds all of remote. */
  lemma FromEmptyIsLocalIff(l: Slot, r: Slot)
    requires l.IsObject() && r.IsObject() && CleanMerge(Present(EMPTY_OBJECT), l, r)
    ensures SameSlot(MergeSlot([], Present(EMPTY_OBJECT), l, r).slot, l) <==> Covers(l.v, r.v)
  {
    var b, m := Present(EMPTY_OBJECT), MergeSlot([], Present(EMPTY_OBJECT), l, r).slot;
    MergeStep([], b, l, r);
    SameReflexive(l);
    if Recurses(b, l, r) {
      var n := MergeSlot([], Absent, l, r).slot;
      FromEmptyIsFromNothing(l, r);
      CleanAdditionIsLocalIffCovered([], l, r);
      SameSymmetric(m, n);
      if SameSlot(m, l) { SameTransitive(n, m, l); }
      if SameSlot(n, l) { SameTransitive(m, n, l); }
    } else {
      UnrecursedFromEmpty(l, r);
    }
  }

  lemma UnrecursedFromEmpty(l: Slot, r: Slot)
    requires l.IsObject() && r.IsObject() && !Recurses(Present(EMPTY_OBJECT), l, r)
    ensures SameSlot(Picked(Present(EMPTY_OBJECT), l, r), l) <==> Covers(l.v, r.v)
  {
    var b := Present(EMPTY_OBJECT);
    SameReflexive(l);
    if SameSlot(l, b) {
      DeepEqualKeys(l.v, EMPTY_OBJECT);
      if r.v.m == map[] { SameObjects(l, r); SameObjects(r, b); }
      if SameSlot(r, l) { SameSymmetric(r, l); DeepEqualKeys(r.v, l.v); }
    } else if SameSlot(r, b) {
      DeepEqualKeys(r.v, EMPTY_OBJECT);
    }
  }

  // Every leaf of the side stands in the written object.
  ghost predicate HoldsLeaves(env: Env, side: Slot, content: string) {
    && Parse(env.round, content).Parsed?
    && forall p: Path :: At(side, p).IsLeaf() ==> SameSlot(At(Present(Parse(env.round, content).value), p), ReparsedSlot(At(side, p)))
  }

  /**
   Nothing if remote's judged text is that of the empty object; a conflict that names the paths exactly
   if some path is irreconcilable; else nothing, exactly if local holds all of remote and its text is
   kept as it is, or the merge, with every leaf of both judged sides.
   */
  ghost predicate MergesFromEmpty(env: Env, a: Option<Action>, ref: FileRef, f: FileView) {
    var keys, raw := KeysAt(env, ref), RawValue(env, f.rawLocal);
    var l, r := LocalSlot(env, f), RemoteSlot(env, f);
    && f.remote.Some? && BaseSlot(env, f) == Present(EMPTY_OBJECT)
    && if f.remote.value.content == "{}" then a == None
       else if Irreconcilable(env, f) then a.Some? && NamesPaths(env, ref, f, a.value)
       else
         && (a == None <==> Covers(l.v, r.v) && NoPlaceholder(raw, keys) && RawTextual(raw, keys))
         && (a.Some? ==> a.value.PullWrite? && a.value.ref == ref && HoldsMerge(env, keys, f, a.value.content)
                         && HoldsLeaves(env, l, a.value.content) && HoldsLeaves(env, r, a.value.content))
  }

  lemma EditsAreLeaves(env: Env, side: Slot, content: string)
    requires Parse(env.round, content).Parsed? && side.IsObject()
    requires EditsKept(Present(EMPTY_OBJECT), side, Present(Parse(env.round, content).value))
    ensures HoldsLeaves(env, side, content)
  {
    hide Parse, EditsKept, Reparsed, DeepEqual;
    forall p: Path | At(side, p).IsLeaf()
      ensures SameSlot(At(Present(Parse(env.round, content).value), p), ReparsedSlot(At(side, p)))
    {
      if p != [] { AbsentBelow(p[1..]); }
      LeafIsEdit(side, Present(Parse(env.round, content).value), p);
    }
  }

  lemma QuietFromEmpty(env: Env, f: FileView, keys: seq<string>, rawBase: Option<Entry>)
    requires Judges(env, keys, f, rawBase) && Complete(f) && Mergeable(env, f) && !Irreconcilable(env, f)
    requires BaseSlot(env, f) == Present(EMPTY_OBJECT)
    ensures NothingNew(BaseSlot(env, f), LocalSlot(env, f), RemoteSlot(env, f)) <==> Covers(LocalSlot(env, f).v, RemoteSlot(env, f).v)
  {
    hide Parse, Judges, ReasonAt, MergeSlot, Covers, ValueOf, Mergeable, RemotePathsLocal, AddedObjectsCovered, Reparsed;
    JudgedObjects(env, keys, f, rawBase);
    var l, r := LocalSlot(env, f), RemoteSlot(env, f);
    FromEmptyIsLocalIff(l, r);
    CleanMergeIsLocalIff([], Present(EMPTY_OBJECT), l, r);
  }

  lemma SharedFilePlan(env: Env, ref: FileRef, f: FileView, a: Option<Action>)
    requires Judges(env, KeysAt(env, ref), f, Some(EMPTY_OBJECT_ENTRY)) && f.base == Some(EMPTY_OBJECT_ENTRY)
    requires Complete(f) && Mergeable(env, f) && ThreeWayPlan(env, a, ref, f)
    requires a.Some? && a.value.PullWrite? ==> KeepsEdits(env, KeysAt(env, ref), f, a.value.content)
    ensures MergesFromEmpty(env, a, ref, f)
  {
    hide Parse, Judges, Irreconcilable, Mergeable, HoldsMerge, EditsKept, ExcludedKept, HoldsLeaves, NothingNew, NoPlaceholder,
      RawTextual, Covers, NamesPaths, KeysAt;
    EmptyObjectIsMergeable(env);
    JudgedObjects(env, KeysAt(env, ref), f, Some(EMPTY_OBJECT_ENTRY));
    if !Irreconcilable(env, f) {
      QuietFromEmpty(env, f, KeysAt(env, ref), Some(EMPTY_OBJECT_ENTRY));
      if a.Some? && a.value.PullWrite? {
        EditsAreLeaves(env, LocalSlot(env, f), a.value.content);
        EditsAreLeaves(env, RemoteSlot(env, f), a.value.content);
      }
    }
  }

  // ----- The plan -----

  /** Local's mode if local has the category, else the configured one if it is enabled, else remote's. */
  predicate FirstMode(env: Env, mode: string, ref: FileRef, local: Snapshots, remote: Snapshots) {
    if SideAt(local, ref).Some? then mode == SideAt(local, ref).value.mode
    else if ConfiguredCategory(env, ref) then mode == env.config[ref.adapter].categories[ref.category].mode
    else if SideAt(remote, ref).Some? then mode == SideAt(remote, ref).value.mode
    else mode == ""
  }

  /** A file that is not shared: remote's alone is written, local's alone is left, and two texts must be one. */
  predicate MergesFromNothing(a: Option<Action>, ref: FileRef, f: FileView) {
    if f.remote.None? then a == None
    else if f.local.None? then IsWrite(a, ref, f.remote)
    else if f.local.value.content == f.remote.value.content then a == None
    else IsConflict(a, ref, "modify-vs-modify", f)
  }

  /** The first merge, file by file, for all snapshots and configurations. */
  lemma FirstMergeIs(env: Env, local: Snapshots, remote: Snapshots, ref: FileRef) returns (mode: string, f: FileView, a: Option<Action>)
    ensures FirstMode(env, mode, ref, local, remote)
    ensures f.rawLocal == EntryAt(FilesOf(SideAt(local, ref)), ref.path) && f.local == StripSide(env, KeysAt(env, ref), f.rawLocal)
    ensures f.rawRemote == EntryAt(FilesOf(SideAt(remote, ref)), ref.path) && f.remote == StripSide(env, KeysAt(env, ref), f.rawRemote)
    ensures PlansExactly(PlanFirstContact(env, local, remote, ContactMerge), ref, a)
    ensures if mode == "" then a == None
            else if !Shared(env, ref, local, remote) then MergesFromNothing(a, ref, f)
            else if mode == "mirror" then f.base == Some(Entry(Json, "{}")) && WholePlan(a, ref, f)
            else MergesFromEmpty(env, a, ref, f)
  {
    hide PlanPull, Parse, StripEntry, FindCategory, LastAdapter, MergeBase, KeysAt, ThreeWayPlan, MergesFromEmpty, Mergeable, Safe, PlansExactly;
    var base := MergeBase(env, local, remote);
    mode, f, a := PlanIs(env, base, local, remote, ref);
    MergeBaseIs(env, ref, local, remote);
    SharedBase(env, ref, local, remote);
    EmptyObjectText(env, KeysAt(env, ref));
    if Shared(env, ref, local, remote) {
      SharedIsMergeable(env, ref, f);
      if mode != "" && mode != "mirror" {
        WriteKeepsEdits(env, base, local, remote, ref, mode, f, a);
        SharedFilePlan(env, ref, f, a);
      }
    }
  }

  lemma SharedIsMergeable(env: Env, ref: FileRef, f: FileView)
    requires f.base == Some(EMPTY_OBJECT_ENTRY) && IsObjectText(env, f.rawLocal) && IsObjectText(env, f.rawRemote)
    requires f.local == StripSide(env, KeysAt(env, ref), f.rawLocal) && f.remote == StripSide(env, KeysAt(env, ref), f.rawRemote)
    ensures Complete(f) && Mergeable(env, f)
  {
    hide Parse, StripEntry, KeysAt;
    MergeableStays(env, KeysAt(env, ref), f.rawLocal.value);
    MergeableStays(env, KeysAt(env, ref), f.rawRemote.value);
    EmptyObjectIsMergeable(env);
  }

  lemma WriteKeepsEdits(env: Env, base: Snapshots, local: Snapshots, remote: Snapshots, ref: FileRef, mode: string, f: FileView, a: Option<Action>)
    requires PlansExactly(PlanPull(env, base, local, remote), ref, a) && PlansInMode(mode, ref, base, local, remote) && mode != MIRROR
    requires f == ViewOf(env, ref, base, local, remote) && Complete(f) && Mergeable(env, f)
    ensures a.Some? && a.value.PullWrite? ==> KeepsEdits(env, KeysAt(env, ref), f, a.value.content)
  {
    hide PlanPull, ViewOf, ModeOf, KeysAt, KeepsEdits, SideAt, Mergeable;
    ModeIs(env, ref, base, local, remote);
    if a.Some? && a.value.PullWrite? { PullIsSafe(env, base, local, remote, a.value); }
  }

  // ----- First contact by pull -----

  /** The base of the first pull has the same categories, all empty. */
  lemma EmptyBaseIs(env: Env, ref: FileRef, remote: Snapshots)
    ensures SideAt(EmptyBase(env, remote), ref) ==
              if ConfiguredCategory(env, ref)
              then Some(Category(ref.category, env.config[ref.adapter].categories[ref.category].mode, map[]))
              else None
  {
    hide ShapedBase, BaseCategories, FindCategory, LastAdapter, OrderedLike;
    var fill: (string, string) -> Files := (id, n) => map[];
    OrderKeepsCategories(ShapedBase(env, fill), remote, ref.adapter, ref.category);
    BaseAdapterFound(env, fill, ref.adapter);
    if ref.adapter in env.config && env.config[ref.adapter].enabled {
      var config := env.config[ref.adapter];
      CategoryFound(config, Sorted(EnabledCategories(config)), n => fill(ref.adapter, n), ref.adapter, ref.category);
    } else {
      NoAdapterNoCategory(ref.category);
    }
  }

  /** The configured mode if the category is enabled, else remote's. */
  predicate PullMode(env: Env, mode: string, ref: FileRef, remote: Snapshots) {
    if ConfiguredCategory(env, ref) then mode == env.config[ref.adapter].categories[ref.category].mode
    else if SideAt(remote, ref).Some? then mode == SideAt(remote, ref).value.mode
    else mode == ""
  }

  /** The first pull, file by file: remote's judged text wherever there is a mode, whatever local holds. */
  lemma FirstPullIs(env: Env, local: Snapshots, remote: Snapshots, ref: FileRef) returns (mode: string, judged: Option<Entry>, a: Option<Action>)
    ensures PullMode(env, mode, ref, remote)
    ensures judged == StripSide(env, KeysAt(env, ref), EntryAt(FilesOf(SideAt(remote, ref)), ref.path))
    ensures PlansExactly(PlanFirstContact(env, local, remote, ContactPull), ref, a)
    ensures a == if mode != "" && judged.Some? then Some(PullWrite(ref, judged.value.content)) else None
  {
    hide PlanPull, StripEntry, FindCategory, LastAdapter, EmptyBase, KeysAt, ThreeWayPlan, Mergeable, PlansExactly;
    var base := EmptyBase(env, remote);
    var f: FileView;
    mode, f, a := PlanIs(env, base, [], remote, ref);
    EmptyBaseIs(env, ref, remote);
    NothingAt(ref);
    judged := f.remote;
  }

  lemma NothingAt(ref: FileRef)
    ensures SideAt([], ref) == None
  {
  }

  // ----- The order of the base -----

  lemma {:induction false} IDsConcat(a: Snapshots, b: Snapshots)
    ensures IDs(a + b) == IDs(a) + IDs(b)
  {
    if a == [] {
      assert a + b == b && [] + IDs(b) == IDs(b);
    } else {
      assert (a + b)[0] == a[0] && (a + b)[1..] == a[1..] + b;
      IDsConcat(a[1..], b);
      assert [a[0].id] + IDs(a[1..]) + IDs(b) == [a[0].id] + (IDs(a[1..]) + IDs(b));
    }
  }

  lemma {:induction false} PickedIDs(base: Snapshots, ids: seq<string>, like: Snapshots, held: set<string>)
    requires forall id :: id in held <==> LastAdapter(base, id).Some?
    ensures IDs(PickedAdapters(base, ids, like)) == Filter(ids, held)
  {
    hide Reordered, NamesUnder, LastAdapter;
    if ids != [] {
      var a := LastAdapter(base, ids[0]);
      var here := if a.Some? then [Reordered(a.value, NamesUnder(like, ids[0]))] else [];
      PickedIDs(base, ids[1..], like, held);
      IDsConcat(here, PickedAdapters(base, ids[1..], like));
      ReorderedID(base, ids[0], like);
    }
  }

  lemma {:induction false} OtherIDs(base: Snapshots, ids: seq<string>, others: set<string>)
    requires forall a :: a in base ==> (a.id in others <==> a.id !in ids)
    ensures IDs(OtherAdapters(base, ids)) == Filter(IDs(base), others)
  {
    if base != [] {
      var here := if base[0].id in ids then [] else [base[0]];
      assert base[0] in base;
      OtherIDs(base[1..], ids, others);
      IDsConcat(here, OtherAdapters(base[1..], ids));
    }
  }

  /** A base lists the adapters the snapshots name, in their order, then its own others in byte order. */
  lemma BaseOrderIs(env: Env, fill: (string, string) -> Files, like: Snapshots, held: set<string>, others: set<string>)
    requires forall id :: id in held <==> id in env.config && env.config[id].enabled
    requires forall id :: id in others <==> id in held && id !in IDs(like)
    ensures IDs(OrderedLike(ShapedBase(env, fill), like)) == Filter(AppendNew([], IDs(like)), held) + Filter(Sorted(held), others)
  {
    hide BaseCategories, Sorted, PickedAdapters, OtherAdapters, LastAdapter, IDs, AppendNew, Filter;
    var base := ShapedBase(env, fill);
    assert held == set id | id in env.config && env.config[id].enabled;
    ShapedIDs(env, Sorted(held), fill);
    forall id ensures id in held <==> LastAdapter(base, id).Some? { BaseAdapterFound(env, fill, id); }
    forall a | a in base ensures a.id in others <==> a.id !in IDs(like) { assert a.id in IDs(base); }
    PickedIDs(base, AppendNew([], IDs(like)), like, held);
    OtherIDs(base, IDs(like), others);
    IDsConcat(PickedAdapters(base, AppendNew([], IDs(like)), like), OtherAdapters(base, IDs(like)));
  }

  lemma {:induction false} ShapedIDs(env: Env, ids: seq<string>, fill: (string, string) -> Files)
    requires forall id :: id in ids ==> id in env.config
    ensures IDs(BaseAdapters(env, ids, fill)) == ids
  {
    hide BaseCategories, Sorted;
    if ids != [] {
      ShapedIDs(env, ids[1..], fill);
      assert ids == [ids[0]] + ids[1..];
    }
  }
}
