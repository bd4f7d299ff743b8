/** First contact: a pull or a merge against a synthetic base. */
module FirstContact {
  import opened JsonValue
  import opened Keys
  import opened JsonText
  import opened JsonLaws
  import opened Diff
  import opened MergeLaws
  import opened Snapshot
  import opened Drift
  import opened Plan
  import opened FileLaws
  import opened FilePull
  import opened GateLaws
  import opened SyncTheorems
  import opened ExcludedKeyLaws

  datatype Mode = ContactPull | ContactMerge | ContactSkip

  function EnabledCategories(config: AdapterConfig): set<string> {
    set c | c in config.categories && config.categories[c].enabled
  }

  // One category per enabled category name, holding the files `fill` gives it.
  function BaseCategories(config: AdapterConfig, names: seq<string>, fill: string -> Files): seq<Category>
    requires forall n :: n in names ==> n in config.categories
  {
    if names == [] then []
    else [Category(names[0], config.categories[names[0]].mode, fill(names[0]))] + BaseCategories(config, names[1..], fill)
  }

  function BaseAdapters(env: Env, ids: seq<string>, fill: (string, string) -> Files): Snapshots
    requires forall id :: id in ids ==> id in env.config
  {
    if ids == [] then []
    else
      [Adapter(ids[0], BaseCategories(env.config[ids[0]], Sorted(EnabledCategories(env.config[ids[0]])), n => fill(ids[0], n)))]
      + BaseAdapters(env, ids[1..], fill)
  }

  // A base with the configuration's shape.
  function ShapedBase(env: Env, fill: (string, string) -> Files): Snapshots {
    BaseAdapters(env, Sorted(set id | id in env.config && env.config[id].enabled), fill)
  }

  const EMPTY_OBJECT_ENTRY := Entry(Json, "{}")

  // The files of a merge category both sides hold as JSON objects start from an empty object.
  function SharedFiles(env: Env, local: Snapshots, remote: Snapshots, id: string, name: string): Files {
    var l, r := FindCategory(LastAdapter(local, id), name), FindCategory(LastAdapter(remote, id), name);
    if id in env.config && name in env.config[id].categories && env.config[id].categories[name].mode == MERGE && l.Some? && r.Some? then
      map p | p in l.value.files && p in r.value.files
              && !NotMergeable(env.round, Some(l.value.files[p])) && !NotMergeable(env.round, Some(r.value.files[p])) :: EMPTY_OBJECT_ENTRY
    else map[]
  }

  // ----- The order of a base -----

  // The category names the snapshots list under an adapter ID.
  function NamesUnder(like: Snapshots, id: string): seq<string> {
    if like == [] then [] else (if like[0].id == id then Names(Some(like[0])) else []) + NamesUnder(like[1..], id)
  }

  function PickedCategories(a: Adapter, names: seq<string>): seq<Category> {
    if names == [] then []
    else
      var c := FindCategory(Some(a), names[0]);
      (if c.Some? then [c.value] else []) + PickedCategories(a, names[1..])
  }

  function OtherCategories(categories: seq<Category>, names: seq<string>): seq<Category> {
    if categories == [] then []
    else (if categories[0].name in names then [] else [categories[0]]) + OtherCategories(categories[1..], names)
  }

  function Reordered(a: Adapter, names: seq<string>): Adapter {
    Adapter(a.id, PickedCategories(a, AppendNew([], names)) + OtherCategories(a.categories, names))
  }

  function PickedAdapters(base: Snapshots, ids: seq<string>, like: Snapshots): Snapshots {
    if ids == [] then []
    else
      var a := LastAdapter(base, ids[0]);
      (if a.Some? then [Reordered(a.value, NamesUnder(like, ids[0]))] else []) + PickedAdapters(base, ids[1..], like)
  }

  function OtherAdapters(base: Snapshots, ids: seq<string>): Snapshots {
    if base == [] then [] else (if base[0].id in ids then [] else [base[0]]) + OtherAdapters(base[1..], ids)
  }

  /** Adapters and categories in the order in which the given snapshots first name them; the others follow as they stand. */
  function OrderedLike(base: Snapshots, like: Snapshots): Snapshots {
    PickedAdapters(base, AppendNew([], IDs(like)), like) + OtherAdapters(base, IDs(like))
  }

  function MergeBase(env: Env, local: Snapshots, remote: Snapshots): Snapshots {
    OrderedLike(ShapedBase(env, (id, n) => SharedFiles(env, local, remote, id, n)), local + remote)
  }

  function EmptyBase(env: Env, remote: Snapshots): Snapshots { OrderedLike(ShapedBase(env, (id, n) => map[]), remote) }

  function PlanFirstContact(env: Env, local: Snapshots, remote: Snapshots, mode: Mode): seq<Action> {
    match mode
    case ContactSkip => []
    case ContactPull => PlanPull(env, EmptyBase(env, remote), [], remote)
    case ContactMerge => PlanPull(env, MergeBase(env, local, remote), local, remote)
  }

  // ----- Reordering keeps what a base holds -----

  lemma {:induction false} CategoryInConcat(id: string, a: seq<Category>, b: seq<Category>, name: string)
    ensures var first := FindCategory(Some(Adapter(id, a)), name);
            FindCategory(Some(Adapter(id, a + b)), name) == if first.Some? then first else FindCategory(Some(Adapter(id, b)), name)
  {
    if a == [] {
      assert a + b == b;
    } else {
      assert (a + b)[0] == a[0] && (a + b)[1..] == a[1..] + b;
      CategoryInConcat(id, a[1..], b, name);
    }
  }

  lemma {:induction false} PickedCategoryFound(a: Adapter, names: seq<string>, name: string)
    ensures FindCategory(Some(Adapter(a.id, PickedCategories(a, names))), name) == if name in names then FindCategory(Some(a), name) else None
  {
    if names != [] {
      var c := FindCategory(Some(a), names[0]);
      var here, more := if c.Some? then [c.value] else [], PickedCategories(a, names[1..]);
      PickedCategoryFound(a, names[1..], name);
      CategoryInConcat(a.id, here, more, name);
      OneCategory(a.id, here, name);
      assert names == [names[0]] + names[1..];
    }
  }

  lemma OneCategory(id: string, here: seq<Category>, name: string)
    requires |here| <= 1
    ensures FindCategory(Some(Adapter(id, here)), name) == if here != [] && here[0].name == name then Some(here[0]) else None
  {
  }

  lemma {:induction false} OtherCategoryFound(id: string, categories: seq<Category>, names: seq<string>, name: string)
    ensures FindCategory(Some(Adapter(id, OtherCategories(categories, names))), name)
            == if name in names then None else FindCategory(Some(Adapter(id, categories)), name)
  {
    if categories != [] {
      var here, more := if categories[0].name in names then [] else [categories[0]], OtherCategories(categories[1..], names);
      OtherCategoryFound(id, categories[1..], names, name);
      CategoryInConcat(id, here, more, name);
      OneCategory(id, here, name);
    }
  }

  lemma ReorderedHolds(a: Adapter, names: seq<string>, name: string)
    ensures FindCategory(Some(Reordered(a, names)), name) == FindCategory(Some(a), name)
  {
    hide FindCategory, PickedCategories, OtherCategories;
    PickedCategoryFound(a, AppendNew([], names), name);
    OtherCategoryFound(a.id, a.categories, names, name);
    CategoryInConcat(a.id, PickedCategories(a, AppendNew([], names)), OtherCategories(a.categories, names), name);
    assert Adapter(a.id, a.categories) == a;
  }

  lemma {:induction false} AdapterInConcat(a: Snapshots, b: Snapshots, id: string)
    ensures var last := LastAdapter(b, id); LastAdapter(a + b, id) == if last.Some? then last else LastAdapter(a, id)
    decreases |b|
  {
    if b == [] {
      assert a + b == a;
    } else {
      assert (a + b)[|a + b| - 1] == b[|b| - 1] && (a + b)[..|a + b| - 1] == a + b[..|b| - 1];
      AdapterInConcat(a, b[..|b| - 1], id);
    }
  }

  lemma OneAdapter(here: Snapshots, id: string)
    requires |here| <= 1
    ensures LastAdapter(here, id) == if here != [] && here[0].id == id then Some(here[0]) else None
  {
  }

  lemma {:induction false} PickedAdapterFound(base: Snapshots, ids: seq<string>, like: Snapshots, id: string)
    requires Distinct(ids)
    ensures var a := LastAdapter(base, id);
            LastAdapter(PickedAdapters(base, ids, like), id)
            == if id in ids && a.Some? then Some(Reordered(a.value, NamesUnder(like, id))) else None
  {
    hide Reordered, NamesUnder;
    if ids != [] {
      var a := LastAdapter(base, ids[0]);
      var here := if a.Some? then [Reordered(a.value, NamesUnder(like, ids[0]))] else [];
      PickedAdapterFound(base, ids[1..], like, id);
      AdapterInConcat(here, PickedAdapters(base, ids[1..], like), id);
      ReorderedID(base, ids[0], like);
      OneAdapter(here, id);
      assert ids == [ids[0]] + ids[1..] && ids[0] !in ids[1..];
    }
  }

  lemma ReorderedID(base: Snapshots, id: string, like: Snapshots)
    ensures LastAdapter(base, id).Some? ==> Reordered(LastAdapter(base, id).value, NamesUnder(like, id)).id == id
  {
  }

  lemma {:induction false} OtherAdapterFound(base: Snapshots, ids: seq<string>, id: string)
    ensures LastAdapter(OtherAdapters(base, ids), id) == if id in ids then None else LastAdapter(base, id)
  {
    hide LastAdapter;
    if base != [] {
      var first, rest := base[0], base[1..];
      var here := if first.id in ids then [] else [first];
      OtherAdapterFound(rest, ids, id);
      AdapterInConcat(here, OtherAdapters(rest, ids), id);
      OneAdapter(here, id);
      FirstAmong(base, id);
    }
  }

  lemma FirstAmong(base: Snapshots, id: string)
    requires base != []
    ensures var last := LastAdapter(base[1..], id);
            LastAdapter(base, id) == if last.Some? then last else if base[0].id == id then Some(base[0]) else None
  {
    hide LastAdapter;
    AdapterInConcat([base[0]], base[1..], id);
    OneAdapter([base[0]], id);
    assert base == [base[0]] + base[1..];
  }

  /** Reordering a base changes no category of it. */
  lemma OrderKeepsCategories(base: Snapshots, like: Snapshots, id: string, name: string)
    ensures FindCategory(LastAdapter(OrderedLike(base, like), id), name) == FindCategory(LastAdapter(base, id), name)
  {
    hide FindCategory, LastAdapter, PickedAdapters, OtherAdapters, Reordered, NamesUnder, IDs;
    var ids := AppendNew([], IDs(like));
    PickedAdapterFound(base, ids, like, id);
    OtherAdapterFound(base, IDs(like), id);
    AdapterInConcat(PickedAdapters(base, ids, like), OtherAdapters(base, IDs(like)), id);
    var a := LastAdapter(base, id);
    if a.Some? { ReorderedHolds(a.value, NamesUnder(like, id), name); }
  }

  // ----- What a shaped base holds -----

  lemma {:induction false} CategoriesHold(config: AdapterConfig, names: seq<string>, fill: string -> Files, id: string, name: string)
    requires forall n :: n in names ==> n in config.categories
    ensures var c := FindCategory(Some(Adapter(id, BaseCategories(config, names, fill))), name);
            c.Some? ==> c.value.files == fill(name)
  {
    if names != [] {
      assert BaseCategories(config, names, fill)[1..] == BaseCategories(config, names[1..], fill);
      CategoriesHold(config, names[1..], fill, id, name);
    }
  }

  lemma {:induction false} AdaptersHold(env: Env, ids: seq<string>, fill: (string, string) -> Files, i: nat)
    requires (forall id :: id in ids ==> id in env.config) && i < |ids|
    ensures var s := BaseAdapters(env, ids, fill);
            |s| == |ids| && s[i] == Adapter(ids[i], BaseCategories(env.config[ids[i]], Sorted(EnabledCategories(env.config[ids[i]])), n => fill(ids[i], n)))
  {
    if i > 0 {
      AdaptersHold(env, ids[1..], fill, i - 1);
    } else if |ids| > 1 {
      AdaptersHold(env, ids[1..], fill, 0);
    }
  }

  lemma ShapedBaseHolds(env: Env, fill: (string, string) -> Files, id: string, name: string)
    ensures var c := FindCategory(LastAdapter(ShapedBase(env, fill), id), name);
            c.Some? ==> c.value.files == fill(id, name)
  {
    hide BaseCategories, Sorted, FindCategory;
    var ids := Sorted(set x | x in env.config && env.config[x].enabled);
    var s := ShapedBase(env, fill);
    var a := LastAdapter(s, id);
    if a.Some? {
      if ids != [] { AdaptersHold(env, ids, fill, 0); }
      var i :| 0 <= i < |s| && s[i] == a.value;
      AdaptersHold(env, ids, fill, i);
      CategoriesHold(env.config[id], Sorted(EnabledCategories(env.config[id])), n => fill(id, n), id, name);
    }
  }

  // The synthetic base of a file: an empty object both sides share, or nothing.
  lemma MergeBaseView(env: Env, ref: FileRef, local: Snapshots, remote: Snapshots)
    ensures var f := ViewOf(env, ref, MergeBase(env, local, remote), local, remote);
            f.base.Some? ==>
              && f.base.value == StripEntry(env, KeysAt(env, ref), EMPTY_OBJECT_ENTRY) && f.local.Some? && f.remote.Some?
              && f.rawLocal.Some? && !NotMergeable(env.round, f.rawLocal) && f.rawRemote.Some? && !NotMergeable(env.round, f.rawRemote)
  {
    hide StripEntry, NotMergeable, ExcludedKeys, ShapedBase, OrderedLike;
    var base := MergeBase(env, local, remote);
    var fill := (id, n) => SharedFiles(env, local, remote, id, n);
    OrderKeepsCategories(ShapedBase(env, fill), local + remote, ref.adapter, ref.category);
    ShapedBaseHolds(env, fill, ref.adapter, ref.category);
    SideIsStripped(env, ref, base);
    SideIsStripped(env, ref, local);
    SideIsStripped(env, ref, remote);
  }

  lemma EmptyObjectText(env: Env, keys: seq<string>)
    ensures StripEntry(env, keys, EMPTY_OBJECT_ENTRY) == EMPTY_OBJECT_ENTRY
    ensures Parse(env.round, "{}") == Parsed(EMPTY_OBJECT)
  {
    EmptyObjectReads(env.round, "");
    assert "{}" + "" == "{}";
    assert SkipSpace("{}") == "{}";
    assert StripTopKeys(EMPTY_OBJECT, keys).m == map[];
    StrippedEmptyObject(keys);
    SqueezedEmptyObject();
  }

  lemma StrippedEmptyObject(keys: seq<string>)
    ensures StripTopKeys(EMPTY_OBJECT, keys) == EMPTY_OBJECT
  {
    KeysInStep(EMPTY_OBJECT);
    assert StripTopKeys(EMPTY_OBJECT, keys).m == EMPTY_OBJECT.m;
  }

  lemma SqueezedEmptyObject()
    ensures CompactSerialize(EMPTY_OBJECT) == "{}"
  {
    KeysInStep(EMPTY_OBJECT);
    BareText("{}");
  }

  // ----- First contact by merge -----

  // A leaf below an excluded key that holds the placeholder stands for no value.
  predicate BelowPlaceholder(raw: Value, keys: seq<string>, p: Path) {
    p != [] && p[0] in keys && Child(Present(raw), p[0]) == Present(Str(PLACEHOLDER))
  }

  ghost predicate LeafKept(raw: Value, keys: seq<string>, w: Slot, p: Path) {
    At(Present(raw), p).IsLeaf() && !BelowPlaceholder(raw, keys, p) ==> SameSlot(At(w, p), ReparsedSlot(At(Present(raw), p)))
  }

  /** Every leaf of the raw local file, those under excluded keys included, stands in the written object. */
  ghost predicate LeavesKept(env: Env, keys: seq<string>, raw: Value, content: string) {
    && Parse(env.round, content).Parsed?
    && forall p: Path :: LeafKept(raw, keys, Present(Parse(env.round, content).value), p)
  }

  lemma MergeableStays(env: Env, keys: seq<string>, raw: Entry)
    requires !NotMergeable(env.round, Some(raw))
    ensures !NotMergeable(env.round, Some(StripEntry(env, keys, raw))) && StripEntry(env, keys, raw).kind == Json
  {
    hide Parse, CompactSerialize, Reparsed, StripTopKeys, Encodable;
    if keys != [] {
      var v := Parse(env.round, raw.content).value;
      DocumentIsEncodable(env.round, raw.content);
      StripKeepsEncodable(env.round, v, keys);
      CompactReadsBack(env.round, StripTopKeys(v, keys));
      StrippedIsObject(v, keys);
      OnlyObjectsStayObjects(StripTopKeys(v, keys));
    }
  }

  lemma StrippedIsObject(v: Value, keys: seq<string>)
    requires v.Obj?
    ensures StripTopKeys(v, keys).Obj?
  {
  }

  lemma RootIsNoLeaf(raw: Value, keys: seq<string>, w: Slot)
    requires raw.Obj?
    ensures LeafKept(raw, keys, w, [])
  {
  }

  // Below an excluded key the raw value stands whole.
  lemma ExcludedLeafStays(raw: Value, keys: seq<string>, w: Slot, p: Path)
    requires raw.Obj? && ExcludedKept(raw, keys, w) && p != [] && p[0] in keys
    ensures LeafKept(raw, keys, w, p)
  {
    hide Reparsed;
    if At(Present(raw), p).IsLeaf() && !BelowPlaceholder(raw, keys, p) {
      var child := Child(Present(raw), p[0]);
      if child.Absent? { AbsentBelow(p[1..]); }
      assert Child(w, p[0]) == ReparsedSlot(child);
      ReparsedAt(child, p[1..]);
      DeepEqualReflexive(At(w, p).v);
    }
  }

  // Elsewhere the judged local value does, which is the raw one as text carries it.
  lemma JudgedLeafStays(raw: Value, keys: seq<string>, l: Slot, w: Slot, p: Path)
    requires raw.Obj? && p != [] && p[0] !in keys
    requires l == Present(if keys == [] then raw else Reparsed(StripTopKeys(raw, keys)))
    requires EditsKept(Present(EMPTY_OBJECT), l, w)
    ensures LeafKept(raw, keys, w, p)
  {
    hide Reparsed, StripTopKeys, DeepEqual, EditsKept;
    if At(Present(raw), p).IsLeaf() {
      var leaf := At(Present(raw), p).v;
      if keys != [] {
        JudgedMembers(raw, keys, p[0]);
        ReparsedAt(Child(Present(raw), p[0]), p[1..]);
        OnlyObjectsStayObjects(leaf);
        ReparsedTwice(leaf);
      }
      AbsentBelow(p[1..]);
      LeafIsEdit(l, w, p);
      if keys != [] { DeepEqualTransitive(At(w, p).v, Reparsed(Reparsed(leaf)), Reparsed(leaf)); }
    }
  }

  lemma LeafIsEdit(l: Slot, w: Slot, p: Path)
    requires EditsKept(Present(EMPTY_OBJECT), l, w) && At(l, p).IsLeaf() && At(Present(EMPTY_OBJECT), p) == Absent
    ensures SameSlot(At(w, p), ReparsedSlot(At(l, p)))
  {
    hide Reparsed, DeepEqual;
  }

  lemma MergedKeepsRawLeaves(env: Env, keys: seq<string>, f: FileView, rawBase: Option<Entry>, content: string)
    requires Judges(env, keys, f, rawBase) && Complete(f) && Mergeable(env, f) && BaseSlot(env, f) == Present(EMPTY_OBJECT)
    requires KeepsEdits(env, keys, f, content)
    ensures LeavesKept(env, keys, RawValue(env, f.rawLocal), content)
  {
    hide Parse, Reparsed, StripTopKeys, Encodable, EditsKept, ExcludedKept, Judges, Mergeable, LeafKept;
    JudgedObjects(env, keys, f, rawBase);
    var raw, w := RawValue(env, f.rawLocal), Present(Parse(env.round, content).value);
    forall p: Path ensures LeafKept(raw, keys, w, p) {
      if p == [] {
        RootIsNoLeaf(raw, keys, w);
      } else if p[0] in keys {
        ExcludedLeafStays(raw, keys, w, p);
      } else {
        JudgedLeafStays(raw, keys, LocalSlot(env, f), w, p);
      }
    }
  }

  /**
   First contact by merge deletes nothing, and writes only a file local lacks or a merged object that
   keeps every leaf of the raw local file. The one exception is a file whose local category is a
   mirror although the configuration merges it, and whose judged content is the bare empty object.
   */
  lemma FirstMergeKeepsLocal(env: Env, local: Snapshots, remote: Snapshots, a: Action)
    requires a in PlanFirstContact(env, local, remote, ContactMerge)
    ensures var f := ViewOf(env, a.ref, MergeBase(env, local, remote), local, remote);
            && !a.PullDelete?
            && (a.PullWrite? ==>
                  || f.rawLocal.None?
                  || LeavesKept(env, KeysAt(env, a.ref), RawValue(env, f.rawLocal), a.content)
                  || (ModeOf(env, a.ref, MergeBase(env, local, remote), local, remote) == MIRROR && f.local == Some(EMPTY_OBJECT_ENTRY)))
  {
    hide PlanPull, ViewOf, ModeOf, StripEntry, MergeBase, ExcludedKeys, Parse, NotMergeable, KeepsEdits, LeavesKept;
    var base, keys := MergeBase(env, local, remote), KeysAt(env, a.ref);
    var f := ViewOf(env, a.ref, base, local, remote);
    PullIsSafe(env, base, local, remote, a);
    MergeBaseView(env, a.ref, local, remote);
    EmptyObjectText(env, keys);
    ViewIsJudged(env, a.ref, base, local, remote);
    if f.base.Some? && a.PullWrite? {
      MergeableStays(env, keys, f.rawLocal.value);
      MergeableStays(env, keys, f.rawRemote.value);
      EmptyObjectIsMergeable(env);
      var rawBase := EntryAt(FilesOf(FindCategory(LastAdapter(base, a.ref.adapter), a.ref.category)), a.ref.path);
      if KeepsEdits(env, keys, f, a.content) { MergedKeepsRawLeaves(env, keys, f, rawBase, a.content); }
    }
  }

  lemma EmptyObjectIsMergeable(env: Env)
    ensures !NotMergeable(env.round, Some(EMPTY_OBJECT_ENTRY))
    ensures ValueOf(env.round, Some(EMPTY_OBJECT_ENTRY)) == EMPTY_OBJECT
  {
    EmptyObjectText(env, []);
    hide Parse;
  }

  // ----- First contact by pull -----

  /**
   First contact by pull writes every remote file of a category with a mode, with its judged content,
   which for a file that is not JSON is the remote's own, and does nothing else.
   */
  lemma FirstPullWritesRemote(env: Env, remote: Snapshots, ref: FileRef)
    ensures var f := ViewOf(env, ref, EmptyBase(env, remote), [], remote);
            var a := Planned(env, ref, EmptyBase(env, remote), [], remote);
            && (a.Some? <==> ModeOf(env, ref, EmptyBase(env, remote), [], remote) != "" && f.remote.Some?)
            && (a.Some? ==> a.value in PlanFirstContact(env, [], remote, ContactPull) && a.value == PullWrite(ref, f.remote.value.content)
                            && f.remote == StripSide(env, KeysAt(env, ref), f.rawRemote))
  {
    hide StripEntry, PlanPull, ExcludedKeys, Parse, ShapedBase, OmitPlaceholders, PlanMergedFile, ModeOf, FindCategory, Strip, PlanFile,
      LastAdapter, OrderedLike;
    var base := EmptyBase(env, remote);
    OrderKeepsCategories(ShapedBase(env, (id, n) => map[]), remote, ref.adapter, ref.category);
    var f := ViewOf(env, ref, base, [], remote);
    ShapedBaseHolds(env, (id, n) => map[], ref.adapter, ref.category);
    SideIsStripped(env, ref, base);
    SideIsStripped(env, ref, []);
    assert LastAdapter([], ref.adapter).None?;
    assert FindCategory(None, ref.category).None?;
    assert f.base.None? && f.local.None?;
    ViewIsJudged(env, ref, base, [], remote);
    var rawBase := EntryAt(FilesOf(FindCategory(LastAdapter(base, ref.adapter), ref.category)), ref.path);
    LoneRemoteIsWritten(env, ModeOf(env, ref, base, [], remote), ref, f, rawBase);
    var a := Planned(env, ref, base, [], remote);
    if a.Some? { PlanIsByFile(env, base, [], remote, a.value); }
  }

  lemma LoneRemoteIsWritten(env: Env, mode: string, ref: FileRef, f: FileView, rawBase: Option<Entry>)
    requires Judges(env, KeysAt(env, ref), f, rawBase) && f.base.None? && f.local.None?
    ensures PlanFile(env, mode, ref, f).Some? <==> f.remote.Some?
    ensures PlanFile(env, mode, ref, f).Some? ==> PlanFile(env, mode, ref, f).value == PullWrite(ref, f.remote.value.content)
  {
    hide Parse, OmitPlaceholders, PlanMergedFile, StripEntry, NotMergeable, DiffJSON;
    if f.remote.Some? && mode != MIRROR && !NotMergeable(env.round, f.remote) {
      OmittingIsIdle(env, KeysAt(env, ref), f.rawRemote.value);
    }
  }
}
