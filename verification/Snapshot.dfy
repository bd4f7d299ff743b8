/**
 Adapter snapshots, the configuration that names excluded keys, and the judgement copy of a
 snapshot from which those keys have been stripped.
 */
module Snapshot {
  import opened JsonValue
  import opened Keys
  import opened JsonNumber
  import opened JsonText

  datatype Option<+T> = None | Some(value: T)

  datatype Kind = Json | File

  datatype Entry = Entry(kind: Kind, content: string)

  type Files = map<string, Entry>

  datatype Category = Category(name: string, mode: string, files: Files)

  datatype Adapter = Adapter(id: string, categories: seq<Category>)

  type Snapshots = seq<Adapter>

  const MIRROR := "mirror"
  const MERGE := "merge"

  datatype CategoryConfig = CategoryConfig(enabled: bool, mode: string, excludeKeys: seq<string>)

  datatype AdapterConfig = AdapterConfig(enabled: bool, categories: map<string, CategoryConfig>)

  // What a run of the planner is given besides the snapshots: how the platform reads decimals, and
  // the configuration.
  datatype Env = Env(round: Rounding, config: map<string, AdapterConfig>)

  function ExcludedKeys(env: Env, adapter: string, category: string): seq<string> {
    if adapter in env.config && category in env.config[adapter].categories
    then env.config[adapter].categories[category].excludeKeys
    else []
  }

  // ----- Lookup -----

  function EntryAt(files: Files, path: string): Option<Entry> {
    if path in files then Some(files[path]) else None
  }

  function FindCategory(adapter: Option<Adapter>, name: string): (r: Option<Category>)
    ensures r.Some? ==> adapter.Some? && r.value in adapter.value.categories && r.value.name == name
    decreases if adapter.Some? then |adapter.value.categories| else 0
  {
    if adapter.None? || adapter.value.categories == [] then None
    else if adapter.value.categories[0].name == name then Some(adapter.value.categories[0])
    else FindCategory(Some(Adapter(adapter.value.id, adapter.value.categories[1..])), name)
  }

  // The drift engine takes the first adapter of an ID...
  function FirstAdapter(s: Snapshots, id: string): (r: Option<Adapter>)
    ensures r.Some? ==> r.value in s && r.value.id == id
    ensures r.None? <==> forall a :: a in s ==> a.id != id
  {
    if s == [] then None
    else if s[0].id == id then Some(s[0])
    else FirstAdapter(s[1..], id)
  }

  // ...while the planner indexes by ID, so the last one wins.
  function LastAdapter(s: Snapshots, id: string): (r: Option<Adapter>)
    ensures r.Some? ==> r.value in s && r.value.id == id
    ensures r.None? <==> forall a :: a in s ==> a.id != id
  {
    if s == [] then None
    else if s[|s| - 1].id == id then Some(s[|s| - 1])
    else LastAdapter(s[..|s| - 1], id)
  }

  /** The drift engine sees the first adapter of an ID... */
  lemma {:induction false} FirstAdapterWins(s: Snapshots, i: nat)
    requires i < |s| && forall j :: 0 <= j < i ==> s[j].id != s[i].id
    ensures FirstAdapter(s, s[i].id) == Some(s[i])
  {
    if i > 0 { FirstAdapterWins(s[1..], i - 1); }
  }

  /** ...the planner the last one... */
  lemma {:induction false} LastAdapterWins(s: Snapshots, i: nat)
    requires i < |s| && forall j :: i < j < |s| ==> s[j].id != s[i].id
    ensures LastAdapter(s, s[i].id) == Some(s[i])
  {
    if i < |s| - 1 { LastAdapterWins(s[..|s| - 1], i); }
  }

  /** ...and both of them the first category of a name. */
  lemma {:induction false} FirstCategoryWins(a: Adapter, i: nat)
    requires i < |a.categories| && forall j :: 0 <= j < i ==> a.categories[j].name != a.categories[i].name
    ensures FindCategory(Some(a), a.categories[i].name) == Some(a.categories[i])
    decreases i
  {
    if i > 0 { FirstCategoryWins(Adapter(a.id, a.categories[1..]), i - 1); }
  }

  predicate UniqueIDs(s: Snapshots) {
    forall i, j :: 0 <= i < j < |s| ==> s[i].id != s[j].id
  }

  lemma {:induction false} FirstIsLast(s: Snapshots, id: string)
    requires UniqueIDs(s)
    ensures FirstAdapter(s, id) == LastAdapter(s, id)
  {
    var first, last := FirstAdapter(s, id), LastAdapter(s, id);
    if first.Some? {
      assert exists a :: a in s && a.id == id;
      var i :| 0 <= i < |s| && s[i] == first.value;
      var j :| 0 <= j < |s| && s[j] == last.value;
      assert i == j;
    }
  }

  /** Two entries of a file differ in presence or in text. */
  predicate TextsDiffer(x: Option<Entry>, y: Option<Entry>) {
    x.Some? != y.Some? || (x.Some? && x.value.content != y.value.content)
  }

  function FilesOf(c: Option<Category>): Files { if c.Some? then c.value.files else map[] }

  function IDs(s: Snapshots): (r: seq<string>)
    ensures forall id :: id in r <==> exists a :: a in s && a.id == id
  {
    if s == [] then [] else [s[0].id] + IDs(s[1..])
  }

  function UnionIDs(base: Snapshots, local: Snapshots, remote: Snapshots): seq<string> {
    AppendNew([], IDs(base) + IDs(local) + IDs(remote))
  }

  function Names(a: Option<Adapter>): (r: seq<string>)
    ensures forall n :: n in r <==> FindCategory(a, n).Some?
    decreases if a.Some? then |a.value.categories| else 0
  {
    if a.None? || a.value.categories == [] then []
    else [a.value.categories[0].name] + Names(Some(Adapter(a.value.id, a.value.categories[1..])))
  }

  function UnionNames(base: Option<Adapter>, local: Option<Adapter>, remote: Option<Adapter>): seq<string> {
    AppendNew([], Names(base) + Names(local) + Names(remote))
  }

  function UnionPaths(base: Files, local: Files, remote: Files): (r: seq<string>)
    ensures forall p :: p in r <==> p in base || p in local || p in remote
  {
    Sorted(base.Keys + local.Keys + remote.Keys)
  }

  // ----- Stripping -----

  /** Removes the named members of the root object; anything else is copied. */
  function StripTopKeys(v: Value, keys: seq<string>): Value {
    if !v.Obj? then v
    else
      var kept := map k | k in v.m && k !in keys :: v.m[k];
      Obj(Filter(ObjectKeys(v), kept.Keys), kept)
  }

  function StripEntry(env: Env, keys: seq<string>, e: Entry): Entry {
    if keys != [] && e.kind == Json && Parse(env.round, e.content).Parsed? then
      Entry(Json, CompactSerialize(StripTopKeys(Parse(env.round, e.content).value, keys)))
    else e
  }

  function StripCategory(env: Env, adapter: string, c: Category): Category {
    var keys := ExcludedKeys(env, adapter, c.name);
    Category(c.name, c.mode, map p | p in c.files :: StripEntry(env, keys, c.files[p]))
  }

  function StripAdapter(env: Env, a: Adapter): Adapter {
    Adapter(a.id, seq(|a.categories|, i requires 0 <= i < |a.categories| => StripCategory(env, a.id, a.categories[i])))
  }

  function Strip(env: Env, s: Snapshots): Snapshots {
    seq(|s|, i requires 0 <= i < |s| => StripAdapter(env, s[i]))
  }

  // ----- Stripping commutes with lookup -----

  lemma {:induction false} StripFindsCategory(env: Env, a: Adapter, name: string)
    ensures FindCategory(Some(StripAdapter(env, a)), name) ==
            match FindCategory(Some(a), name)
            case None => None
            case Some(c) => Some(StripCategory(env, a.id, c))
    decreases |a.categories|
  {
    if a.categories != [] {
      var rest := Adapter(a.id, a.categories[1..]);
      assert StripAdapter(env, rest).categories == StripAdapter(env, a).categories[1..];
      StripFindsCategory(env, rest, name);
    }
  }

  lemma {:induction false} StripFindsLast(env: Env, s: Snapshots, id: string)
    ensures LastAdapter(Strip(env, s), id) ==
            match LastAdapter(s, id)
            case None => None
            case Some(a) => Some(StripAdapter(env, a))
    decreases |s|
  {
    if s != [] {
      assert Strip(env, s)[..|s| - 1] == Strip(env, s[..|s| - 1]);
      StripFindsLast(env, s[..|s| - 1], id);
    }
  }

  lemma StripKeepsIDs(env: Env, s: Snapshots)
    requires UniqueIDs(s)
    ensures UniqueIDs(Strip(env, s))
  {
  }
}
