/** Inputs on which a pull erases a value that only local holds, under an excluded key. */
module ExcludedKeyWitnesses {
  import opened JsonValue
  import opened Keys
  import opened JsonString
  import opened JsonText
  import opened JsonLaws
  import opened Diff
  import opened Snapshot
  import opened Plan
  import opened FileLaws
  import opened GateLaws
  import opened FirstContact
  import opened GateWitnesses
  import opened ExcludedKeyLaws

  const SECRET := Obj(["k"], map["k" := Str("s")])
  const LOCAL := Entry(Json, Serialize(SECRET))
  const OTHER := Entry(Json, Serialize(HOLDS_Y))

  // A snapshot holding one file of one category.
  function One(mode: string, e: Entry): Snapshots { [Adapter("a", [Category("c", mode, map["f" := e])])] }

  predicate ExcludesK(env: Env) { ExcludedKeys(env, "a", "c") == ["k"] }

  lemma OneSide(env: Env, mode: string, e: Entry)
    requires ExcludesK(env)
    ensures FindCategory(LastAdapter(One(mode, e), "a"), "c") == Some(Category("c", mode, map["f" := e]))
    ensures var c := FindCategory(LastAdapter(Strip(env, One(mode, e)), "a"), "c");
            c.Some? && c.value.mode == mode && EntryAt(c.value.files, "f") == Some(StripEntry(env, ["k"], e))
  {
    hide StripEntry;
    var s := One(mode, e);
    StripFindsLast(env, s, "a");
    assert s[..0] == [];
    StripFindsCategory(env, s[0], "c");
  }

  lemma NoSide(env: Env)
    ensures FindCategory(LastAdapter([], "a"), "c") == None && FindCategory(LastAdapter(Strip(env, []), "a"), "c") == None
  {
  }

  // Judging leaves nothing of a file that holds its excluded key only.
  lemma SecretIsJudgedAway(env: Env)
    ensures StripEntry(env, ["k"], LOCAL) == EMPTY_OBJECT_ENTRY
    ensures Parse(env.round, LOCAL.content) == Parsed(Reparsed(SECRET))
    ensures Reparsed(SECRET).Obj? && "k" in Reparsed(SECRET).m && Reparsed(SECRET).m["k"] == Str("s")
  {
    hide Parse, Serialize, CompactSerialize, PropertyOrder, ObjectKeys;
    assert WellFormed("k") && WellFormed("s");
    SerializeReadsBack(env.round, SECRET);
    OnlyKey(Reparsed(SECRET));
    SqueezedEmptyObject();
  }

  lemma OnlyKey(v: Value)
    requires v.Obj? && v.m.Keys == {"k"}
    ensures StripTopKeys(v, ["k"]) == EMPTY_OBJECT
  {
    var kept := map x | x in v.m && x !in ["k"] :: v.m[x];
    assert kept == map[] && kept.Keys == {};
    NothingFilters(ObjectKeys(v));
  }

  lemma {:induction false} NothingFilters(keys: seq<string>)
    ensures Filter(keys, {}) == []
  {
    if keys != [] { NothingFilters(keys[1..]); }
  }

  lemma LocalHoldsSecret(env: Env, keys: seq<string>)
    requires "k" in keys
    ensures !HoldsNone(RawValue(env, Some(LOCAL)), keys)
  {
    hide Parse, Serialize, Reparsed;
    SecretIsJudgedAway(env);
    assert Holds(RawValue(env, Some(LOCAL)), keys, "k");
  }

  lemma EmptyFileIsDeleted(env: Env, f: FileView)
    requires f.base == Some(EMPTY_OBJECT_ENTRY) && f.local == Some(EMPTY_OBJECT_ENTRY) && f.remote == None
    ensures PlanFile(env, MERGE, REF, f) == Some(Action.PullDelete(REF))
  {
    hide Parse, DiffJSON, PlanMergedFile, OmitPlaceholders;
    EmptyObjectText(env, []);
    DiffKeysAreLabels(EMPTY_OBJECT, EMPTY_OBJECT);
  }

  /** Merge mode: remote dropped the file and local changed nothing but its secret, so the file is deleted with it. */
  lemma SecretIsDeleted(env: Env)
    requires ExcludesK(env)
    ensures var base, local := One(MERGE, EMPTY_OBJECT_ENTRY), One(MERGE, LOCAL);
            && Action.PullDelete(REF) in PlanPull(env, base, local, [])
            && !KeepsExcluded(env, ["k"], ViewOf(env, REF, base, local, []), Action.PullDelete(REF))
  {
    hide PlanPull, PlanFile, StripEntry, Parse, Serialize, FindCategory, LastAdapter, Strip, HoldsNone;
    var base, local := One(MERGE, EMPTY_OBJECT_ENTRY), One(MERGE, LOCAL);
    OneSide(env, MERGE, EMPTY_OBJECT_ENTRY);
    OneSide(env, MERGE, LOCAL);
    NoSide(env);
    EmptyObjectText(env, ["k"]);
    SecretIsJudgedAway(env);
    LocalHoldsSecret(env, ["k"]);
    EmptyFileIsDeleted(env, ViewOf(env, REF, base, local, []));
    PlanIsByFile(env, base, local, [], Action.PullDelete(REF));
  }

  lemma OtherIsNotEmpty(env: Env)
    ensures StripEntry(env, ["k"], OTHER).kind == Json && StripEntry(env, ["k"], OTHER).content != "{}"
  {
    hide Parse, Serialize, CompactSerialize, PropertyOrder, ObjectKeys, Encodable, StripTopKeys, Reparsed;
    SharedEncodable(env.round);
    assert Encodable(env.round, HOLDS_Y) by { YesIsEncodable(env); }
    SerializeReadsBack(env.round, HOLDS_Y);
    var v := Reparsed(HOLDS_Y);
    OnlyObjectsStayObjects(HOLDS_Y);
    ReparsedChild(Present(HOLDS_Y), "y");
    JudgedMembers(v, ["k"], "y");
    DocumentIsEncodable(env.round, OTHER.content);
    StripKeepsEncodable(env.round, v, ["k"]);
    CompactReadsBack(env.round, StripTopKeys(v, ["k"]));
    EmptyObjectText(env, ["k"]);
  }

  lemma YesIsEncodable(env: Env)
    ensures Encodable(env.round, HOLDS_Y)
  {
    assert WellFormed("y");
  }

  /** Mirror mode: remote's new text takes the place of the file, and local's secret is gone. */
  lemma SecretIsOverwritten(env: Env)
    requires ExcludesK(env)
    ensures var base, local, remote := One(MIRROR, EMPTY_OBJECT_ENTRY), One(MIRROR, LOCAL), One(MIRROR, OTHER);
            var a := PullWrite(REF, StripEntry(env, ["k"], OTHER).content);
            && a in PlanPull(env, base, local, remote)
            && !KeepsExcluded(env, ["k"], ViewOf(env, REF, base, local, remote), a)
  {
    hide PlanPull, StripEntry, Parse, Serialize, FindCategory, LastAdapter, Strip, HoldsNone, Stands, TextSlot, Reparsed;
    var base, local, remote := One(MIRROR, EMPTY_OBJECT_ENTRY), One(MIRROR, LOCAL), One(MIRROR, OTHER);
    var a := PullWrite(REF, StripEntry(env, ["k"], OTHER).content);
    OneSide(env, MIRROR, EMPTY_OBJECT_ENTRY);
    OneSide(env, MIRROR, LOCAL);
    OneSide(env, MIRROR, OTHER);
    EmptyObjectText(env, ["k"]);
    SecretIsJudgedAway(env);
    LocalHoldsSecret(env, ["k"]);
    OtherIsNotEmpty(env);
    PlanIsByFile(env, base, local, remote, a);
    PullKeepsExcludedIff(env, base, local, remote, a);
  }
}
