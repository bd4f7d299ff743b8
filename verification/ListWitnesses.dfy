/** Inputs for which an ok verdict of the push gate lists the wrong files. */
module ListWitnesses {
  import opened JsonValue
  import opened JsonNumber
  import opened JsonString
  import opened JsonText
  import opened JsonLaws
  import opened Diff
  import opened Snapshot
  import opened Drift
  import opened Plan
  import opened FileLaws
  import opened GateLaws
  import opened SyncTheorems
  import opened ChangedFiles
  import opened GateWitnesses

  // ----- Two paths, one going on from the other with a colon -----

  const HOLDS_COLON := Obj(["b:c"], map["b:c" := YES])
  const OTHER_REF := FileRef("a", "c", "f:b")

  function TwoFiles(v: Value): Snapshots {
    [Adapter("a", [Category("c", MERGE, map["f" := View(v), "f:b" := View(EMPTY_OBJECT)])])]
  }

  lemma TwoFilesCategory(env: Env, v: Value)
    requires env.config == map[]
    ensures var s := TwoFiles(v);
            Strip(env, s) == s && FindCategory(FirstAdapter(s, "a"), "c") == Some(s[0].categories[0])
    ensures PathsIn(TwoFiles(v), "a", "c") == {"f", "f:b"}
  {
    hide Parse, Serialize;
    var s := TwoFiles(v);
    assert StripCategory(env, "a", s[0].categories[0]) == s[0].categories[0];
    assert StripAdapter(env, s[0]).categories == s[0].categories;
    var files := s[0].categories[0].files;
    assert files.Keys == {"f", "f:b"};
    forall p ensures p in PathsIn(s, "a", "c") <==> p in files {
      if p in files { assert s[0] in s && s[0].categories[0] in s[0].categories; }
    }
  }

  lemma ColonOwner()
    ensures Owner("f:b:c", {"f", "f:b"}) == Some("f:b")
  {
    var key := "f:b:c";
    OwnerWithinIs(key, {"f", "f:b"}, |key|);
    assert "f:b" + ":" == "f:b:" && key[..4] == "f:b:";
  }

  lemma ColonDiffers()
    ensures Differs(Read(EMPTY_OBJECT), Read(HOLDS_COLON), ["b:c"]) && Label(["b:c"]) == "b:c"
  {
    hide Reparsed;
    ReadShapes();
    OneMemberRead("b:c", YES, "b:c");
    ReparsedChild(Present(EMPTY_OBJECT), "b:c");
    Unequal(Read(HOLDS_COLON), Read(EMPTY_OBJECT), "b:c");
    Unequal(Read(EMPTY_OBJECT), Read(HOLDS_COLON), "b:c");
    DiffOfObjects(Read(EMPTY_OBJECT), Read(HOLDS_COLON), ["b:c"]);
    var p: Path := ["b:c"];
    assert p[1..] == [] && p[..0] == [];
  }

  lemma ColonKey(env: Env)
    ensures "f:b:c" in MergeFile(env.round, "f", Some(View(EMPTY_OBJECT)), Some(View(HOLDS_COLON)), Some(View(EMPTY_OBJECT))).changedKeys
  {
    hide Parse, Serialize, Encodable, Reparsed, Degraded, ValueOf, DiffJSON, RemoteSide, Differs, Label;
    ColonEncodable(env.round);
    ViewReads(env, EMPTY_OBJECT);
    ViewReads(env, HOLDS_COLON);
    ColonDiffers();
    var b, l := Read(EMPTY_OBJECT).v, Read(HOLDS_COLON).v;
    DiffKeysAreLabels(b, l);
    assert Differs(Present(b), Present(l), ["b:c"]);
    assert "b:c" in DiffJSON(b, l).keys;
    var i :| 0 <= i < |DiffJSON(b, l).keys| && DiffJSON(b, l).keys[i] == "b:c";
    assert "f" + ":" + "b:c" == "f:b:c";
    assert Prefixed("f", DiffJSON(b, l).keys)[i] == "f:b:c";
    RemoteSidePulls(env.round, "f", Some(View(EMPTY_OBJECT)), Some(View(HOLDS_COLON)), Some(View(EMPTY_OBJECT)), DiffJSON(b, l).keys);
  }

  // The document changed at that one key only, so the file has no other changed key.
  lemma OnlyColonKey(env: Env, k: string)
    requires k in MergeFile(env.round, "f", Some(View(EMPTY_OBJECT)), Some(View(HOLDS_COLON)), Some(View(EMPTY_OBJECT))).changedKeys
    ensures k == "f:b:c"
  {
    hide Parse, Serialize, Encodable, Reparsed, Degraded, ValueOf, DiffJSON, RemoteSide, Label, Differs;
    ColonEncodable(env.round);
    ViewReads(env, EMPTY_OBJECT);
    ViewReads(env, HOLDS_COLON);
    var b, l := Read(EMPTY_OBJECT).v, Read(HOLDS_COLON).v;
    RemoteSidePulls(env.round, "f", Some(View(EMPTY_OBJECT)), Some(View(HOLDS_COLON)), Some(View(EMPTY_OBJECT)), DiffJSON(b, l).keys);
    var i :| 0 <= i < |DiffJSON(b, l).keys| && Prefixed("f", DiffJSON(b, l).keys)[i] == k;
    DiffKeysAreLabels(b, l);
    assert DiffJSON(b, l).keys[i] in DiffJSON(b, l).keys;
    var p :| Differs(Present(b), Present(l), p) && Label(p) == DiffJSON(b, l).keys[i];
    OnlyColonDiffers(p);
    assert "f" + ":" + "b:c" == "f:b:c";
  }

  lemma OnlyColonDiffers(p: Path)
    requires Differs(Read(EMPTY_OBJECT), Read(HOLDS_COLON), p)
    ensures Label(p) == "b:c"
  {
    hide Reparsed;
    ReadShapes();
    DiffOfObjects(Read(EMPTY_OBJECT), Read(HOLDS_COLON), p);
    OneMemberRead("b:c", YES, p[0]);
    ReparsedChild(Present(EMPTY_OBJECT), p[0]);
    assert p[1..] == [] ==> p == [p[0]];
    assert p[..0] == [];
  }

  lemma ColonEncodable(round: Rounding)
    ensures Encodable(round, EMPTY_OBJECT) && Encodable(round, HOLDS_COLON)
  {
    assert WellFormed("b:c");
  }

  // With remote at base the verdict is ok, and a credited file is listed.
  lemma CreditedIsListed(env: Env, base: Snapshots, local: Snapshots, ref: FileRef, p: string, k: string)
    requires KeyCredited(env, ref, base, local, base, p, k)
    ensures CheckPushSafety(env, base, local, base).PushOk?
    ensures ref in CheckPushSafety(env, base, local, base).files
  {
    hide CheckPushSafety, KeyCredited, PushesWhole, GateTally;
    RemoteAtBaseIsSafe(env, base, local);
    OkFilesAreCredited(env, base, local, base, ref);
  }

  // A file whose changed keys all go to longer paths, and that takes none over, is not listed.
  lemma LoserIsUnlisted(env: Env, base: Snapshots, local: Snapshots, ref: FileRef)
    requires LosesItsKeys(env, ref, base, local, base) && !TakesSomeKey(env, ref, base, local, base)
    ensures CheckPushSafety(env, base, local, base).PushOk?
    ensures ref !in CheckPushSafety(env, base, local, base).files && LocalMoved(env, ref, base, local, base)
  {
    hide CheckPushSafety, KeepsKey, TakesSomeKey, PushesWhole, GateTally, LocalMoved;
    RemoteAtBaseIsSafe(env, base, local);
    OkListIsRightIff(env, base, local, base, ref);
    GateTallyPushes(env, ref, base, local, base);
  }

  /**
   With a colon in a path, an ok verdict can list a file that local has not touched, and leave out the
   one that it has.
   */
  lemma ColonMisleads(env: Env)
    requires env.config == map[]
    ensures var base, local := TwoFiles(EMPTY_OBJECT), TwoFiles(HOLDS_COLON);
            var check := CheckPushSafety(env, base, local, base);
            && check.PushOk? && OTHER_REF in check.files && !LocalMoved(env, OTHER_REF, base, local, base)
            && REF !in check.files && LocalMoved(env, REF, base, local, base)
  {
    hide CheckPushSafety, KeyCredited, LocalMoved, TwoFiles, LosesItsKeys, TakesSomeKey;
    ColonCredits(env);
    CreditedIsListed(env, TwoFiles(EMPTY_OBJECT), TwoFiles(HOLDS_COLON), OTHER_REF, "f", "f:b:c");
    OtherFileStays(env);
    ColonLoses(env);
    LoserIsUnlisted(env, TwoFiles(EMPTY_OBJECT), TwoFiles(HOLDS_COLON), REF);
  }

  lemma ColonTally(env: Env)
    requires env.config == map[]
    ensures GateTally(env, REF, TwoFiles(EMPTY_OBJECT), TwoFiles(HOLDS_COLON), TwoFiles(EMPTY_OBJECT))
            == MergeFile(env.round, "f", Some(View(EMPTY_OBJECT)), Some(View(HOLDS_COLON)), Some(View(EMPTY_OBJECT)))
    ensures KnownAt(env, REF, TwoFiles(EMPTY_OBJECT), TwoFiles(HOLDS_COLON), TwoFiles(EMPTY_OBJECT)) == {"f", "f:b"}
  {
    hide MergeFile, Serialize, Parse, Strip, FirstAdapter, FindCategory, PathsIn;
    TwoFilesCategory(env, EMPTY_OBJECT);
    TwoFilesCategory(env, HOLDS_COLON);
    assert {"f", "f:b"} + {"f", "f:b"} + {"f", "f:b"} == {"f", "f:b"};
  }

  lemma ColonCredits(env: Env)
    requires env.config == map[]
    ensures KeyCredited(env, OTHER_REF, TwoFiles(EMPTY_OBJECT), TwoFiles(HOLDS_COLON), TwoFiles(EMPTY_OBJECT), "f", "f:b:c")
  {
    hide MergeFile, GateTally, TwoFiles, KnownPaths, Owner;
    ColonTally(env);
    ColonKey(env);
    ColonOwner();
    assert OTHER_REF.(path := "f") == REF;
  }

  lemma ColonLoses(env: Env)
    requires env.config == map[]
    ensures LosesItsKeys(env, REF, TwoFiles(EMPTY_OBJECT), TwoFiles(HOLDS_COLON), TwoFiles(EMPTY_OBJECT))
    ensures !TakesSomeKey(env, REF, TwoFiles(EMPTY_OBJECT), TwoFiles(HOLDS_COLON), TwoFiles(EMPTY_OBJECT))
  {
    hide MergeFile, GateTally, TwoFiles, KnownPaths;
    ColonTally(env);
    ColonKey(env);
    assert "f:b" + ":" == "f:b:" && "f:b:c"[..4] == "f:b:";
    assert TakesOver({"f", "f:b"}, "f:b", "f", "f:b:c") by { assert "f" + ":" == "f:b"[..2]; }
    forall k | k in GateTally(env, REF, TwoFiles(EMPTY_OBJECT), TwoFiles(HOLDS_COLON), TwoFiles(EMPTY_OBJECT)).changedKeys
      ensures TakenOver({"f", "f:b"}, "f", k)
    {
      OnlyColonKey(env, k);
    }
    forall p: string, k: string ensures !TakesOver({"f", "f:b"}, "f", p, k) {
      assert (p + ":")[|p|] == ':';
    }
  }

  lemma OtherFileStays(env: Env)
    requires env.config == map[]
    ensures !LocalMoved(env, OTHER_REF, TwoFiles(EMPTY_OBJECT), TwoFiles(HOLDS_COLON), TwoFiles(EMPTY_OBJECT))
  {
    hide Serialize, Parse, Strip, FirstAdapter, FindCategory, Degraded, ValueOf;
    TwoFilesCategory(env, EMPTY_OBJECT);
    TwoFilesCategory(env, HOLDS_COLON);
    DeepEqualReflexive(ValueOf(env.round, Some(View(EMPTY_OBJECT))));
  }

  // ----- Texts that differ and values that do not -----

  function Keeping(e: Option<Entry>): Snapshots {
    [Adapter("a", [Category("c", MERGE, if e.Some? then map["f" := e.value] else map[])])]
  }

  lemma KeepingCategory(env: Env, e: Option<Entry>)
    requires env.config == map[]
    ensures var s := Keeping(e);
            Strip(env, s) == s && FindCategory(FirstAdapter(s, "a"), "c") == Some(s[0].categories[0])
    ensures forall p :: p in PathsIn(Keeping(e), "a", "c") ==> p == "f"
  {
    hide Parse;
    var s := Keeping(e);
    assert StripCategory(env, "a", s[0].categories[0]) == s[0].categories[0];
    assert StripAdapter(env, s[0]).categories == s[0].categories;
  }

  lemma KeepingKnown(env: Env, b: Option<Entry>, l: Option<Entry>)
    requires env.config == map[]
    ensures ColonFree(KnownAt(env, REF, Keeping(b), Keeping(l), Keeping(b)))
    ensures EntriesAt(env, REF, Keeping(b), Keeping(l), Keeping(b)) == (b, l, b)
    ensures GateMode(env, REF, Keeping(b), Keeping(l), Keeping(b)) == MERGE
  {
    hide Strip, FirstAdapter, FindCategory, PathsIn;
    KeepingCategory(env, b);
    KeepingCategory(env, l);
    assert !("f" + ":" <= "f");
  }

  lemma SameValueIsUnlisted(env: Env, b: Entry, l: Option<Entry>)
    requires env.config == map[] && !Degraded(env.round, Some(b)) && !Degraded(env.round, l)
    requires DeepEqual(ValueOf(env.round, Some(b)), ValueOf(env.round, l))
    ensures CheckPushSafety(env, Keeping(Some(b)), Keeping(l), Keeping(Some(b))).PushOk?
    ensures REF !in CheckPushSafety(env, Keeping(Some(b)), Keeping(l), Keeping(Some(b))).files
  {
    hide CheckPushSafety, Keeping, Strip, Degraded, ValueOf, DriftSides, ColonFree, KnownAt;
    var base, local := Keeping(Some(b)), Keeping(l);
    RemoteAtBaseIsSafe(env, base, local);
    KeepingKnown(env, Some(b), l);
    OkListsWhatLocalChanged(env, base, local, base, REF);
  }

  const BRACES := Entry(Json, "{}")
  const SPACED := Entry(Json, " {}")

  lemma BracesRead(env: Env)
    ensures !Degraded(env.round, None) && ValueOf(env.round, None) == EMPTY_OBJECT
    ensures !Degraded(env.round, Some(BRACES)) && ValueOf(env.round, Some(BRACES)) == EMPTY_OBJECT
    ensures !Degraded(env.round, Some(SPACED)) && ValueOf(env.round, Some(SPACED)) == EMPTY_OBJECT
  {
    EmptyObjectReads(env.round, "");
    assert "{}" + "" == "{}" && " {}"[1..] == "{}";
    assert SkipSpace("{}") == "{}" && SkipSpace(" {}") == "{}";
  }

  /** A file that is the empty object, removed or rewritten with a blank, is changed text but not listed. */
  lemma TextChangeIsUnlisted(env: Env, l: Option<Entry>)
    requires env.config == map[] && (l == None || l == Some(SPACED))
    ensures var base, local := Keeping(Some(BRACES)), Keeping(l);
            var check := CheckPushSafety(env, base, local, base);
            && EntriesAt(env, REF, base, local, base) == (Some(BRACES), l, Some(BRACES)) && TextsDiffer(Some(BRACES), l)
            && check.PushOk? && REF !in check.files
  {
    hide CheckPushSafety, Keeping, Degraded, ValueOf, DriftSides, EntriesAt;
    BracesRead(env);
    DeepEqualReflexive(EMPTY_OBJECT);
    KeepingKnown(env, Some(BRACES), l);
    SameValueIsUnlisted(env, BRACES, l);
  }
}
