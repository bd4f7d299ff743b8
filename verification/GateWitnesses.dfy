/** Inputs for which the push gate and the pull plan part ways. */
module GateWitnesses {
  import opened JsonValue
  import opened JsonNumber
  import opened JsonString
  import opened JsonText
  import opened JsonLaws
  import opened Merge
  import opened Diff
  import opened MergeLaws
  import opened Snapshot
  import opened Drift
  import opened Plan
  import opened FileLaws
  import opened FileGate
  import opened GateLaws
  import opened SyncTheorems

  // A snapshot holding one JSON file of one merge category.
  function OneFile(v: Value): Snapshots {
    [Adapter("a", [Category("c", MERGE, map["f" := Entry(Json, Serialize(v))])])]
  }

  const REF := FileRef("a", "c", "f")

  function View(v: Value): Entry { Entry(Json, Serialize(v)) }

  function ViewOfThree(b: Value, l: Value, r: Value): FileView {
    FileView(Some(View(b)), Some(View(l)), Some(View(r)), Some(View(l)), Some(View(r)))
  }

  lemma OneFileView(env: Env, ref: FileRef, b: Value, l: Value, r: Value)
    requires env.config == map[]
    ensures ref == REF ==> ViewOf(env, ref, OneFile(b), OneFile(l), OneFile(r)) == ViewOfThree(b, l, r)
                           && ModeOf(env, ref, OneFile(b), OneFile(l), OneFile(r)) == MERGE
    ensures ref != REF ==> ViewOf(env, ref, OneFile(b), OneFile(l), OneFile(r)) == FileView(None, None, None, None, None)
  {
    hide Serialize;
    OneFileSide(env, ref, b);
    OneFileSide(env, ref, l);
    OneFileSide(env, ref, r);
  }

  lemma OneFileSide(env: Env, ref: FileRef, v: Value)
    requires env.config == map[]
    ensures var c := FindCategory(LastAdapter(OneFile(v), ref.adapter), ref.category);
            && (c.Some? <==> ref.adapter == "a" && ref.category == "c")
            && (c.Some? ==> c.value.mode == MERGE)
            && EntryAt(FilesOf(c), ref.path) == if ref == REF then Some(View(v)) else None
    ensures var c := FindCategory(LastAdapter(Strip(env, OneFile(v)), ref.adapter), ref.category);
            && (c.Some? <==> ref.adapter == "a" && ref.category == "c")
            && (c.Some? ==> c.value.mode == MERGE)
            && EntryAt(FilesOf(c), ref.path) == if ref == REF then Some(View(v)) else None
  {
    hide Serialize, StripEntry;
    StripFindsLast(env, OneFile(v), ref.adapter);
    var a := LastAdapter(OneFile(v), ref.adapter);
    assert OneFile(v)[..0] == [];
    if a.Some? {
      StripFindsCategory(env, a.value, ref.category);
      SideIsStripped(env, ref, OneFile(v));
      NoKeysNoStrip(env, View(v));
    }
  }

  lemma NoKeysNoStrip(env: Env, e: Entry)
    ensures StripEntry(env, [], e) == e
  {
  }

  function Read(v: Value): Slot { Present(Reparsed(v)) }

  lemma ViewReads(env: Env, v: Value)
    requires Encodable(env.round, v) && v.Obj?
    ensures !Degraded(env.round, Some(View(v))) && !NotMergeable(env.round, Some(View(v)))
    ensures ValueOf(env.round, Some(View(v))) == Reparsed(v) && Read(v).IsObject()
  {
    hide Parse, Serialize, Encodable, PropertyOrder, ObjectKeys;
    SerializeReadsBack(env.round, v);
  }

  /** For one JSON file the gate is ok exactly when the merge is clean and every remote label is a local one. */
  lemma OneFileGate(env: Env, b: Value, l: Value, r: Value)
    requires env.config == map[] && b.Obj? && l.Obj? && r.Obj?
    requires Encodable(env.round, b) && Encodable(env.round, l) && Encodable(env.round, r)
    ensures CheckPushSafety(env, OneFile(b), OneFile(l), OneFile(r)).PushOk? <==>
            CleanMerge(Read(b), Read(l), Read(r)) && LabelsLocal(Read(b), Read(l), Read(r))
  {
    hide Total, ComputeDrift, Strip, MergeFile, OneFile, CleanMerge, LabelsLocal, Encodable, PlanPull, RemoteDrivenFiles, ConflictsOf;
    OneFileTotal(env, b, l, r, Pulls);
    OneFileTotal(env, b, l, r, Clashes);
    OneFileCounts(env, b, l, r);
  }

  lemma OneFileTotal(env: Env, b: Value, l: Value, r: Value, c: Counter)
    requires env.config == map[] && !c.Pushed?
    ensures Total(ComputeDrift(env.round, Strip(env, OneFile(b)), Strip(env, OneFile(l)), Some(Strip(env, OneFile(r)))), c) == 0 <==>
            Count(MergeFile(env.round, "f", Some(View(b)), Some(View(l)), Some(View(r))), c) == 0
  {
    hide MergeFile, ComputeDrift, Total, Strip, OneFile, View, GateTally;
    TotalsOfGate(env, OneFile(b), OneFile(l), OneFile(r), c);
    forall ref ensures ref != REF ==> Count(GateTally(env, ref, OneFile(b), OneFile(l), OneFile(r)), c) == 0 { OneFileTally(env, ref, b, l, r); }
    OneFileTally(env, REF, b, l, r);
  }

  lemma OneFileCounts(env: Env, b: Value, l: Value, r: Value)
    requires b.Obj? && l.Obj? && r.Obj?
    requires Encodable(env.round, b) && Encodable(env.round, l) && Encodable(env.round, r)
    ensures var t := MergeFile(env.round, "f", Some(View(b)), Some(View(l)), Some(View(r)));
            && (t.conflicts == 0 <==> CleanMerge(Read(b), Read(l), Read(r)))
            && (t.pull == 0 <==> LabelsLocal(Read(b), Read(l), Read(r)))
  {
    hide Parse, Serialize, Encodable, Reparsed, MergeSlot, MergeFile, Degraded, ValueOf, CleanMerge, LabelsLocal;
    ViewReads(env, b);
    ViewReads(env, l);
    ViewReads(env, r);
    CompleteFileCounts(env, "f", ViewOfThree(b, l, r));
    CleanIffNoConflicts([], Read(b), Read(l), Read(r));
  }

  lemma OneFileTally(env: Env, ref: FileRef, b: Value, l: Value, r: Value)
    requires env.config == map[]
    ensures var t := GateTally(env, ref, OneFile(b), OneFile(l), OneFile(r));
            if ref == REF then t == MergeFile(env.round, "f", Some(View(b)), Some(View(l)), Some(View(r)))
            else t.pull == 0 && t.conflicts == 0
  {
    hide Parse, Serialize, OneFile, ModeOf, ViewOf, GateTally, MergeFile, ModesLead, Unambiguous;
    OneFileView(env, ref, b, l, r);
    OneFileUnambiguous(b, l, r);
    GateTallyIsTally(env, ref, OneFile(b), OneFile(l), OneFile(r));
    OneFileModes(env, b, l, r);
    MissingFile(env, ModeOf(env, ref, OneFile(b), OneFile(l), OneFile(r)), ref.path);
  }

  lemma MissingFile(env: Env, mode: string, path: string)
    ensures TallyOf(env, mode, path, FileView(None, None, None, None, None)).pull == 0
    ensures TallyOf(env, mode, path, FileView(None, None, None, None, None)).conflicts == 0
  {
  }

  lemma OneFileModes(env: Env, b: Value, l: Value, r: Value)
    requires env.config == map[]
    ensures ModesLead(env, OneFile(b), OneFile(l), OneFile(r))
  {
    hide Serialize, StripEntry, FindCategory, LastAdapter, Strip;
    forall ref | ModeOf(env, ref, OneFile(b), OneFile(l), OneFile(r)) == ""
      ensures var s := SidesOf(env, ref, OneFile(b), OneFile(l), OneFile(r)); DriftMode(s.local, s.base, s.remote) == ""
    {
      OneFileSide(env, ref, b);
      OneFileSide(env, ref, l);
      OneFileSide(env, ref, r);
    }
  }

  const YES := Bool(true)
  const HOLDS_X := Obj(["x"], map["x" := YES])
  const HOLDS_Y := Obj(["y"], map["y" := YES])

  /**
   Both sides add an object under the same key. Remote's change is labelled like local's, so the
   gate counts nothing and lets the push through, yet the plan merges remote's member into local's file.
   */
  lemma SharedAdditionSlipsThrough(env: Env)
    requires env.config == map[]
    ensures var b, l, r := OneFile(EMPTY_OBJECT), OneFile(Obj(["a"], map["a" := HOLDS_X])), OneFile(Obj(["a"], map["a" := HOLDS_Y]));
            CheckPushSafety(env, b, l, r).PushOk? && PlanPull(env, b, l, r) != []
  {
    hide Parse, Serialize, PlanPull, CheckPushSafety, GateHolds, ModeOf, ViewOf, Reparsed, Encodable, OneFile, SharedShape, CleanMerge, LabelsLocal;
    var b, l, r := EMPTY_OBJECT, Obj(["a"], map["a" := HOLDS_X]), Obj(["a"], map["a" := HOLDS_Y]);
    SharedSlots();
    SharedEncodable(env.round);
    SharedIsClean(Read(b), Read(l), Read(r));
    OneFileGate(env, b, l, r);
    OneFileUnambiguous(b, l, r);
    OkMeansQuietIff(env, OneFile(b), OneFile(l), OneFile(r));
    OneFileView(env, REF, b, l, r);
    SharedIsNew(env, b, l, r);
    assert MERGE != "";
  }

  lemma OneFileUnambiguous(b: Value, l: Value, r: Value)
    ensures Unambiguous(OneFile(b), OneFile(l), OneFile(r))
  {
  }

  lemma SharedEncodable(round: Rounding)
    ensures Encodable(round, EMPTY_OBJECT)
    ensures Encodable(round, Obj(["a"], map["a" := HOLDS_X])) && Encodable(round, Obj(["a"], map["a" := HOLDS_Y]))
  {
    assert WellFormed("a") && WellFormed("x") && WellFormed("y");
    assert Encodable(round, HOLDS_X) && Encodable(round, HOLDS_Y);
  }

  // The three documents as slots: nothing, {a: {x}}, {a: {y}}.
  ghost predicate SharedShape(b: Slot, l: Slot, r: Slot) {
    && b.IsObject() && l.IsObject() && r.IsObject()
    && (forall k :: Child(b, k) == Absent)
    && (forall k :: k != "a" ==> Child(l, k) == Absent && Child(r, k) == Absent)
    && Child(l, "a").IsObject() && Child(r, "a").IsObject()
    && (forall k :: Child(Child(l, "a"), k) == if k == "x" then Present(YES) else Absent)
    && (forall k :: Child(Child(r, "a"), k) == if k == "y" then Present(YES) else Absent)
  }

  lemma OneMemberRead(name: string, x: Value, k: string)
    ensures Child(Read(Obj([name], map[name := x])), k) == if k == name then Present(Reparsed(x)) else Absent
  {
    hide Reparsed;
    ReparsedChild(Present(Obj([name], map[name := x])), k);
  }

  lemma SharedSlots()
    ensures SharedShape(Read(EMPTY_OBJECT), Read(Obj(["a"], map["a" := HOLDS_X])), Read(Obj(["a"], map["a" := HOLDS_Y])))
  {
    hide Reparsed;
    var l, r := Obj(["a"], map["a" := HOLDS_X]), Obj(["a"], map["a" := HOLDS_Y]);
    ReadShapes();
    forall k ensures Child(Read(l), k) == if k == "a" then Read(HOLDS_X) else Absent { OneMemberRead("a", HOLDS_X, k); }
    forall k ensures Child(Read(r), k) == if k == "a" then Read(HOLDS_Y) else Absent { OneMemberRead("a", HOLDS_Y, k); }
    forall k ensures Child(Read(HOLDS_X), k) == if k == "x" then Present(YES) else Absent { OneMemberRead("x", YES, k); }
    forall k ensures Child(Read(HOLDS_Y), k) == if k == "y" then Present(YES) else Absent { OneMemberRead("y", YES, k); }
    forall k ensures Child(Read(EMPTY_OBJECT), k) == Absent { ReparsedChild(Present(EMPTY_OBJECT), k); }
  }

  lemma ReadShapes()
    ensures Reparsed(YES) == YES
    ensures forall v: Value :: v.Obj? ==> Reparsed(v).Obj?
  {
    hide PropertyOrder, ObjectKeys;
  }

  lemma SharedIsClean(b: Slot, l: Slot, r: Slot)
    requires SharedShape(b, l, r)
    ensures CleanMerge(b, l, r) && LabelsLocal(b, l, r)
  {
    var la, ra := Child(l, "a"), Child(r, "a");
    Unequal(l, b, "a");
    Unequal(r, b, "a");
    Unequal(b, l, "a");
    Unequal(b, r, "a");
    Unequal(la, ra, "x");
    if SameSlot(l, r) { SameChild(l, r, "a"); }
    forall p: Path ensures ReasonAt(b, l, r, p) == Agreed {
      if |p| > 1 && p[0] == "a" { assert ReasonAt(Absent, Child(la, p[1]), Child(ra, p[1]), p[2..]) == Agreed; }
    }
    forall p: Path | Differs(b, r, p) ensures Differs(b, l, p) && Label(p) == Label(p) {
      DiffOfObjects(b, r, p);
      DiffOfObjects(b, l, p);
      assert p[0] == "a" && p[1..] == [];
    }
  }

  lemma Unequal(a: Slot, b: Slot, k: string)
    requires Child(a, k).Present? != Child(b, k).Present?
    ensures !SameSlot(a, b)
  {
    if SameSlot(a, b) { SameChild(a, b, k); }
  }

  lemma SharedIsNew(env: Env, b: Value, l: Value, r: Value)
    requires SharedShape(Read(b), Read(l), Read(r)) && b.Obj? && l.Obj? && r.Obj?
    requires Encodable(env.round, b) && Encodable(env.round, l) && Encodable(env.round, r)
    ensures !GateHolds(env, MERGE, KeysAt(env, REF), ViewOfThree(b, l, r))
  {
    hide Parse, Serialize, Encodable, Reparsed, Degraded, ValueOf, NotMergeable, Covers, RemotePathsLocal, NoPlaceholder, RawTextual, KeysAt;
    ViewReads(env, b);
    ViewReads(env, l);
    ViewReads(env, r);
    SerializeReadsBack(env.round, b);
    SerializeReadsBack(env.round, r);
    assert Child(Read(b), "a") != Child(Read(r), "a");
    SharedNotCovered(Read(b), Read(l), Read(r));
  }

  lemma SharedNotCovered(b: Slot, l: Slot, r: Slot)
    requires SharedShape(b, l, r)
    ensures !AddedObjectsCovered(b, l, r)
  {
    var p: Path := ["a"];
    assert At(Child(b, "a"), []) == Child(b, "a") && At(Child(l, "a"), []) == Child(l, "a") && At(Child(r, "a"), []) == Child(r, "a");
    assert p[1..] == [];
    assert At(b, p) == Absent && At(l, p) == Child(l, "a") && At(r, p) == Child(r, "a");
    assert Child(Child(r, "a"), "y").Present? && Child(Child(l, "a"), "y").Absent?;
    NotCovered(Child(l, "a").v, Child(r, "a").v);
  }

  lemma NotCovered(l: Value, r: Value)
    requires l.Obj? && r.Obj? && "y" in r.m && "y" !in l.m
    ensures !Covers(l, r)
  {
    Unequal(Present(l), Present(r), "y");
  }

  /**
   A local category without a mode: the drift engine looks on to remote's mode and counts a pull, the
   planner stops at local's and plans nothing, so the verdict is remote-ahead with no file to show.
   */
  lemma ModelessLocalHidesFiles(env: Env, content: string)
    ensures var local := [Adapter("a", [Category("c", "", map[])])];
            var remote := [Adapter("a", [Category("c", MIRROR, map["f" := Entry(File, content)])])];
            CheckPushSafety(env, [], local, remote) == RemoteAhead([])
  {
    hide PlanPull, ComputeDrift, Total;
    var local := [Adapter("a", [Category("c", "", map[])])];
    var remote := [Adapter("a", [Category("c", MIRROR, map["f" := Entry(File, content)])])];
    forall ref ensures Planned(env, ref, [], local, remote).None? { ModelessSides(env, ref, content); }
    EmptyIffNonePlanned(env, [], local, remote);
    ModelessSides(env, REF, content);
    TotalsOfGate(env, [], local, remote, Pulls);
    assert Count(GateTally(env, REF, [], local, remote), Pulls) != 0;
  }

  // The judged categories of the two snapshots above.
  lemma ModelessCategories(env: Env, content: string, ref: FileRef)
    ensures var local := [Adapter("a", [Category("c", "", map[])])];
            var remote := [Adapter("a", [Category("c", MIRROR, map["f" := Entry(File, content)])])];
            var here := ref.adapter == "a" && ref.category == "c";
            && Strip(env, local) == local && Strip(env, remote) == remote && Strip(env, []) == []
            && FindCategory(FirstAdapter(local, ref.adapter), ref.category) == (if here then Some(local[0].categories[0]) else None)
            && FindCategory(FirstAdapter(remote, ref.adapter), ref.category) == (if here then Some(remote[0].categories[0]) else None)
            && LastAdapter(local, ref.adapter) == FirstAdapter(local, ref.adapter)
            && LastAdapter(remote, ref.adapter) == FirstAdapter(remote, ref.adapter)
            && LastAdapter([], ref.adapter) == FirstAdapter([], ref.adapter) == None && FindCategory(None, ref.category) == None
  {
    hide ExcludedKeys, Parse;
    var local := [Adapter("a", [Category("c", "", map[])])];
    var remote := [Adapter("a", [Category("c", MIRROR, map["f" := Entry(File, content)])])];
    assert StripCategory(env, "a", local[0].categories[0]) == local[0].categories[0];
    assert StripCategory(env, "a", remote[0].categories[0]) == remote[0].categories[0];
    assert StripAdapter(env, local[0]).categories == local[0].categories;
    assert StripAdapter(env, remote[0]).categories == remote[0].categories;
    assert local[..0] == [] && remote[..0] == [];
  }

  lemma ModelessSides(env: Env, ref: FileRef, content: string)
    ensures var local := [Adapter("a", [Category("c", "", map[])])];
            var remote := [Adapter("a", [Category("c", MIRROR, map["f" := Entry(File, content)])])];
            && ModeOf(env, ref, [], local, remote) == ""
            && (ref == REF ==> GateTally(env, ref, [], local, remote).pull == 1)
  {
    hide PlanFile, MergeFile, Strip, FindCategory, LastAdapter, FirstAdapter;
    ModelessCategories(env, content, ref);
  }

  /**
   A local category without a mode against a mirrored remote one, with different texts: the drift engine
   counts a conflict, the planner plans nothing, and the conflicts verdict shows none.
   */
  lemma ModelessLocalHidesConflicts(env: Env, mine: string, theirs: string)
    requires mine != theirs
    ensures CheckPushSafety(env, [], Holding("", mine), Holding(MIRROR, theirs)) == Conflicts([])
  {
    hide PlanPull, ComputeDrift, Total, ModeOf, GateTally, Holding;
    var local, remote := Holding("", mine), Holding(MIRROR, theirs);
    forall ref ensures ModeOf(env, ref, [], local, remote) == "" && GateTally(env, ref, [], local, remote).pull == 0 {
      HoldingSides(env, ref, mine, theirs);
    }
    HoldingSides(env, REF, mine, theirs);
    EmptyIffNonePlanned(env, [], local, remote);
    TotalsOfGate(env, [], local, remote, Pulls);
    TotalsOfGate(env, [], local, remote, Clashes);
    assert Count(GateTally(env, REF, [], local, remote), Clashes) != 0;
  }

  function Holding(mode: string, content: string): Snapshots {
    [Adapter("a", [Category("c", mode, map["f" := Entry(File, content)])])]
  }

  lemma HoldingCategory(env: Env, mode: string, content: string, ref: FileRef)
    ensures var s := Holding(mode, content);
            && Strip(env, s) == s && LastAdapter(s, ref.adapter) == FirstAdapter(s, ref.adapter)
            && FindCategory(FirstAdapter(s, ref.adapter), ref.category)
               == if ref.adapter == "a" && ref.category == "c" then Some(s[0].categories[0]) else None
  {
    hide ExcludedKeys, Parse;
    var s := Holding(mode, content);
    assert StripCategory(env, "a", s[0].categories[0]) == s[0].categories[0];
    assert StripAdapter(env, s[0]).categories == s[0].categories;
    assert s[..0] == [];
  }

  lemma HoldingSides(env: Env, ref: FileRef, mine: string, theirs: string)
    requires mine != theirs
    ensures var local, remote := Holding("", mine), Holding(MIRROR, theirs);
            && ModeOf(env, ref, [], local, remote) == ""
            && GateTally(env, ref, [], local, remote).pull == 0
            && (ref == REF ==> GateTally(env, ref, [], local, remote).conflicts == 1)
  {
    hide PlanFile, MergeFile, Strip, FindCategory, LastAdapter, FirstAdapter;
    HoldingCategory(env, "", mine, ref);
    HoldingCategory(env, MIRROR, theirs, ref);
    NothingToFind(env, ref);
  }

  lemma NothingToFind(env: Env, ref: FileRef)
    ensures Strip(env, []) == [] && FirstAdapter([], ref.adapter) == None && LastAdapter([], ref.adapter) == None
    ensures FindCategory(None, ref.category) == None
  {
  }
}
