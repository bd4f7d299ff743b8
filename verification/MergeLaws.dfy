/** What a three-way merge means, path by path: it applies both sides' patches and nothing else. */
module MergeLaws {
  import opened JsonValue
  import opened Merge
  import opened Diff

  ghost predicate CleanMerge(b: Slot, l: Slot, r: Slot) {
    forall p: Path :: ReasonAt(b, l, r, p) == Agreed
  }

  lemma CleanChild(b: Slot, l: Slot, r: Slot, k: string)
    requires CleanMerge(b, l, r) && Recurses(b, l, r)
    ensures CleanMerge(Child(b, k), Child(l, k), Child(r, k))
  {
    forall p: Path ensures ReasonAt(Child(b, k), Child(l, k), Child(r, k), p) == Agreed {
      assert ReasonAt(b, l, r, [k] + p) == Agreed;
      assert ([k] + p)[1..] == p;
    }
  }

  lemma CleanHere(b: Slot, l: Slot, r: Slot)
    requires CleanMerge(b, l, r)
    ensures TopReason(b, l, r) == Agreed
  {
    assert ReasonAt(b, l, r, []) == Agreed;
  }

  /** An empty conflict list means no path is irreconcilable. */
  lemma CleanIffNoConflicts(path: Path, b: Slot, l: Slot, r: Slot)
    ensures MergeSlot(path, b, l, r).conflicts == [] <==> CleanMerge(b, l, r)
  {
    var cs := MergeSlot(path, b, l, r).conflicts;
    if cs != [] {
      ConflictsAreExact(path, b, l, r, cs[0]);
    } else {
      forall p: Path ensures ReasonAt(b, l, r, p) == Agreed {
        if ReasonAt(b, l, r, p).Because? {
          var c := ConflictHere(path + p, ReasonAt(b, l, r, p).reason, At(b, p), At(l, p), At(r, p));
          assert c.path[|path|..] == p;
          ConflictsAreExact(path, b, l, r, c);
        }
      }
    }
  }

  /** Where remote left base alone the merge holds the local value, conflicts or not. */
  lemma {:induction false} RemoteUnchangedKeepsLocal(path: Path, b: Slot, l: Slot, r: Slot, p: Path)
    requires SameSlot(At(r, p), At(b, p))
    ensures SameSlot(At(MergeSlot(path, b, l, r).slot, p), At(l, p))
    decreases |p|
  {
    MergeStep(path, b, l, r);
    SameReflexive(At(l, p));
    if Recurses(b, l, r) {
      RemoteUnchangedKeepsLocal(path + [p[0]], Child(b, p[0]), Child(l, p[0]), Child(r, p[0]), p[1..]);
    } else if SameSlot(l, b) && !SameSlot(r, b) {
      SameAt(l, b, p);
      SameSymmetric(At(l, p), At(b, p));
      SameTransitive(At(r, p), At(b, p), At(l, p));
    }
  }

  /** Where local left base alone the merge holds the remote value, unless a conflict sits on the way. */
  lemma {:induction false} LocalUnchangedTakesRemote(path: Path, b: Slot, l: Slot, r: Slot, p: Path)
    requires SameSlot(At(l, p), At(b, p)) && !ConflictOn(b, l, r, p)
    ensures SameSlot(At(MergeSlot(path, b, l, r).slot, p), At(r, p))
    decreases |p|
  {
    MergeStep(path, b, l, r);
    SameReflexive(At(r, p));
    NoConflictHere(b, l, r, p);
    if Recurses(b, l, r) {
      ConflictBelow(b, l, r, p);
      LocalUnchangedTakesRemote(path + [p[0]], Child(b, p[0]), Child(l, p[0]), Child(r, p[0]), p[1..]);
    } else if SameSlot(r, b) {
      SameAt(r, b, p);
      SameSymmetric(At(r, p), At(b, p));
      SameTransitive(At(l, p), At(b, p), At(r, p));
    } else if !SameSlot(l, b) {
      SameAt(l, r, p);
    }
  }

  /** Equal edits converge to that edit. */
  lemma {:induction false} EqualEditsConverge(path: Path, b: Slot, l: Slot, r: Slot, p: Path)
    requires SameSlot(At(l, p), At(r, p))
    ensures SameSlot(At(MergeSlot(path, b, l, r).slot, p), At(l, p))
    decreases |p|
  {
    MergeStep(path, b, l, r);
    SameReflexive(At(l, p));
    SameSymmetric(At(l, p), At(r, p));
    if Recurses(b, l, r) {
      EqualEditsConverge(path + [p[0]], Child(b, p[0]), Child(l, p[0]), Child(r, p[0]), p[1..]);
    }
  }

  /** Every local leaf edit and every local deletion is in the merge, even when it has conflicts. */
  lemma {:induction false} LocalEditSurvives(path: Path, b: Slot, l: Slot, r: Slot, p: Path)
    requires !At(l, p).IsObject() && !SameSlot(At(l, p), At(b, p))
    ensures SameSlot(At(MergeSlot(path, b, l, r).slot, p), At(l, p))
    decreases |p|
  {
    MergeStep(path, b, l, r);
    SameReflexive(At(l, p));
    if Recurses(b, l, r) {
      LocalEditSurvives(path + [p[0]], Child(b, p[0]), Child(l, p[0]), Child(r, p[0]), p[1..]);
    } else if SameSlot(l, b) {
      SameAt(l, b, p);
    }
  }

  /** Every remote leaf edit and deletion is in the merge unless a conflict sits on the way. */
  lemma {:induction false} RemoteEditSurvives(path: Path, b: Slot, l: Slot, r: Slot, p: Path)
    requires !At(r, p).IsObject() && !SameSlot(At(r, p), At(b, p)) && !ConflictOn(b, l, r, p)
    ensures SameSlot(At(MergeSlot(path, b, l, r).slot, p), At(r, p))
    decreases |p|
  {
    MergeStep(path, b, l, r);
    SameReflexive(At(r, p));
    NoConflictHere(b, l, r, p);
    if Recurses(b, l, r) {
      ConflictBelow(b, l, r, p);
      RemoteEditSurvives(path + [p[0]], Child(b, p[0]), Child(l, p[0]), Child(r, p[0]), p[1..]);
    } else if SameSlot(r, b) {
      SameAt(r, b, p);
    } else if !SameSlot(l, b) {
      SameAt(l, r, p);
    }
  }

  /** The merge invents no leaf: whatever it holds stands on one of the two sides. */
  lemma {:induction false} NoLeafInvented(path: Path, b: Slot, l: Slot, r: Slot, p: Path)
    requires At(MergeSlot(path, b, l, r).slot, p).IsLeaf()
    ensures At(MergeSlot(path, b, l, r).slot, p) in {At(l, p), At(r, p)}
    decreases |p|
  {
    MergeStep(path, b, l, r);
    if Recurses(b, l, r) {
      NoLeafInvented(path + [p[0]], Child(b, p[0]), Child(l, p[0]), Child(r, p[0]), p[1..]);
    }
  }

  /**
   The merge changes base exactly where one of the sides does, and in the same way, at every path
   that no conflict covers.
   */
  lemma {:induction false} MergeIsBothPatches(path: Path, b: Slot, l: Slot, r: Slot, p: Path)
    requires !ConflictOn(b, l, r, p)
    ensures DiffAt(b, MergeSlot(path, b, l, r).slot, p)
            == if Differs(b, l, p) then DiffAt(b, l, p) else DiffAt(b, r, p)
    decreases |p|
  {
    var m := MergeSlot(path, b, l, r).slot;
    MergeStep(path, b, l, r);
    NoConflictHere(b, l, r, p);
    if Recurses(b, l, r) {
      if SameSlot(b, l) { SameSymmetric(b, l); }
      if SameSlot(b, r) { SameSymmetric(b, r); }
      if b.IsObject() {
        DiffOfObjects(b, l, p);
        DiffOfObjects(b, r, p);
        DiffOfObjects(b, m, p);
        if p != [] {
          ConflictBelow(b, l, r, p);
          MergeIsBothPatches(path + [p[0]], Child(b, p[0]), Child(l, p[0]), Child(r, p[0]), p[1..]);
        }
      }
    } else if SameSlot(l, b) {
      SameSymmetric(l, b);
      if SameSlot(r, b) { SameSymmetric(r, b); }
    } else if SameSlot(r, b) {
      SameSymmetric(r, b);
    } else {
      DiffRespectsEquality(b, l, r, p);
    }
  }

  lemma RecursesSymmetric(b: Slot, l: Slot, r: Slot)
    ensures Recurses(b, l, r) == Recurses(b, r, l)
    ensures TopReason(b, l, r) == TopReason(b, r, l)
  {
    if SameSlot(l, r) { SameSymmetric(l, r); }
    if SameSlot(r, l) { SameSymmetric(r, l); }
  }

  /** Swapping local and remote moves no conflict and changes no reason. */
  lemma {:induction false} SwapKeepsConflicts(b: Slot, l: Slot, r: Slot, p: Path)
    ensures ReasonAt(b, l, r, p) == ReasonAt(b, r, l, p)
    decreases |p|
  {
    RecursesSymmetric(b, l, r);
    if p != [] { SwapKeepsConflicts(Child(b, p[0]), Child(l, p[0]), Child(r, p[0]), p[1..]); }
  }

  /** A clean merge does not depend on which side is called local. */
  lemma {:induction false} SwapKeepsCleanResult(path: Path, b: Slot, l: Slot, r: Slot)
    requires CleanMerge(b, l, r)
    ensures SameSlot(MergeSlot(path, b, l, r).slot, MergeSlot(path, b, r, l).slot)
    decreases l.Present?, l.OrNull()
  {
    RecursesSymmetric(b, l, r);
    MergeStep(path, b, l, r);
    MergeStep(path, b, r, l);
    CleanHere(b, l, r);
    if Recurses(b, l, r) {
      var m, n := MergeSlot(path, b, l, r).slot, MergeSlot(path, b, r, l).slot;
      forall k ensures SameSlot(Child(m, k), Child(n, k)) {
        CleanChild(b, l, r, k);
        SwapKeepsCleanResult(path + [k], Child(b, k), Child(l, k), Child(r, k));
      }
      SameObjects(m, n);
    } else {
      SameReflexive(l);
      SameReflexive(r);
      if SameSlot(l, b) && SameSlot(r, b) {
        SameSymmetric(r, b);
        SameTransitive(l, b, r);
      }
    }
  }

  // ----- When the merge already equals local -----

  // `l` already contains everything `r` holds.
  predicate Covers(l: Value, r: Value)
    decreases r
  {
    DeepEqual(l, r) || (l.Obj? && r.Obj? && forall k :: k in r.m ==> k in l.m && Covers(l.m[k], r.m[k]))
  }

  // Every change remote made is at a path local changed too.
  ghost predicate RemotePathsLocal(b: Slot, l: Slot, r: Slot) {
    forall p: Path :: Differs(b, r, p) ==> Differs(b, l, p)
  }

  // Wherever both sides put an object that base lacks, local's already contains remote's.
  ghost predicate AddedObjectsCovered(b: Slot, l: Slot, r: Slot) {
    forall p: Path :: At(b, p).Absent? && At(l, p).IsObject() && At(r, p).IsObject() ==> Covers(At(l, p).v, At(r, p).v)
  }

  lemma {:induction false} CleanAdditionIsLocalIffCovered(path: Path, l: Slot, r: Slot)
    requires l.Present? && r.Present? && CleanMerge(Absent, l, r)
    ensures SameSlot(MergeSlot(path, Absent, l, r).slot, l) <==> Covers(l.v, r.v)
    decreases l.OrNull()
  {
    MergeStep(path, Absent, l, r);
    CleanHere(Absent, l, r);
    SameReflexive(l);
    if Recurses(Absent, l, r) {
      var m := MergeSlot(path, Absent, l, r).slot;
      forall k ensures SameSlot(Child(m, k), Child(l, k)) <==>
                       (Child(r, k).Present? ==> Child(l, k).Present? && Covers(Child(l, k).v, Child(r, k).v)) {
        CleanChild(Absent, l, r, k);
        MergeStep(path + [k], Absent, Child(l, k), Child(r, k));
        SameReflexive(Child(l, k));
        if Child(l, k).Present? && Child(r, k).Present? {
          CleanAdditionIsLocalIffCovered(path + [k], Child(l, k), Child(r, k));
        }
      }
      if SameSlot(m, l) {
        forall k ensures SameSlot(Child(m, k), Child(l, k)) { SameChild(m, l, k); }
        forall k | k in r.v.m ensures k in l.v.m && Covers(l.v.m[k], r.v.m[k]) {
          assert SameSlot(Child(m, k), Child(l, k)) && Child(r, k).Present?;
        }
      }
      if Covers(l.v, r.v) {
        forall k ensures SameSlot(Child(m, k), Child(l, k)) {}
        SameObjects(m, l);
      }
    }
  }

  lemma {:induction false} CoversAt(l: Slot, r: Slot, p: Path)
    requires l.Present? && r.Present? && Covers(l.v, r.v) && At(l, p).IsObject() && At(r, p).IsObject()
    ensures Covers(At(l, p).v, At(r, p).v)
    decreases |p|
  {
    if SameSlot(l, r) {
      SameAt(l, r, p);
    } else if p != [] {
      AbsentBelow(p[1..]);
      CoversAt(Child(l, p[0]), Child(r, p[0]), p[1..]);
    }
  }

  lemma {:induction false} AbsentBelow(p: Path)
    ensures At(Absent, p) == Absent
    decreases |p|
  {
    if p != [] { AbsentBelow(p[1..]); }
  }

  /**
   A clean merge equals local exactly when remote brings nothing new: each remote change is at a
   path local changed, and objects both sides added are contained in local's.
   */
  lemma {:induction false} CleanMergeIsLocalIff(path: Path, b: Slot, l: Slot, r: Slot)
    requires CleanMerge(b, l, r)
    ensures SameSlot(MergeSlot(path, b, l, r).slot, l) <==> RemotePathsLocal(b, l, r) && AddedObjectsCovered(b, l, r)
    decreases l.Present?, l.OrNull()
  {
    MergeStep(path, b, l, r);
    CleanHere(b, l, r);
    if Recurses(b, l, r) {
      if b.Absent? {
        AdditionIsLocalIff(path, l, r);
      } else {
        ObjectMergeIsLocalIff(path, b, l, r);
      }
    } else {
      UnrecursedIsLocalIff(path, b, l, r);
    }
  }

  lemma AdditionIsLocalIff(path: Path, l: Slot, r: Slot)
    requires CleanMerge(Absent, l, r) && l.IsObject() && r.IsObject()
    ensures SameSlot(MergeSlot(path, Absent, l, r).slot, l)
            <==> RemotePathsLocal(Absent, l, r) && AddedObjectsCovered(Absent, l, r)
  {
    CleanAdditionIsLocalIffCovered(path, l, r);
    var root: Path := [];
    assert At(l, root) == l && At(r, root) == r && At(Absent, root).Absent?;
    if Covers(l.v, r.v) {
      forall p: Path | At(l, p).IsObject() && At(r, p).IsObject() ensures Covers(At(l, p).v, At(r, p).v) { CoversAt(l, r, p); }
    }
  }

  lemma {:induction false} ObjectMergeIsLocalIff(path: Path, b: Slot, l: Slot, r: Slot)
    requires CleanMerge(b, l, r) && Recurses(b, l, r) && b.IsObject()
    ensures SameSlot(MergeSlot(path, b, l, r).slot, l) <==> RemotePathsLocal(b, l, r) && AddedObjectsCovered(b, l, r)
    decreases l.Present?, l.OrNull(), 0
  {
    var m := MergeSlot(path, b, l, r).slot;
    MergeStep(path, b, l, r);
    forall k ensures SameSlot(Child(m, k), Child(l, k)) <==>
                     && RemotePathsLocal(Child(b, k), Child(l, k), Child(r, k))
                     && AddedObjectsCovered(Child(b, k), Child(l, k), Child(r, k)) {
      CleanChild(b, l, r, k);
      CleanMergeIsLocalIff(path + [k], Child(b, k), Child(l, k), Child(r, k));
    }
    RemotePathsByChild(b, l, r);
    AddedObjectsByChild(b, l, r);
    if SameSlot(m, l) {
      forall k ensures SameSlot(Child(m, k), Child(l, k)) { SameChild(m, l, k); }
    } else if forall k :: SameSlot(Child(m, k), Child(l, k)) {
      SameObjects(m, l);
    }
  }

  lemma RemotePathsByChild(b: Slot, l: Slot, r: Slot)
    requires b.IsObject() && l.IsObject() && r.IsObject()
    ensures RemotePathsLocal(b, l, r) <==> forall k :: RemotePathsLocal(Child(b, k), Child(l, k), Child(r, k))
  {
    if RemotePathsLocal(b, l, r) {
      forall k, p: Path | Differs(Child(b, k), Child(r, k), p) ensures Differs(Child(b, k), Child(l, k), p) {
        var q := [k] + p;
        assert q[0] == k && q[1..] == p;
        DiffOfObjects(b, l, q);
        DiffOfObjects(b, r, q);
        assert Differs(b, r, q);
      }
    }
    if forall k :: RemotePathsLocal(Child(b, k), Child(l, k), Child(r, k)) {
      forall p: Path | Differs(b, r, p) ensures Differs(b, l, p) {
        DiffOfObjects(b, l, p);
        DiffOfObjects(b, r, p);
        assert Differs(Child(b, p[0]), Child(r, p[0]), p[1..]);
      }
    }
  }

  lemma AddedObjectsByChild(b: Slot, l: Slot, r: Slot)
    requires b.IsObject() && l.IsObject() && r.IsObject()
    ensures AddedObjectsCovered(b, l, r) <==> forall k :: AddedObjectsCovered(Child(b, k), Child(l, k), Child(r, k))
  {
    if AddedObjectsCovered(b, l, r) {
      forall k, p: Path | At(Child(b, k), p).Absent? && At(Child(l, k), p).IsObject() && At(Child(r, k), p).IsObject()
        ensures Covers(At(Child(l, k), p).v, At(Child(r, k), p).v)
      {
        var q := [k] + p;
        assert q[0] == k && q[1..] == p;
        assert At(b, q).Absent?;
      }
    }
    if forall k :: AddedObjectsCovered(Child(b, k), Child(l, k), Child(r, k)) {
      forall p: Path | At(b, p).Absent? && At(l, p).IsObject() && At(r, p).IsObject()
        ensures Covers(At(l, p).v, At(r, p).v)
      {
        assert AddedObjectsCovered(Child(b, p[0]), Child(l, p[0]), Child(r, p[0]));
      }
    }
  }

  lemma UnrecursedIsLocalIff(path: Path, b: Slot, l: Slot, r: Slot)
    requires CleanMerge(b, l, r) && !Recurses(b, l, r)
    ensures SameSlot(MergeSlot(path, b, l, r).slot, l) <==> RemotePathsLocal(b, l, r) && AddedObjectsCovered(b, l, r)
  {
    MergeStep(path, b, l, r);
    CleanHere(b, l, r);
    SameReflexive(l);
    if SameSlot(l, b) && !SameSlot(r, b) {
      SameSymmetric(l, b);
      if SameSlot(b, r) { SameSymmetric(b, r); }
      var p := DifferenceHasPath(b, r);
      if SameSlot(r, l) { SameTransitive(r, l, b); }
    } else if SameSlot(r, b) {
      SameSymmetric(r, b);
      forall p: Path ensures !Differs(b, r, p) && (At(b, p).Absent? ==> At(r, p).Absent?) { SameAt(r, b, p); }
    } else {
      forall p: Path ensures DiffAt(b, l, p) == DiffAt(b, r, p) && SameSlot(At(l, p), At(r, p)) {
        DiffRespectsEquality(b, l, r, p);
        SameAt(l, r, p);
      }
    }
  }

  // ----- The same, for whole JSON documents -----

  /** Remote alone changed a document that is not an object; the clean merge is the empty object. */
  lemma NonObjectRootIsLost()
    ensures MergeJSON(Null, Null, Bool(true)) == MergeResult("clean", EMPTY_OBJECT, [])
    ensures MergeSlot([], Present(Null), Present(Null), Present(Bool(true))).slot == Present(Bool(true))
  {
    assert DeepEqual(Null, Null);
  }

  /**
   A clean merge of two documents differs from base at exactly the union of the two sides' paths,
   as long as the merged slot is an object. Otherwise MergeJSON falls back to an empty object and
   the union law holds only for a non-object base that some side changed.
   */
  lemma CleanDocumentMerge(base: Value, local: Value, remote: Value)
    requires MergeJSON(base, local, remote).status == "clean"
    ensures var b, l, r := Present(base), Present(local), Present(remote);
            var m := Present(MergeJSON(base, local, remote).merged);
            (forall p: Path :: Differs(b, m, p) <==> Differs(b, l, p) || Differs(b, r, p)) <==>
            (MergeSlot([], b, l, r).slot.IsObject() || (!base.Obj? && !(SameSlot(b, l) && SameSlot(b, r))))
  {
    var b, l, r := Present(base), Present(local), Present(remote);
    var slot := MergeSlot([], b, l, r).slot;
    var m := Present(MergeJSON(base, local, remote).merged);
    CleanIffNoConflicts([], b, l, r);
    MergeStep([], b, l, r);
    CleanHere(b, l, r);
    if slot.IsObject() {
      forall p: Path ensures Differs(b, m, p) <==> Differs(b, l, p) || Differs(b, r, p) {
        assert !ConflictOn(b, l, r, p);
        MergeIsBothPatches([], b, l, r, p);
      }
    } else {
      NonObjectMerge(b, l, r);
    }
  }

  lemma NonObjectMerge(b: Slot, l: Slot, r: Slot)
    requires b.Present? && l.Present? && r.Present? && CleanMerge(b, l, r)
    requires !MergeSlot([], b, l, r).slot.IsObject()
    ensures (forall p: Path :: Differs(b, Present(EMPTY_OBJECT), p) <==> Differs(b, l, p) || Differs(b, r, p)) <==>
            (!b.IsObject() && !(SameSlot(b, l) && SameSlot(b, r)))
  {
    var e := Present(EMPTY_OBJECT);
    var root: Path := [];
    MergeStep([], b, l, r);
    CleanHere(b, l, r);
    if SameSlot(l, b) { SameSymmetric(l, b); }
    if SameSlot(r, b) { SameSymmetric(r, b); }
    if SameSlot(b, l) { SameSymmetric(b, l); }
    if SameSlot(b, r) { SameSymmetric(b, r); }
    if b.IsObject() {
      // Only an object can differ below the root, so the fallback's root never differs while the sides' does.
      DiffOfObjects(b, e, root);
      assert !Differs(b, e, root);
      assert Differs(b, l, root) || Differs(b, r, root);
    } else {
      assert Differs(b, e, root);
      forall p: Path | p != [] ensures !Differs(b, e, p) && !Differs(b, l, p) && !Differs(b, r, p) {}
    }
  }

  /** For three objects, the keys the diff of a clean merge reports are the keys of the two sides' diffs. */
  lemma CleanDocumentKeys(base: Value, local: Value, remote: Value, x: string)
    requires base.Obj? && local.Obj? && remote.Obj? && MergeJSON(base, local, remote).status == "clean"
    ensures x in DiffJSON(base, MergeJSON(base, local, remote).merged).keys <==>
            x in DiffJSON(base, local).keys || x in DiffJSON(base, remote).keys
  {
    hide DiffJSON, DiffAt, MergeSlot, Label;
    var b, l, r := Present(base), Present(local), Present(remote);
    var m := MergeJSON(base, local, remote).merged;
    CleanDocumentMerge(base, local, remote);
    MergeStep([], b, l, r);
    DiffKeysAreLabels(base, local);
    DiffKeysAreLabels(base, remote);
    DiffKeysAreLabels(base, m);
    if x in DiffJSON(base, m).keys { var p: Path :| Differs(b, Present(m), p) && Label(p) == x; }
    if x in DiffJSON(base, local).keys { var p: Path :| Differs(b, l, p) && Label(p) == x; }
    if x in DiffJSON(base, remote).keys { var p: Path :| Differs(b, r, p) && Label(p) == x; }
  }

  /** Swapping the two sides of a document merge keeps the conflicting paths and, when clean, the result. */
  lemma SwappedDocuments(base: Value, local: Value, remote: Value, p: Path, reason: string)
    ensures (exists c :: c in MergeJSON(base, local, remote).conflicts && c.path == p && c.reason == reason) <==>
            (exists c :: c in MergeJSON(base, remote, local).conflicts && c.path == p && c.reason == reason)
    ensures MergeJSON(base, local, remote).status == MergeJSON(base, remote, local).status
    ensures MergeJSON(base, local, remote).status == "clean" ==>
              DeepEqual(MergeJSON(base, local, remote).merged, MergeJSON(base, remote, local).merged)
  {
    hide MergeSlot, ReasonAt, DeepEqual;
    var b, l, r := Present(base), Present(local), Present(remote);
    ConflictAtPath(b, l, r, p, reason);
    ConflictAtPath(b, r, l, p, reason);
    SwapKeepsConflicts(b, l, r, p);
    CleanIffNoConflicts([], b, l, r);
    CleanIffNoConflicts([], b, r, l);
    forall q: Path ensures ReasonAt(b, l, r, q) == ReasonAt(b, r, l, q) { SwapKeepsConflicts(b, l, r, q); }
    if CleanMerge(b, l, r) {
      SwapKeepsCleanResult([], b, l, r);
      DeepEqualReflexive(EMPTY_OBJECT);
      SameKind(MergeSlot([], b, l, r).slot, MergeSlot([], b, r, l).slot);
    }
  }

  lemma SameKind(a: Slot, b: Slot)
    requires SameSlot(a, b)
    ensures a.IsObject() == b.IsObject()
  {
  }

  lemma ConflictAtPath(b: Slot, l: Slot, r: Slot, p: Path, reason: string)
    ensures (exists c :: c in MergeSlot([], b, l, r).conflicts && c.path == p && c.reason == reason) <==>
            ReasonAt(b, l, r, p) == Because(reason)
  {
    hide MergeSlot, ReasonAt;
    var root: Path := [];
    var c := ConflictHere(p, reason, At(b, p), At(l, p), At(r, p));
    assert c.path[|root|..] == p && root <= p;
    ConflictsAreExact([], b, l, r, c);
    if exists d :: d in MergeSlot([], b, l, r).conflicts && d.path == p && d.reason == reason {
      var d :| d in MergeSlot([], b, l, r).conflicts && d.path == p && d.reason == reason;
      ConflictsAreExact([], b, l, r, d);
      assert d.path[|root|..] == p;
    }
  }
}
