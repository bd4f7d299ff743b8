/**
 The key-level three-way merge and the path-set diff of the sync engine.

 Paths are kept structured (a sequence of keys); the dotted string the program reports is
 `Render(path)`.
 */
module Merge {
  import opened JsonValue
  import opened Keys

  datatype Conflict = Conflict(path: Path, reason: string, base: Value, local: Value, remote: Value)

  datatype Outcome = Outcome(slot: Slot, conflicts: seq<Conflict>)

  const MODIFY_VS_DELETE := "modify-vs-delete"
  const ARRAY_BOTH_CHANGED := "array-both-changed"
  const BOTH_MODIFIED := "both-modified"

  function UnionKeys(slots: seq<Slot>): (r: seq<string>)
    ensures Distinct(r)
    ensures forall k :: k in r <==> exists i :: 0 <= i < |slots| && Child(slots[i], k).Present?
  {
    if slots == [] then []
    else
      var last := slots[|slots| - 1];
      var before := UnionKeys(slots[..|slots| - 1]);
      if last.IsObject() then AppendNew(before, ObjectKeys(last.v)) else before
  }

  function ConflictHere(path: Path, reason: string, base: Slot, local: Slot, remote: Slot): Conflict {
    Conflict(path, reason, base.OrNull(), local.OrNull(), remote.OrNull())
  }

  function MergeSlot(path: Path, base: Slot, local: Slot, remote: Slot): Outcome
    decreases local.Present?, local.OrNull(), 1, 0
  {
    if SameSlot(local, base) && SameSlot(remote, base) then Outcome(local, [])
    else if SameSlot(local, base) then Outcome(remote, [])
    else if SameSlot(remote, base) then Outcome(local, [])
    else if local.Absent? && remote.Absent? then Outcome(Absent, [])
    else if local.Absent? || remote.Absent? then
      if base.Absent? then Outcome(if local.Present? then local else remote, [])
      else Outcome(local, [ConflictHere(path, MODIFY_VS_DELETE, base, local, remote)])
    else if DeepEqual(local.v, remote.v) then Outcome(local, [])
    else if local.IsObject() && remote.IsObject() && (base.Absent? || base.IsObject()) then
      var r := MergeKeys(path, base, local, remote, UnionKeys([base, local, remote]));
      Outcome(Present(r.0), r.1)
    else
      var reason := if local.IsArray() || remote.IsArray() then ARRAY_BOTH_CHANGED else BOTH_MODIFIED;
      Outcome(local, [ConflictHere(path, reason, base, local, remote)])
  }

  // The loop of mergeObject: the object built and the conflicts found after visiting `keys`.
  function MergeKeys(path: Path, base: Slot, local: Slot, remote: Slot, keys: seq<string>): (r: (Value, seq<Conflict>))
    requires local.IsObject()
    ensures r.0.Obj?
    decreases local.Present?, local.OrNull(), 0, |keys|
  {
    if keys == [] then (EMPTY_OBJECT, [])
    else
      var n := |keys| - 1;
      var before := MergeKeys(path, base, local, remote, keys[..n]);
      var child := MergeSlot(path + [keys[n]], Child(base, keys[n]), Child(local, keys[n]), Child(remote, keys[n]));
      (if child.slot.Present? then PutObject(before.0, keys[n], child.slot.v) else before.0,
       before.1 + child.conflicts)
  }

  lemma ListedKey(slots: seq<Slot>, k: string)
    ensures k !in UnionKeys(slots) ==> forall i :: 0 <= i < |slots| ==> Child(slots[i], k) == Absent
    ensures |slots| == 3 && k !in UnionKeys(slots) ==> Child(slots[0], k) == Child(slots[1], k) == Child(slots[2], k) == Absent
    ensures |slots| == 2 && k !in UnionKeys(slots) ==> Child(slots[0], k) == Child(slots[1], k) == Absent
  {
  }

  datatype MergeResult = MergeResult(status: string, merged: Value, conflicts: seq<Conflict>)

  function MergeJSON(base: Value, local: Value, remote: Value): MergeResult {
    var r := MergeSlot([], Present(base), Present(local), Present(remote));
    MergeResult(if r.conflicts == [] then "clean" else "conflict",
                if r.slot.IsObject() then r.slot.v else EMPTY_OBJECT,
                r.conflicts)
  }

  // ----- Shape of one merge step -----

  ghost predicate Recurses(b: Slot, l: Slot, r: Slot) {
    && !SameSlot(l, b) && !SameSlot(r, b) && l.IsObject() && r.IsObject()
    && !DeepEqual(l.v, r.v) && (b.Absent? || b.IsObject())
  }

  // The side taken when the merge does not recurse.
  ghost function Picked(b: Slot, l: Slot, r: Slot): Slot {
    if SameSlot(l, b) && !SameSlot(r, b) then r else l
  }

  // Why the three slots themselves cannot be reconciled; Agreed when they can or the merge recurses.
  datatype Reason = Agreed | Because(reason: string)

  ghost function TopReason(b: Slot, l: Slot, r: Slot): Reason {
    if SameSlot(l, b) || SameSlot(r, b) || SameSlot(l, r) || Recurses(b, l, r) then Agreed
    else if l.Absent? || r.Absent? then Because(MODIFY_VS_DELETE)
    else if l.IsArray() || r.IsArray() then Because(ARRAY_BOTH_CHANGED)
    else Because(BOTH_MODIFIED)
  }

  ghost function ConflictsHere(path: Path, b: Slot, l: Slot, r: Slot): seq<Conflict> {
    match TopReason(b, l, r)
    case Agreed => []
    case Because(why) => [ConflictHere(path, why, b, l, r)]
  }

  lemma {:induction false} MergeKeysStep(path: Path, b: Slot, l: Slot, r: Slot, keys: seq<string>, k: string)
    requires l.IsObject()
    ensures Child(Present(MergeKeys(path, b, l, r, keys).0), k) ==
            if k in keys then MergeSlot(path + [k], Child(b, k), Child(l, k), Child(r, k)).slot else Absent
    decreases |keys|
  {
    if keys != [] {
      var n := |keys| - 1;
      MergeKeysStep(path, b, l, r, keys[..n], k);
      assert keys == keys[..n] + [keys[n]];
    }
  }

  lemma {:induction false} MergeKeysConflicts(path: Path, b: Slot, l: Slot, r: Slot, keys: seq<string>, c: Conflict)
    requires l.IsObject()
    ensures c in MergeKeys(path, b, l, r, keys).1 <==>
            exists k :: k in keys && c in MergeSlot(path + [k], Child(b, k), Child(l, k), Child(r, k)).conflicts
    decreases |keys|
  {
    if keys != [] {
      var n := |keys| - 1;
      MergeKeysConflicts(path, b, l, r, keys[..n], c);
      assert keys == keys[..n] + [keys[n]];
    }
  }

  lemma AbsentChildrenMergeToNothing(path: Path)
    ensures MergeSlot(path, Absent, Absent, Absent) == Outcome(Absent, [])
  {
  }

  lemma MergeStep(path: Path, b: Slot, l: Slot, r: Slot)
    ensures Recurses(b, l, r) ==> MergeSlot(path, b, l, r).slot.IsObject()
    ensures Recurses(b, l, r) ==> forall k ::
              Child(MergeSlot(path, b, l, r).slot, k) == MergeSlot(path + [k], Child(b, k), Child(l, k), Child(r, k)).slot
    ensures !Recurses(b, l, r) ==> MergeSlot(path, b, l, r).slot == Picked(b, l, r)
    ensures !Recurses(b, l, r) ==> MergeSlot(path, b, l, r).conflicts == ConflictsHere(path, b, l, r)
  {
    hide UnionKeys, MergeKeys;
    if Recurses(b, l, r) {
      var keys := UnionKeys([b, l, r]);
      forall k ensures Child(MergeSlot(path, b, l, r).slot, k) == MergeSlot(path + [k], Child(b, k), Child(l, k), Child(r, k)).slot {
        MergeKeysStep(path, b, l, r, keys, k);
        ListedKey([b, l, r], k);
        AbsentChildrenMergeToNothing(path + [k]);
      }
    } else if l.Present? && r.Present? && SameSlot(l, r) && SameSlot(l, b) && !SameSlot(r, b) {
      SameSymmetric(l, r);
      SameTransitive(r, l, b);
    }
  }

  // ----- Where the conflicts are -----

  ghost function ReasonAt(b: Slot, l: Slot, r: Slot, p: Path): Reason
    decreases |p|
  {
    if p == [] then TopReason(b, l, r)
    else if Recurses(b, l, r) then ReasonAt(Child(b, p[0]), Child(l, p[0]), Child(r, p[0]), p[1..])
    else Agreed
  }

  // A conflict at the path or at one of its ancestors.
  ghost predicate ConflictOn(b: Slot, l: Slot, r: Slot, p: Path) {
    exists i :: 0 <= i <= |p| && ReasonAt(b, l, r, p[..i]) != Agreed
  }

  lemma ConflictBelow(b: Slot, l: Slot, r: Slot, p: Path)
    requires p != [] && Recurses(b, l, r)
    ensures ConflictOn(b, l, r, p) <==> ConflictOn(Child(b, p[0]), Child(l, p[0]), Child(r, p[0]), p[1..])
  {
    var cb, cl, cr := Child(b, p[0]), Child(l, p[0]), Child(r, p[0]);
    forall i | 0 < i <= |p| ensures ReasonAt(b, l, r, p[..i]) == ReasonAt(cb, cl, cr, p[1..][..i - 1]) {
      assert p[..i][1..] == p[1..][..i - 1];
    }
    if ConflictOn(cb, cl, cr, p[1..]) {
      var j :| 0 <= j <= |p[1..]| && ReasonAt(cb, cl, cr, p[1..][..j]) != Agreed;
      assert ReasonAt(b, l, r, p[..j + 1]) != Agreed;
    }
  }

  lemma NoConflictHere(b: Slot, l: Slot, r: Slot, p: Path)
    requires !ConflictOn(b, l, r, p)
    ensures TopReason(b, l, r) == Agreed
  {
    assert ReasonAt(b, l, r, p[..0]) == TopReason(b, l, r);
  }

  lemma ConflictNeedsValue(b: Slot, l: Slot, r: Slot, p: Path)
    requires ReasonAt(b, l, r, p).Because?
    ensures b.Present? || l.Present? || r.Present?
  {
  }

  // `c` describes an irreconcilable path below `path`.
  ghost predicate Describes(path: Path, b: Slot, l: Slot, r: Slot, c: Conflict) {
    && path <= c.path
    && var p := c.path[|path|..];
       && ReasonAt(b, l, r, p).Because?
       && c == ConflictHere(c.path, ReasonAt(b, l, r, p).reason, At(b, p), At(l, p), At(r, p))
  }

  lemma DescribesBelow(path: Path, b: Slot, l: Slot, r: Slot, k: string, c: Conflict)
    requires Recurses(b, l, r) && path + [k] <= c.path
    ensures Describes(path, b, l, r, c) <==> Describes(path + [k], Child(b, k), Child(l, k), Child(r, k), c)
  {
    var p := c.path[|path|..];
    assert p[0] == k && p[1..] == c.path[|path + [k]|..];
  }

  /** The conflict list is exact: one entry per irreconcilable path, with the reason and the three values there. */
  lemma {:induction false} ConflictsAreExact(path: Path, b: Slot, l: Slot, r: Slot, c: Conflict)
    ensures c in MergeSlot(path, b, l, r).conflicts <==> Describes(path, b, l, r, c)
    decreases l.Present?, l.OrNull()
  {
    MergeStep(path, b, l, r);
    if Recurses(b, l, r) {
      ConflictsOfChildren(path, b, l, r, c);
    } else if path <= c.path && c.path[|path|..] == [] {
      assert c.path == path;
    }
  }

  lemma {:induction false} ConflictsOfChildren(path: Path, b: Slot, l: Slot, r: Slot, c: Conflict)
    requires Recurses(b, l, r)
    ensures c in MergeSlot(path, b, l, r).conflicts <==> Describes(path, b, l, r, c)
    decreases l.Present?, l.OrNull(), 0
  {
    hide UnionKeys, MergeKeys, DeepEqual;
    var keys := UnionKeys([b, l, r]);
    MergeKeysConflicts(path, b, l, r, keys, c);
    if c in MergeSlot(path, b, l, r).conflicts {
      var k :| k in keys && c in MergeSlot(path + [k], Child(b, k), Child(l, k), Child(r, k)).conflicts;
      ConflictsAreExact(path + [k], Child(b, k), Child(l, k), Child(r, k), c);
      DescribesBelow(path, b, l, r, k, c);
    }
    if Describes(path, b, l, r, c) {
      var k := c.path[|path|..][0];
      assert c.path == path + c.path[|path|..];
      assert path + [k] <= c.path;
      DescribesBelow(path, b, l, r, k, c);
      ConflictsAreExact(path + [k], Child(b, k), Child(l, k), Child(r, k), c);
      assert ReasonAt(Child(b, k), Child(l, k), Child(r, k), c.path[|path + [k]|..]).Because?;
      ConflictNeedsValue(Child(b, k), Child(l, k), Child(r, k), c.path[|path + [k]|..]);
      ListedKey([b, l, r], k);
    }
  }
}
