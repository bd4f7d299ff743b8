/** What the counters say about one file, stated by which sides changed and how. */
module FileMatrix {
  import opened JsonValue
  import opened JsonNumber
  import opened JsonText
  import opened Merge
  import opened Diff
  import opened MergeOrder
  import opened DiffCount
  import opened Snapshot
  import opened Drift

  // ----- Files compared whole -----

  /** Both sides dropped the file, or both added it with one text. */
  predicate ChangedAlike(b: Option<Entry>, l: Option<Entry>, r: Option<Entry>) {
    (l.None? && r.None?) || (b.None? && l.Some? && r.Some? && l.value.content == r.value.content)
  }

  /** The whole matrix: who changed decides the verdict, and the missing sides its kind. */
  lemma CompareFileIs(b: Option<Entry>, l: Option<Entry>, r: Option<Entry>)
    ensures var v, here, there := CompareFile(b, l, r), TextsDiffer(b, l), TextsDiffer(b, r);
            && (v == Pull <==> !here && there && r.Some?)
            && (v == PullDelete <==> !here && there && r.None?)
            && (v == Push <==> here && !there && l.Some?)
            && (v == PushDelete <==> here && !there && l.None?)
            && (v.Clash? <==> here && there && !ChangedAlike(b, l, r))
            && (v == Noop <==> (!here && !there) || (here && there && ChangedAlike(b, l, r)))
    ensures var v := CompareFile(b, l, r);
            v.Clash? ==> v.reason == if l.None? then "local-delete-vs-remote-modify"
                                     else if r.None? then "local-modify-vs-remote-delete"
                                     else "modify-vs-modify"
  {
  }

  /** A file compared whole counts one push if local alone changed, one pull if remote alone did, one conflict if they clash. */
  lemma WholeFileCounts(path: string, b: Option<Entry>, l: Option<Entry>, r: Option<Entry>)
    ensures var t, here, there := CountOp(MirrorOp(CompareFile(b, l, r), path)), TextsDiffer(b, l), TextsDiffer(b, r);
            && t.push == (if here && !there then 1 else 0)
            && t.pull == (if !here && there then 1 else 0)
            && t.conflicts == (if here && there && !ChangedAlike(b, l, r) then 1 else 0)
            && t.ops == [MirrorOp(CompareFile(b, l, r), path)] && t.mergeConflicts == [] && t.changedKeys == []
  {
    CompareFileIs(b, l, r);
  }

  // ----- Files compared by key -----

  // An absent side takes part in any comparison.
  predicate HoldsJson(round: Rounding, e: Option<Entry>) {
    e.Some? ==> e.value.kind == Json && Parse(round, e.value.content).Parsed?
  }

  predicate ByKey(round: Rounding, b: Option<Entry>, l: Option<Entry>, r: Option<Entry>) {
    HoldsJson(round, b) && HoldsJson(round, l) && HoldsJson(round, r) && (l.Some? || r.Some?)
  }

  lemma ByKeyIsNotWhole(round: Rounding, b: Option<Entry>, l: Option<Entry>, r: Option<Entry>)
    ensures ByKey(round, b, l, r) <==> !Degraded(round, b) && !Degraded(round, l) && !Degraded(round, r) && (l.Some? || r.Some?)
  {
    hide Parse;
  }

  /** Mirrored files, and files one side of which is raw or malformed, are compared whole; a file both sides dropped counts nothing else. */
  lemma ComparedWhole(round: Rounding, mode: string, b: Files, l: Files, r: Files, path: string)
    ensures var x, y, z := EntryAt(b, path), EntryAt(l, path), EntryAt(r, path);
            var whole := mode == "mirror" || !HoldsJson(round, x) || !HoldsJson(round, y) || !HoldsJson(round, z);
            FileTally(round, mode, b, l, r, path) ==
              if whole then CountOp(MirrorOp(CompareFile(x, y, z), path))
              else if y.None? && z.None? then NO_TALLY
              else MergeFile(round, path, x, y, z)
  {
    hide Parse, DiffJSON, MergeJSON, RemoteSide, CompareFile;
  }

  function SlotOf(round: Rounding, e: Option<Entry>): Slot { Present(ValueOf(round, e)) }

  /** The pushes are the paths at which local differs from base, whatever remote did; an absent side counts as the empty object. */
  lemma PushesAreLocalPaths(round: Rounding, path: string, b: Option<Entry>, l: Option<Entry>, r: Option<Entry>) returns (paths: set<Path>)
    requires ByKey(round, b, l, r)
    ensures forall p: Path :: p in paths <==> Differs(SlotOf(round, b), SlotOf(round, l), p)
    ensures MergeFile(round, path, b, l, r).push == |paths|
    ensures forall k :: k in MergeFile(round, path, b, l, r).changedKeys <==> exists p :: p in paths && k == path + ":" + Label(p)
  {
    hide Degraded, Parse, ValueOf, DiffJSON, MergeJSON, RemoteOnly, Differs, Label;
    ByKeyIsNotWhole(round, b, l, r);
    paths := DiffTotal(ValueOf(round, b), ValueOf(round, l));
    RemoteSideCountsNoPush(round, path, b, l, r);
    DiffKeysAreLabels(ValueOf(round, b), ValueOf(round, l));
    PrefixedAre(path, DiffJSON(ValueOf(round, b), ValueOf(round, l)).keys);
  }

  lemma PrefixedAre(path: string, keys: seq<string>)
    ensures forall x :: x in Prefixed(path, keys) <==> exists k :: k in keys && x == path + ":" + k
  {
    forall k | k in keys ensures path + ":" + k in Prefixed(path, keys) {
      var i :| 0 <= i < |keys| && keys[i] == k;
      assert Prefixed(path, keys)[i] == path + ":" + k;
    }
  }

  lemma RemoteSideCountsNoPush(round: Rounding, path: string, b: Option<Entry>, l: Option<Entry>, r: Option<Entry>)
    ensures forall localKeys :: RemoteSide(round, path, b, l, r, localKeys).push == 0 && RemoteSide(round, path, b, l, r, localKeys).changedKeys == []
  {
    hide ValueOf, DiffJSON, MergeJSON;
    forall localKeys ensures RemoteSide(round, path, b, l, r, localKeys).push == 0 && RemoteSide(round, path, b, l, r, localKeys).changedKeys == [] {
      RemoteOnlyIsMissing(path, DiffJSON(ValueOf(round, b), ValueOf(round, r)).keys, localKeys);
    }
  }

  /** A side is missing: what the file counts besides its pushes. */
  lemma PartialFileCounts(round: Rounding, path: string, b: Option<Entry>, l: Option<Entry>, r: Option<Entry>)
    requires ByKey(round, b, l, r) && (b.None? || l.None? || r.None?)
    ensures var t := MergeFile(round, path, b, l, r);
            var lone := b.None? && l.None?;
            var dropped := b.Some? && l.Some? && r.None? && DeepEqual(ValueOf(round, b), ValueOf(round, l));
            var clash := TextsDiffer(b, r) && !lone && !dropped && (l.Some? && r.Some? ==> TextsDiffer(l, r));
            && t.ops == (if lone then [MirrorOp(Pull, path)] else if dropped then [MirrorOp(PullDelete, path)] else [])
            && t.pull == |t.ops|
            && t.mergeConflicts == (if clash then [FileConflict(path, path, if b.None? then "both-modified" else "modify-vs-delete", None, None, None)] else [])
            && t.conflicts == |t.mergeConflicts|
  {
    hide Degraded, Parse, ValueOf, MergeJSON, Prefixed;
    ByKeyIsNotWhole(round, b, l, r);
    DiffKeysAreLabels(ValueOf(round, b), ValueOf(round, l));
    hide DiffJSON;
  }

  /** All sides are there: one pull per path remote changed under a label local did not, one conflict per irreconcilable path. */
  lemma FullFileCounts(round: Rounding, path: string, b: Option<Entry>, l: Option<Entry>, r: Option<Entry>) returns (paths: set<Path>)
    requires ByKey(round, b, l, r) && b.Some? && l.Some? && r.Some?
    ensures forall p: Path :: p in paths <==>
              Differs(SlotOf(round, b), SlotOf(round, r), p)
              && !exists q: Path :: Differs(SlotOf(round, b), SlotOf(round, l), q) && Label(q) == Label(p)
    ensures var t := MergeFile(round, path, b, l, r);
            && t.pull == |paths|
            && (forall op :: op in t.ops <==> exists p :: p in paths && op == MirrorOp(Pull, path + ":" + Label(p)))
            && t.conflicts == |t.mergeConflicts| == |MergeSlot([], SlotOf(round, b), SlotOf(round, l), SlotOf(round, r)).conflicts|
  {
    hide Degraded, Parse, ValueOf, DiffJSON, MergeSlot, RemoteOnly, Differs, Label, Prefixed;
    ByKeyIsNotWhole(round, b, l, r);
    var vb, vl, vr := ValueOf(round, b), ValueOf(round, l), ValueOf(round, r);
    paths := RemoteOnlyCountsPaths(path, vb, vl, vr);
    RemoteOnlyIsMissing(path, DiffJSON(vb, vr).keys, DiffJSON(vb, vl).keys);
    DiffKeysAreLabels(vb, vl);
    DiffKeysAreLabels(vb, vr);
  }

  /**
   The conflicts listed for a file are the merge's in order; each names the file and carries the
   dotted path, the reason, and each side's value there.
   */
  lemma ListedConflictsAre(round: Rounding, path: string, b: Option<Entry>, l: Option<Entry>, r: Option<Entry>, i: nat)
    requires ByKey(round, b, l, r) && b.Some? && l.Some? && r.Some?
    requires i < |MergeFile(round, path, b, l, r).mergeConflicts|
    ensures var sb, sl, sr := SlotOf(round, b), SlotOf(round, l), SlotOf(round, r);
            var cs := MergeSlot([], sb, sl, sr).conflicts;
            var x := MergeFile(round, path, b, l, r).mergeConflicts[i];
            && i < |cs| && x.file == path && x.base.Some? && x.local.Some? && x.remote.Some?
            && var p := cs[i].path;
               && x.keyPath == Render(p) && ReasonAt(sb, sl, sr, p) == Because(x.reason)
               && Carries(At(sb, p), x.base.value) && Carries(At(sl, p), x.local.value) && Carries(At(sr, p), x.remote.value)
  {
    hide Degraded, Parse, ValueOf, DiffJSON, RemoteOnly, Prefixed, MergeSlot, Render;
    ByKeyIsNotWhole(round, b, l, r);
    var sb, sl, sr := SlotOf(round, b), SlotOf(round, l), SlotOf(round, r);
    RemoteOnlyIsMissing(path, DiffJSON(sb.v, sr.v).keys, DiffJSON(sb.v, sl.v).keys);
    var cs := MergeSlot([], sb, sl, sr).conflicts;
    assert MergeFile(round, path, b, l, r).mergeConflicts == KeyConflicts(path, cs);
    ConflictsCarryTheSides(sb, sl, sr, cs[i]);
    ConflictsAreExact([], sb, sl, sr, cs[i]);
    assert cs[i].path[0..] == cs[i].path;
  }
}
