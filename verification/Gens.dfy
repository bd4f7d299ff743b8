/**
 The hub's generations on disk: a publish builds a tree in a staging directory, renames it into
 place, and then flips HEAD. It may stop at any file-system change, by a crash or by an error.
 */
module Gens {

  datatype Option<T> = None | Some(value: T)

  datatype Tree = Tree(files: map<string, string>, meta: Option<string>)

  /** HEAD is `None` while it is missing or names no generation. */
  datatype Disk = Disk(head: Option<nat>, generations: map<nat, Tree>, staging: map<nat, Tree>, headTmp: Option<nat>)

  /**
   One call: what to publish, whether all its paths are safe, how many file-system changes it gets
   to make, the text a file is left with when it stops in the middle of writing it, and which
   left-over files of the staging directory could not be removed.
   */
  datatype Call = Call(store: map<string, string>, meta: string, safe: bool, steps: nat, torn: string, stuck: set<string>)

  function Current(d: Disk): nat { if d.head.Some? then d.head.value else 0 }

  /** What an earlier attempt leaves in the staging directory once it was cleared. */
  function Leftover(d: Disk, stuck: set<string>): map<string, string> {
    var next := Current(d) + 1;
    if next in d.staging then map f | f in d.staging[next].files && f in stuck :: d.staging[next].files[f] else map[]
  }

  /** Left-over files, and over them those of the store that have been written. */
  function Filled(left: map<string, string>, store: map<string, string>, written: set<string>): map<string, string> {
    left + (map f | f in store && f in written :: store[f])
  }

  lemma FilledWhole(left: map<string, string>, store: map<string, string>)
    ensures Filled(left, store, {}) == left
    ensures Filled(left, store, store.Keys) == left + store
  {
    assert (map f | f in store && f in store.Keys :: store[f]) == store;
  }

  lemma FilledMore(left: map<string, string>, store: map<string, string>, written: set<string>, f: string)
    requires f in store
    ensures Filled(left, store, written)[f := store[f]] == Filled(left, store, written + {f})
  {
  }

  /** The staging area while files are still to be written. */
  function Halfway(staging: map<nat, Tree>, next: nat, left: map<string, string>, store: map<string, string>, todo: set<string>): (r: map<nat, Tree>)
    ensures next in r
  {
    staging[next := Tree(Filled(left, store, store.Keys - todo), None)]
  }

  lemma WholeWay(was: map<nat, Tree>, next: nat, left: map<string, string>, store: map<string, string>)
    ensures next in was && was[next] == Tree(left, None) ==> Halfway(was, next, left, store, store.Keys) == was
    ensures Halfway(was, next, left, store, {}) == was[next := Tree(left + store, None)]
  {
    hide Filled;
    FilledWhole(left, store);
    assert store.Keys - store.Keys == {} && store.Keys - {} == store.Keys;
  }

  lemma OneMore(was: map<nat, Tree>, next: nat, left: map<string, string>, store: map<string, string>, todo: set<string>, f: string)
    requires f in store && f in todo && todo <= store.Keys
    ensures var staging := Halfway(was, next, left, store, todo);
            staging[next := Tree(staging[next].files[f := store[f]], None)] == Halfway(was, next, left, store, todo - {f})
  {
    hide Filled;
    assert store.Keys - (todo - {f}) == store.Keys - todo + {f};
    FilledMore(left, store, store.Keys - todo, f);
  }

  /** The finished tree. */
  function Built(d: Disk, call: Call): Tree { Tree(Leftover(d, call.stuck) + call.store, Some(call.meta)) }

  /** The changes a publish makes: clear, create, one per file, the metadata, the tree, HEAD's new text, HEAD. */
  function Steps(call: Call): nat { |call.store| + 6 }

  /** Whether the tree gets its place among the generations. */
  predicate Placed(d: Disk, call: Call) {
    call.safe && Current(d) + 1 !in d.generations && call.steps >= Steps(call) - 2
  }

  /** A store half written: some files whole, one torn. */
  ghost predicate HalfWritten(left: map<string, string>, call: Call, count: int, tree: Tree) {
    exists written: set<string>, f ::
      && written <= call.store.Keys && |written| == count && f in call.store.Keys - written
      && tree == Tree(Filled(left, call.store, written)[f := call.torn], None)
  }

  /** The staging area once the files were written, or one of them was torn. */
  ghost predicate Wrote(was: map<nat, Tree>, next: nat, left: map<string, string>, call: Call, staging: map<nat, Tree>) {
    && next in staging && staging == was[next := staging[next]]
    && if call.steps - 2 < |call.store| then HalfWritten(left, call, call.steps - 2, staging[next])
       else staging[next] == Tree(left + call.store, None)
  }

  lemma WroteAll(was: map<nat, Tree>, next: nat, left: map<string, string>, call: Call)
    requires call.steps - 2 >= |call.store|
    ensures Wrote(was, next, left, call, Halfway(was, next, left, call.store, {}))
  {
    hide Halfway;
    WholeWay(was, next, left, call.store);
  }

  lemma Torn(was: map<nat, Tree>, next: nat, left: map<string, string>, call: Call, todo: set<string>, f: string)
    requires f in todo && todo <= call.store.Keys && call.steps - 2 == |call.store| - |todo|
    ensures var staging := Halfway(was, next, left, call.store, todo);
            Wrote(was, next, left, call, staging[next := Tree(staging[next].files[f := call.torn], None)])
  {
    hide Filled;
    var written := call.store.Keys - todo;
    assert written + todo == call.store.Keys && |written| == |call.store.Keys| - |todo|;
    assert f in call.store.Keys - written && |todo| > 0;
  }

  /** What a publish that was not placed leaves in its staging directory. */
  ghost predicate Abandoned(d: Disk, call: Call, tree: Tree)
    requires call.steps > 0
  {
    var left := Leftover(d, call.stuck);
    if call.steps == 1 then tree == Tree(left, None)
    else if call.steps - 2 < |call.store| then HalfWritten(left, call, call.steps - 2, tree)
    else if call.steps - 2 == |call.store| then tree == Tree(left + call.store, None)
    else tree == Built(d, call)
  }

  ghost predicate StagedIn(d: Disk, call: Call, staging: map<nat, Tree>)
    requires call.steps > 0
  {
    var next := Current(d) + 1;
    next in staging && Abandoned(d, call, staging[next]) && staging == d.staging[next := staging[next]]
  }

  /** Where a publish may leave the disk: all but the order in which it writes the files is fixed. */
  ghost predicate Publishes(d: Disk, call: Call, e: Disk) {
    var next := Current(d) + 1;
    && e.generations == (if Placed(d, call) then d.generations[next := Built(d, call)] else d.generations)
    && e.head == (if Placed(d, call) && call.steps >= Steps(call) then Some(next) else d.head)
    && e.headTmp ==
      (if !Placed(d, call) || call.steps == Steps(call) - 2 then d.headTmp else if call.steps < Steps(call) then Some(next) else None)
    && (if !call.safe || call.steps == 0 then e.staging == d.staging
        else if Placed(d, call) then e.staging == d.staging - {next}
        else StagedIn(d, call, e.staging))
  }

  lemma EmptyStaged(d: Disk, call: Call)
    requires call.steps == 1
    ensures StagedIn(d, call, d.staging[Current(d) + 1 := Tree(Leftover(d, call.stuck), None)])
  {
    hide Leftover;
  }

  lemma StoreStaged(d: Disk, call: Call, staging: map<nat, Tree>)
    requires call.steps >= 2
    requires var next, left := Current(d) + 1, Leftover(d, call.stuck);
             Wrote(d.staging[next := Tree(left, None)], next, left, call, staging)
    ensures var next := Current(d) + 1;
            if call.steps - 2 <= |call.store| then StagedIn(d, call, staging)
            else next in staging && StagedIn(d, call, staging[next := Tree(staging[next].files, Some(call.meta))])
  {
    hide Leftover, HalfWritten;
  }

  lemma NothingDone(d: Disk, call: Call)
    requires !call.safe || call.steps == 0
    ensures Publishes(d, call, d)
  {
  }

  lemma NotPlaced(d: Disk, call: Call, staging: map<nat, Tree>)
    requires call.safe && !Placed(d, call)
    requires call.steps == 0 ==> staging == d.staging
    requires call.steps > 0 ==> StagedIn(d, call, staging)
    ensures Publishes(d, call, d.(staging := staging))
  {
  }

  /** The disk right after the tree got its place. */
  function WithTree(d: Disk, tree: Tree): Disk {
    d.(generations := d.generations[Current(d) + 1 := tree], staging := d.staging - {Current(d) + 1})
  }

  lemma GetsPlaced(d: Disk, call: Call, staging: map<nat, Tree>)
    requires Placed(d, call) && StagedIn(d, call, staging)
    ensures staging[Current(d) + 1] == Built(d, call) && staging - {Current(d) + 1} == d.staging - {Current(d) + 1}
    ensures var e, next := WithTree(d, Built(d, call)), Current(d) + 1;
            && (call.steps == Steps(call) - 2 ==> Publishes(d, call, e))
            && (call.steps == Steps(call) - 1 ==> Publishes(d, call, e.(headTmp := Some(next))))
            && (call.steps >= Steps(call) ==> Publishes(d, call, e.(head := Some(next), headTmp := None)))
  {
    hide Built;
  }

  class Layout {
    var head: Option<nat>
    var generations: map<nat, Tree>
    var staging: map<nat, Tree>
    var headTmp: Option<nat>

    constructor ()
      ensures View() == Disk(None, map[], map[], None)
    {
      head, generations, staging, headTmp := None, map[], map[], None;
    }

    function View(): Disk
      reads this
    {
      Disk(head, generations, staging, headTmp)
    }

    method Read() returns (generation: Option<nat>, tree: Option<Tree>)
      ensures generation == head
      ensures tree == if head.Some? && head.value in generations then Some(generations[head.value]) else None
    {
      generation := head;
      tree := None;
      if head.Some? && head.value in generations {
        tree := Some(generations[head.value]);
      }
    }

    /** Publishes the store, unless it is refused, stopped, or finds its place taken. */
    method Publish(call: Call) returns (published: Option<nat>)
      modifies this
      ensures Publishes(old(View()), call, View())
      ensures published.Some? <==>
              call.safe && Current(old(View())) + 1 !in old(generations) && call.steps >= Steps(call)
      ensures published.Some? ==> published == head
    {
      hide Built, Abandoned, Publishes;
      ghost var d := View();
      published := None;
      var next := if head.Some? then head.value + 1 else 1;
      if !call.safe {
        NothingDone(d, call);
        return;
      }
      var staged := Stage(next, call);
      if !staged || call.steps - 3 == |call.store| || next in generations {
        NotPlaced(d, call, staging);
        return;
      }
      GetsPlaced(d, call, staging);
      generations, staging := generations[next := staging[next]], staging - {next};
      if call.steps - 4 == |call.store| {
        return;
      }
      headTmp := Some(next);
      if call.steps - 5 == |call.store| {
        return;
      }
      head, headTmp := headTmp, None;
      published := Some(next);
    }

    /** Builds the tree in the staging directory, where no reader looks. */
    method Stage(next: nat, call: Call) returns (done: bool)
      requires next == Current(View()) + 1
      modifies this`staging
      ensures done == (call.steps >= |call.store| + 3)
      ensures call.steps == 0 ==> staging == old(staging)
      ensures call.steps > 0 ==> StagedIn(old(View()), call, staging)
    {
      hide Leftover, Wrote, StagedIn, Built;
      ghost var d := View();
      if call.steps == 0 {
        return false;
      }
      var left := Leftover(View(), call.stuck);
      staging := staging[next := Tree(left, None)];
      if call.steps == 1 {
        EmptyStaged(d, call);
        return false;
      }
      done := WriteFiles(next, left, call);
      StoreStaged(d, call, staging);
      if !done || call.steps - 2 == |call.store| {
        return false;
      }
      staging := staging[next := Tree(staging[next].files, Some(call.meta))];
    }

    method WriteFile(next: nat, f: string, content: string)
      requires next in staging
      modifies this`staging
      ensures staging == old(staging)[next := Tree(old(staging)[next].files[f := content], None)]
    {
      staging := staging[next := Tree(staging[next].files[f := content], None)];
    }

    method WriteFiles(next: nat, left: map<string, string>, call: Call) returns (done: bool)
      requires next in staging && staging[next] == Tree(left, None) && call.steps >= 2
      modifies this`staging
      ensures done == (call.steps - 2 >= |call.store|)
      ensures Wrote(old(staging), next, left, call, staging)
    {
      hide Halfway, Wrote;
      ghost var was := staging;
      WholeWay(was, next, left, call.store);
      var steps := call.steps - 2;
      var todo := call.store.Keys;
      while todo != {}
        invariant todo <= call.store.Keys && steps >= 0 && steps + |call.store| - |todo| == call.steps - 2
        invariant staging == Halfway(was, next, left, call.store, todo)
        decreases |todo|
      {
        var f :| f in todo;
        if steps == 0 {
          Torn(was, next, left, call, todo, f);
          WriteFile(next, f, call.torn);
          return false;
        }
        OneMore(was, next, left, call.store, todo, f);
        WriteFile(next, f, call.store[f]);
        todo := todo - {f};
        steps := steps - 1;
      }
      WroteAll(was, next, left, call);
      return true;
    }
  }

  // ----- Runs -----

  /** The disks between the calls of a run: whatever each call did to the staging area. */
  ghost predicate Run(disks: seq<Disk>, calls: seq<Call>) {
    && |disks| == |calls| + 1
    && disks[0].head == None && disks[0].generations == map[]
    && forall i :: 0 <= i < |calls| ==> Publishes(disks[i], calls[i], disks[i + 1])
  }

  // Some call of the run put this tree in place.
  ghost predicate CameFromAt(disks: seq<Disk>, calls: seq<Call>, n: nat, tree: Tree, i: int) {
    0 <= i < |calls| && i < |disks| && Current(disks[i]) + 1 == n && tree == Built(disks[i], calls[i])
  }

  ghost predicate CameFrom(disks: seq<Disk>, calls: seq<Call>, n: nat, tree: Tree) {
    exists i :: CameFromAt(disks, calls, n, tree, i)
  }

  ghost predicate Shaped(disks: seq<Disk>, calls: seq<Call>, d: Disk) {
    && (d.head.Some? ==> d.head.value in d.generations)
    && (forall n :: n in d.generations ==> n <= Current(d) + 1 && CameFrom(disks, calls, n, d.generations[n]))
  }

  lemma ShapeStep(disks: seq<Disk>, calls: seq<Call>, k: nat)
    requires k < |calls| == |disks| - 1 && Shaped(disks, calls, disks[k]) && Publishes(disks[k], calls[k], disks[k + 1])
    ensures Shaped(disks, calls, disks[k + 1])
  {
    hide Built, Steps, Leftover;
    assert CameFromAt(disks, calls, Current(disks[k]) + 1, Built(disks[k], calls[k]), k);
  }

  lemma {:induction false} Shape(disks: seq<Disk>, calls: seq<Call>, k: nat)
    requires Run(disks, calls) && k < |disks|
    ensures Shaped(disks[..k + 1], calls[..k], disks[k])
  {
    hide Built, Steps, Leftover, Publishes;
    if k > 0 {
      Shape(disks, calls, k - 1);
      var before, past := disks[..k + 1], calls[..k];
      var d := disks[k - 1];
      forall n | n in d.generations ensures CameFrom(before, past, n, d.generations[n]) {
        var i :| CameFromAt(disks[..k], calls[..k - 1], n, d.generations[n], i);
        assert CameFromAt(before, past, n, d.generations[n], i);
      }
      ShapeStep(before, past, k - 1);
    }
  }

  /**
   HEAD, once written, names a complete tree: one published store, whole, with its metadata. It holds
   nothing else exactly if the files that could not be cleared were all written over.
   */
  lemma HeadNamesAPublishedTree(disks: seq<Disk>, calls: seq<Call>, k: nat)
    requires Run(disks, calls) && k < |disks| && disks[k].head.Some?
    ensures disks[k].head.value in disks[k].generations
    ensures exists i :: 0 <= i < k &&
              var tree := disks[k].generations[disks[k].head.value];
              && tree == Built(disks[i], calls[i])
              && tree.meta == Some(calls[i].meta)
              && (forall f :: f in calls[i].store ==> f in tree.files && tree.files[f] == calls[i].store[f])
              && (tree.files == calls[i].store <==> Leftover(disks[i], calls[i].stuck).Keys <= calls[i].store.Keys)
  {
    hide Built, Leftover, Steps, Publishes;
    var before, past := disks[..k + 1], calls[..k];
    Shape(disks, calls, k);
    var n := disks[k].head.value;
    var i :| CameFromAt(before, past, n, disks[k].generations[n], i);
    assert before[i] == disks[i] && past[i] == calls[i];
    BuiltHolds(disks[i], calls[i]);
  }

  lemma BuiltHolds(d: Disk, call: Call)
    ensures Built(d, call).meta == Some(call.meta)
    ensures forall f :: f in call.store ==> f in Built(d, call).files && Built(d, call).files[f] == call.store[f]
    ensures Built(d, call).files == call.store <==> Leftover(d, call.stuck).Keys <= call.store.Keys
  {
    hide Leftover;
    var left := Leftover(d, call.stuck);
    if left.Keys <= call.store.Keys {
      assert Built(d, call).files == call.store;
    } else {
      var f :| f in left && f !in call.store;
      assert f in Built(d, call).files;
    }
  }

  // ----- Where other files in a published tree come from -----

  /** An earlier call, for the same generation, had this file in its store. */
  ghost predicate TriedAt(disks: seq<Disk>, calls: seq<Call>, n: nat, f: string, i: int) {
    0 <= i < |calls| && i < |disks| && calls[i].safe && Current(disks[i]) + 1 == n && f in calls[i].store
  }

  ghost predicate Tried(disks: seq<Disk>, calls: seq<Call>, k: nat, n: nat, f: string) {
    exists i :: i < k && TriedAt(disks, calls, n, f, i)
  }

  predicate Staged(d: Disk, n: nat, f: string) { n in d.staging && f in d.staging[n].files }

  lemma AbandonedFiles(d: Disk, call: Call, tree: Tree, f: string)
    requires call.steps > 0 && Abandoned(d, call, tree) && f in tree.files
    ensures Staged(d, Current(d) + 1, f) || f in call.store
  {
    hide Leftover, HalfWritten;
    var left := Leftover(d, call.stuck);
    if f in left { LeftoverFiles(d, call.stuck, f); }
    if call.steps > 1 && call.steps - 2 < |call.store| { HalfWrittenFiles(left, call, call.steps - 2, tree, f); }
  }

  lemma LeftoverFiles(d: Disk, stuck: set<string>, f: string)
    requires f in Leftover(d, stuck)
    ensures Staged(d, Current(d) + 1, f) && f in stuck
  {
  }

  lemma HalfWrittenFiles(left: map<string, string>, call: Call, count: int, tree: Tree, f: string)
    requires HalfWritten(left, call, count, tree) && f in tree.files
    ensures f in left || f in call.store
  {
  }

  lemma StagedStep(d: Disk, call: Call, e: Disk, n: nat, f: string)
    requires Publishes(d, call, e) && Staged(e, n, f)
    ensures Staged(d, n, f) || (call.safe && Current(d) + 1 == n && f in call.store)
  {
    hide Abandoned, Built, Placed;
    var next := Current(d) + 1;
    if call.safe && call.steps > 0 && !Placed(d, call) && n == next {
      AbandonedFiles(d, call, e.staging[next], f);
    }
  }

  lemma {:induction false} StagedFilesWereTried(disks: seq<Disk>, calls: seq<Call>, k: nat, n: nat, f: string)
    requires Run(disks, calls) && k < |disks| && Staged(disks[k], n, f)
    ensures Staged(disks[0], n, f) || Tried(disks, calls, k, n, f)
  {
    hide Publishes;
    if k > 0 {
      StagedStep(disks[k - 1], calls[k - 1], disks[k], n, f);
      if Staged(disks[k - 1], n, f) {
        StagedFilesWereTried(disks, calls, k - 1, n, f);
      } else {
        assert TriedAt(disks, calls, n, f, k - 1);
      }
    }
  }

  /**
   A file of the tree HEAD names that its call did not publish was left in the staging directory by
   an earlier attempt at the same generation, and could not be cleared.
   */
  lemma ForeignFilesAreLeftovers(disks: seq<Disk>, calls: seq<Call>, k: nat)
    requires Run(disks, calls) && k < |disks| && disks[k].head.Some?
    ensures disks[k].head.value in disks[k].generations
    ensures exists i :: 0 <= i < k &&
              var n := disks[k].head.value;
              var tree := disks[k].generations[n];
              && tree == Built(disks[i], calls[i])
              && forall f :: f in tree.files && f !in calls[i].store ==>
                   f in calls[i].stuck && (Staged(disks[0], n, f) || Tried(disks, calls, i, n, f))
  {
    hide Built, Publishes;
    var before, past := disks[..k + 1], calls[..k];
    Shape(disks, calls, k);
    var n := disks[k].head.value;
    var tree := disks[k].generations[n];
    var i :| CameFromAt(before, past, n, tree, i);
    assert before[i] == disks[i] && past[i] == calls[i];
    forall f | f in tree.files && f !in calls[i].store
      ensures f in calls[i].stuck && (Staged(disks[0], n, f) || Tried(disks, calls, i, n, f))
    {
      ForeignFile(disks[i], calls[i], f);
      StagedFilesWereTried(disks, calls, i, n, f);
    }
  }

  lemma ForeignFile(d: Disk, call: Call, f: string)
    requires f in Built(d, call).files && f !in call.store
    ensures f in call.stuck && Staged(d, Current(d) + 1, f)
  {
  }

  lemma FirstStops(start: Disk, first: Call, half: Disk)
    requires start == Disk(None, map[], map[], None) && first == Call(map["old" := "x"], "m", true, 3, "", {})
    requires half == start.(staging := map[1 := Tree(map["old" := "x"], None)])
    ensures Publishes(start, first, half)
  {
    assert Leftover(start, {}) == map[] && |first.store| == 1;
    assert map[] + first.store == first.store;
  }

  lemma SecondPublishes(half: Disk, second: Call, done: Disk)
    requires half == Disk(None, map[], map[1 := Tree(map["old" := "x"], None)], None)
    requires second == Call(map["new" := "y"], "m", true, 7, "", {"old"})
    requires done == Disk(Some(1), map[1 := Tree(map["old" := "x", "new" := "y"], Some("m"))], map[], None)
    ensures Publishes(half, second, done)
  {
    assert Built(half, second) == done.generations[1] && |second.store| == 1;
    hide Built;
  }

  /** A failing clean-up is ignored, so a file of an abandoned attempt can be published with the next one. */
  lemma ForeignFileIsPublished() returns (disks: seq<Disk>, calls: seq<Call>)
    ensures Run(disks, calls) && |calls| == 2 && disks[0].staging == map[]
    ensures disks[2].head == Some(1) && 1 in disks[2].generations
    ensures "old" in disks[2].generations[1].files && "old" !in calls[1].store
  {
    hide Publishes;
    var first := Call(map["old" := "x"], "m", true, 3, "", {});
    var second := Call(map["new" := "y"], "m", true, 7, "", {"old"});
    var start := Disk(None, map[], map[], None);
    var half := start.(staging := map[1 := Tree(map["old" := "x"], None)]);
    var tree := Tree(map["old" := "x", "new" := "y"], Some("m"));
    var done := Disk(Some(1), map[1 := tree], map[], None);
    disks, calls := [start, half, done], [first, second];
    FirstStops(start, first, half);
    SecondPublishes(half, second, done);
  }

  lemma VisibleStep(d: Disk, call: Call, e: Disk)
    requires Publishes(d, call, e)
    ensures e.generations == d.generations || (Current(d) + 1 !in d.generations && e.generations == d.generations[Current(d) + 1 := Built(d, call)])
    ensures e.head == d.head || e.head == Some(Current(d) + 1)
  {
    hide Built, Abandoned;
  }

  /** A tree in place never changes, and HEAD never goes back. */
  lemma {:induction false} TreesStay(disks: seq<Disk>, calls: seq<Call>, i: nat, j: nat)
    requires Run(disks, calls) && i <= j < |disks|
    ensures forall n :: n in disks[i].generations ==> n in disks[j].generations && disks[j].generations[n] == disks[i].generations[n]
    ensures Current(disks[i]) <= Current(disks[j])
    ensures disks[i].head.Some? ==> disks[j].head.Some?
    decreases j - i
  {
    hide Built, Publishes;
    if i < j {
      TreesStay(disks, calls, i, j - 1);
      VisibleStep(disks[j - 1], calls[j - 1], disks[j]);
    }
  }

  /** The call gets past the rename of its tree but not past that of HEAD. */
  predicate StopsInBetween(call: Call) { Steps(call) - 2 <= call.steps < Steps(call) }

  /** A call that stops between its two renames ends publishing for good. */
  lemma {:induction false} StoppedInBetween(disks: seq<Disk>, calls: seq<Call>, i: nat, j: nat)
    requires Run(disks, calls) && i < j < |disks|
    requires calls[i].safe && StopsInBetween(calls[i])
    ensures disks[j].head == disks[i].head && Current(disks[i]) + 1 in disks[j].generations
    decreases j
  {
    hide Publishes, StopsInBetween;
    StopStep(disks[i], calls[i], disks[i + 1]);
    if i + 1 < j {
      StoppedInBetween(disks, calls, i, j - 1);
      TakenStep(disks[j - 1], calls[j - 1], disks[j]);
    }
  }

  lemma StopStep(d: Disk, call: Call, e: Disk)
    requires Publishes(d, call, e) && call.safe && StopsInBetween(call)
    ensures e.head == d.head && Current(d) + 1 in e.generations
  {
    hide Built, Abandoned;
  }

  // Nothing moves while the next generation's place is taken.
  lemma TakenStep(d: Disk, call: Call, e: Disk)
    requires Publishes(d, call, e) && Current(d) + 1 in d.generations
    ensures e.head == d.head && e.generations == d.generations
  {
    hide Built, Abandoned;
  }

  /** A safe call that is not stopped publishes, unless an earlier safe one has stopped between its renames. */
  lemma PublishingWorksIff(disks: seq<Disk>, calls: seq<Call>, k: nat)
    requires Run(disks, calls) && k < |calls| && calls[k].safe && calls[k].steps >= Steps(calls[k])
    ensures disks[k + 1].head == Some(Current(disks[k]) + 1)
       <==> !exists i :: 0 <= i < k && calls[i].safe && StopsInBetween(calls[i])
  {
    hide Built, Abandoned;
    assert Publishes(disks[k], calls[k], disks[k + 1]);
    if i :| 0 <= i < k && calls[i].safe && StopsInBetween(calls[i]) {
      StoppedInBetween(disks, calls, i, k);
      StoppedInBetween(disks, calls, i, k + 1);
    } else {
      NeverStopped(disks, calls, k);
    }
  }

  lemma {:induction false} NeverStopped(disks: seq<Disk>, calls: seq<Call>, k: nat)
    requires Run(disks, calls) && k < |disks|
    requires forall i :: 0 <= i < k ==> !(calls[i].safe && StopsInBetween(calls[i]))
    ensures Current(disks[k]) + 1 !in disks[k].generations
    ensures forall n :: n in disks[k].generations ==> n <= Current(disks[k])
  {
    hide Built, Abandoned;
    if k > 0 {
      NeverStopped(disks, calls, k - 1);
      assert Publishes(disks[k - 1], calls[k - 1], disks[k]);
    }
  }
}
