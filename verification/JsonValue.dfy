/**
 JSON values as the merge engine sees them: objects remember their property order, numbers are
 kept in the normal form of the IEEE-754 value they denote, and strings are byte sequences
 (every Go string is modelled as a `string` whose characters are bytes).
 */
module JsonValue {
  import opened Keys

  // The IEEE-754 number a literal denotes, spelled by its shortest decimal digits:
  // Finite(neg, "d1d2..dk", e) stands for d1.d2..dk times ten to the e.
  datatype Number =
    | Zero(neg: bool)
    | Finite(neg: bool, digits: string, exponent: int)
    | Infinite(neg: bool)

  // `keys` is the first-seen order of the members and `m` holds their values. Parsed objects keep
  // the two in step; hand-built ones need not.
  datatype Value =
    | Null
    | Bool(b: bool)
    | Num(n: Number)
    | Str(s: string)
    | Arr(items: seq<Value>)
    | Obj(keys: seq<string>, m: map<string, Value>)

  const EMPTY_OBJECT := Obj([], map[])

  // Adds a member, or replaces its value in place.
  function PutObject(o: Value, key: string, v: Value): Value
    requires o.Obj?
  {
    Obj(if key in o.m then o.keys else o.keys + [key], o.m[key := v])
  }

  /** The members of an object, each once: the listed keys, then map-only keys in byte order. */
  function ObjectKeys(o: Value): (r: seq<string>)
    requires o.Obj?
    ensures Distinct(r) && forall k :: k in r <==> k in o.m
  {
    var listed := AppendNew([], Filter(o.keys, o.m.Keys));
    AppendNew(listed, Sorted(o.m.Keys - set k | k in listed))
  }

  /** JSON value equality: member order is not semantic, array order is. */
  predicate DeepEqual(a: Value, b: Value) {
    match a
    case Null => b.Null?
    case Bool(x) => b.Bool? && x == b.b
    case Num(n) => b.Num? && n == b.n
    case Str(s) => b.Str? && s == b.s
    case Arr(items) =>
      && b.Arr? && |items| == |b.items|
      && forall i :: 0 <= i < |items| ==> DeepEqual(items[i], b.items[i])
    case Obj(_, m) =>
      && b.Obj? && |m| == |b.m|
      && forall k :: k in m ==> k in b.m && DeepEqual(m[k], b.m[k])
  }

  lemma SubsetOfEqualSize<T>(a: set<T>, b: set<T>)
    requires a <= b && |a| == |b|
    ensures a == b
  {
    assert b == a + (b - a);
  }

  // Equal objects have the same members: DeepEqual itself only compares the counts.
  lemma DeepEqualKeys(a: Value, b: Value)
    requires a.Obj? && DeepEqual(a, b)
    ensures b.Obj? && a.m.Keys == b.m.Keys
  {
    assert |a.m.Keys| == |a.m| && |b.m.Keys| == |b.m|;
    SubsetOfEqualSize(a.m.Keys, b.m.Keys);
  }

  lemma {:induction false} DeepEqualReflexive(a: Value)
    ensures DeepEqual(a, a)
  {
    match a
    case Arr(items) => forall i | 0 <= i < |items| { DeepEqualReflexive(items[i]); }
    case Obj(_, m) => forall k | k in m { DeepEqualReflexive(m[k]); }
    case _ =>
  }

  lemma {:induction false} DeepEqualSymmetric(a: Value, b: Value)
    requires DeepEqual(a, b)
    ensures DeepEqual(b, a)
  {
    match a
    case Arr(items) => forall i | 0 <= i < |items| { DeepEqualSymmetric(items[i], b.items[i]); }
    case Obj(_, m) =>
      DeepEqualKeys(a, b);
      forall k | k in m { DeepEqualSymmetric(m[k], b.m[k]); }
    case _ =>
  }

  lemma {:induction false} DeepEqualTransitive(a: Value, b: Value, c: Value)
    requires DeepEqual(a, b) && DeepEqual(b, c)
    ensures DeepEqual(a, c)
  {
    match a
    case Arr(items) => forall i | 0 <= i < |items| { DeepEqualTransitive(items[i], b.items[i], c.items[i]); }
    case Obj(_, m) => forall k | k in m { DeepEqualTransitive(m[k], b.m[k], c.m[k]); }
    case _ =>
  }

  // A slot is a place in a tree that may hold a value; JSON null is a value, not an absence.
  datatype Slot = Absent | Present(v: Value) {
    predicate IsObject() { Present? && v.Obj? }
    predicate IsArray() { Present? && v.Arr? }
    // A leaf is anything the merge treats as atomic.
    predicate IsLeaf() { Present? && !v.Obj? }
    function OrNull(): Value { if Present? then v else Null }
  }

  type Path = seq<string>

  function Child(s: Slot, key: string): Slot {
    if s.IsObject() && key in s.v.m then Present(s.v.m[key]) else Absent
  }

  function At(s: Slot, p: Path): Slot
    decreases |p|
  {
    if p == [] then s else At(Child(s, p[0]), p[1..])
  }

  predicate SameSlot(a: Slot, b: Slot) {
    a.Present? == b.Present? && (a.Present? ==> DeepEqual(a.v, b.v))
  }

  lemma SameReflexive(a: Slot)
    ensures SameSlot(a, a)
  {
    if a.Present? { DeepEqualReflexive(a.v); }
  }

  lemma SameSymmetric(a: Slot, b: Slot)
    requires SameSlot(a, b)
    ensures SameSlot(b, a)
  {
    if a.Present? { DeepEqualSymmetric(a.v, b.v); }
  }

  lemma SameTransitive(a: Slot, b: Slot, c: Slot)
    requires SameSlot(a, b) && SameSlot(b, c)
    ensures SameSlot(a, c)
  {
    if a.Present? { DeepEqualTransitive(a.v, b.v, c.v); }
  }

  lemma SameChild(a: Slot, b: Slot, key: string)
    requires SameSlot(a, b)
    ensures SameSlot(Child(a, key), Child(b, key))
  {
    if a.IsObject() { DeepEqualKeys(a.v, b.v); }
  }

  lemma {:induction false} SameAt(a: Slot, b: Slot, p: Path)
    requires SameSlot(a, b)
    ensures SameSlot(At(a, p), At(b, p))
    decreases |p|
  {
    if p != [] {
      SameChild(a, b, p[0]);
      SameAt(Child(a, p[0]), Child(b, p[0]), p[1..]);
    }
  }

  // Two objects are equal exactly when every child slot is.
  lemma SameObjects(a: Slot, b: Slot)
    requires a.IsObject() && b.IsObject()
    requires forall k :: SameSlot(Child(a, k), Child(b, k))
    ensures SameSlot(a, b)
  {
    forall k ensures (k in a.v.m <==> k in b.v.m) && (k in a.v.m ==> DeepEqual(a.v.m[k], b.v.m[k])) {
      assert SameSlot(Child(a, k), Child(b, k));
    }
    assert a.v.m.Keys == b.v.m.Keys;
    assert |a.v.m| == |a.v.m.Keys| == |b.v.m|;
  }
}
