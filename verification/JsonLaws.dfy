/** Parsing and serializing undo each other. */
module JsonLaws {
  import opened JsonValue
  import opened Keys
  import opened JsonNumber
  import opened JsonString
  import opened JsonText

  /** What a value becomes on a trip through text: -0 loses its sign, infinities become null, members take property order. */
  function Reparsed(v: Value): Value {
    match v
    case Num(n) => if n.Infinite? then Null else if n.Zero? then Num(Zero(false)) else v
    case Arr(items) => Arr(seq(|items|, i requires 0 <= i < |items| => Reparsed(items[i])))
    case Obj(_, m) => Obj(PropertyOrder(ObjectKeys(v)), map k | k in m :: Reparsed(m[k]))
    case _ => v
  }

  // A value whose strings are well formed and whose numbers are IEEE-754 numbers.
  ghost predicate Encodable(round: Rounding, v: Value) {
    match v
    case Num(n) => Settled(round, n)
    case Str(s) => WellFormed(s)
    case Arr(items) => forall i :: 0 <= i < |items| ==> Encodable(round, items[i])
    case Obj(_, m) => forall k :: k in m ==> WellFormed(k) && Encodable(round, m[k])
    case _ => true
  }

  // No negative zero and no infinity anywhere: the values JSON text can carry.
  predicate Textual(v: Value) {
    match v
    case Num(n) => !n.Infinite? && n != Zero(true)
    case Arr(items) => forall i :: 0 <= i < |items| ==> Textual(items[i])
    case Obj(_, m) => forall k :: k in m ==> Textual(m[k])
    case _ => true
  }

  /** The trip through text preserves a value exactly when the value is textual. */
  lemma {:induction false} ReparsedIsEqualIffTextual(v: Value)
    ensures DeepEqual(Reparsed(v), v) <==> Textual(v)
  {
    hide PropertyOrder, ObjectKeys;
    match v
    case Arr(items) => forall i | 0 <= i < |items| { ReparsedIsEqualIffTextual(items[i]); }
    case Obj(_, m) =>
      assert Reparsed(v).m.Keys == m.Keys;
      assert |Reparsed(v).m| == |Reparsed(v).m.Keys| && |m| == |m.Keys|;
      forall k | k in m { ReparsedIsEqualIffTextual(m[k]); }
    case _ =>
  }

  lemma {:induction false} ReparsedIsTextual(v: Value)
    ensures Textual(Reparsed(v))
  {
    hide PropertyOrder, ObjectKeys;
    match v
    case Arr(items) => forall i | 0 <= i < |items| { ReparsedIsTextual(items[i]); }
    case Obj(_, m) => forall k | k in m { ReparsedIsTextual(m[k]); }
    case _ =>
  }

  // ----- Property order is stable -----

  predicate IndexSorted(keys: seq<string>) {
    forall i, j :: 0 <= i < j < |keys| ==> IndexValue(keys[i]) <= IndexValue(keys[j])
  }

  lemma {:induction false} InsertKeepsSorted(key: string, keys: seq<string>)
    requires IndexSorted(keys)
    ensures IndexSorted(InsertIndex(key, keys))
  {
    hide IndexValue;
    if keys != [] && IndexValue(key) > IndexValue(keys[0]) {
      InsertKeepsSorted(key, keys[1..]);
      var r := InsertIndex(key, keys[1..]);
      forall j | 0 <= j < |r| ensures IndexValue(keys[0]) <= IndexValue(r[j]) {
        assert r[j] in r;
        if r[j] != key {
          var i :| 0 <= i < |keys[1..]| && keys[1..][i] == r[j];
          assert keys[i + 1] == r[j];
        }
      }
    }
  }

  lemma {:induction false} SortIsSorted(keys: seq<string>)
    ensures IndexSorted(SortIndices(keys))
  {
    hide IndexValue;
    if keys != [] {
      SortIsSorted(keys[1..]);
      InsertKeepsSorted(keys[0], SortIndices(keys[1..]));
    }
  }

  lemma {:induction false} SortOfSorted(keys: seq<string>)
    requires IndexSorted(keys)
    ensures SortIndices(keys) == keys
  {
    hide IndexValue;
    if keys != [] {
      SortOfSorted(keys[1..]);
      assert |keys| > 1 ==> IndexValue(keys[0]) <= IndexValue(keys[1]);
    }
  }

  lemma {:induction false} SplitOrdered(a: seq<string>, b: seq<string>)
    requires (forall k :: k in a ==> IsIndex(k)) && forall k :: k in b ==> !IsIndex(k)
    ensures Indices(a + b) == a && NonIndices(a + b) == b
  {
    hide IsIndex;
    if a == [] {
      assert a + b == b;
      OnlyNonIndices(b);
    } else {
      assert (a + b)[1..] == a[1..] + b && a[0] in a;
      assert forall k :: k in a[1..] ==> k in a;
      SplitOrdered(a[1..], b);
    }
  }

  lemma {:induction false} OnlyNonIndices(b: seq<string>)
    requires forall k :: k in b ==> !IsIndex(k)
    ensures Indices(b) == [] && NonIndices(b) == b
  {
    hide IsIndex;
    if b != [] {
      assert b[0] in b;
      assert forall k :: k in b[1..] ==> k in b;
      OnlyNonIndices(b[1..]);
    }
  }

  /** The first `n` keys are the array indices in numeric order; the others follow as they were inserted. */
  lemma PropertyOrderSplits(keys: seq<string>) returns (n: nat)
    ensures n <= |PropertyOrder(keys)|
    ensures IndexSorted(PropertyOrder(keys)[..n]) && forall k :: k in PropertyOrder(keys)[..n] <==> k in keys && IsIndex(k)
    ensures PropertyOrder(keys)[n..] == NonIndices(keys)
  {
    var a := SortIndices(Indices(keys));
    n := |a|;
    assert PropertyOrder(keys)[..n] == a;
    SortIsSorted(Indices(keys));
  }

  lemma PropertyOrderIdempotent(keys: seq<string>)
    ensures PropertyOrder(PropertyOrder(keys)) == PropertyOrder(keys)
  {
    var a, b := SortIndices(Indices(keys)), NonIndices(keys);
    SortIsSorted(Indices(keys));
    SplitOrdered(a, b);
    SortOfSorted(a);
  }

  lemma KeysInStep(o: Value)
    requires o.Obj? && Distinct(o.keys) && forall k :: k in o.keys <==> k in o.m
    ensures ObjectKeys(o) == o.keys
  {
    hide Filter, AppendNew;
    FilterAll(o.keys, o.m.Keys);
    AppendNewDistinct([], o.keys);
    assert [] + o.keys == o.keys;
    assert o.m.Keys - (set k | k in o.keys) == {};
    assert o.keys + [] == o.keys;
    AppendNewDistinct(o.keys, []);
  }

  lemma ReparsedKeys(o: Value)
    requires o.Obj?
    ensures PropertyOrder(ObjectKeys(Reparsed(o))) == PropertyOrder(ObjectKeys(o))
  {
    KeysInStep(Reparsed(o));
    PropertyOrderIdempotent(ObjectKeys(o));
  }

  /** Serializing the reparsed value gives the same bytes. */
  lemma {:induction false} ReserializeIsIdentical(pretty: bool, v: Value, depth: nat)
    ensures Write(pretty, Reparsed(v), depth) == Write(pretty, v, depth)
    decreases v, 1, 0
  {
    hide PropertyOrder, ObjectKeys;
    match v
    case Arr(items) => ElementsReserialize(pretty, v, 0, depth);
    case Obj(_, m) =>
      ReparsedKeys(v);
      MembersReserialize(pretty, v, PropertyOrder(ObjectKeys(v)), depth);
    case _ =>
  }

  lemma {:induction false} ElementsReserialize(pretty: bool, v: Value, i: nat, depth: nat)
    requires v.Arr? && i <= |v.items|
    ensures WriteElements(pretty, Reparsed(v), i, depth) == WriteElements(pretty, v, i, depth)
    decreases v, 0, |v.items| - i
  {
    if i < |v.items| {
      ReserializeIsIdentical(pretty, v.items[i], depth + 1);
      ElementsReserialize(pretty, v, i + 1, depth);
    }
  }

  lemma {:induction false} MembersReserialize(pretty: bool, v: Value, keys: seq<string>, depth: nat)
    requires v.Obj? && forall k :: k in keys ==> k in v.m
    ensures WriteMembers(pretty, Reparsed(v), keys, depth) == WriteMembers(pretty, v, keys, depth)
    decreases v, 0, |keys|
  {
    if keys != [] {
      ReserializeIsIdentical(pretty, v.m[keys[0]], depth + 1);
      MembersReserialize(pretty, v, keys[1..], depth);
    }
  }

  // ----- Reading back what was written -----

  lemma {:induction false} SkipsBlank(blank: string, s: string)
    requires (forall c :: c in blank ==> IsSpace(c)) && (s != "" ==> !IsSpace(s[0]))
    ensures SkipSpace(blank + s) == s
  {
    if blank == "" {
      assert blank + s == s;
    } else {
      assert blank[0] in blank && (blank + s)[1..] == blank[1..] + s;
      SkipsBlank(blank[1..], s);
    }
  }

  lemma FirstOfLayout(digits: string, exponent: int)
    requires NormalDigits(digits)
    ensures Layout(digits, exponent) != "" && IsDigit(Layout(digits, exponent)[0])
  {
    var point := exponent + 1;
    if -6 <= exponent < 21 && 0 < point < |digits| {
      assert Layout(digits, exponent)[0] == digits[0];
    } else if -6 <= exponent < 21 && 0 < point {
      assert Layout(digits, exponent)[0] == digits[0];
    }
  }

  // A token does not open with white space or with a closing bracket.
  lemma WriteIsToken(pretty: bool, v: Value, depth: nat)
    requires v.Num? ==> Normal(v.n)
    ensures Write(pretty, v, depth) != "" && !IsSpace(Write(pretty, v, depth)[0]) && Write(pretty, v, depth)[0] !in {']', '}', ','}
  {
    hide PropertyOrder, ObjectKeys, Layout, WriteMembers, WriteElements, WriteChars;
    if v.Num? && v.n.Finite? { FirstOfLayout(v.n.digits, v.n.exponent); }
  }

  lemma ExactOfZero(neg: bool)
    ensures Exact(Literal(neg, "0", "", false, "")) == Zero(neg)
  {
    assert "0" + "" == "0" && "0"[1..] == "";
    assert LeadingZeros("0") == 1 by { assert LeadingZeros("") == 0; }
  }

  lemma ZeroIsLiteral(rest: string)
    requires EndsNumber(rest)
    ensures ParseLiteral("0" + rest) == Ok(Literal(false, "0", "", false, ""), rest)
  {
    hide ParseLiteral;
    var lit := Literal(false, "0", "", false, "");
    SpelledReadsBack(lit, rest);
    assert Spell(lit, rest) == "0" + rest;
  }

  lemma ZeroReads(round: Rounding, rest: string)
    requires EndsNumber(rest)
    ensures ParseNumber(round, "0" + rest) == Ok(Num(Zero(false)), rest)
  {
    hide ParseLiteral, Exact, EndsNumber;
    ZeroIsLiteral(rest);
    ExactOfZero(false);
  }

  lemma FiniteReads(round: Rounding, n: Number, rest: string)
    requires n.Finite? && Normal(n) && round(n) == n && EndsNumber(rest)
    ensures ParseNumber(round, FormatNumber(n) + rest) == Ok(Num(n), rest)
    ensures FormatNumber(n) != "" && (FormatNumber(n)[0] == '-' || IsDigit(FormatNumber(n)[0]))
  {
    LayoutReadsBack(n.neg, n.digits, n.exponent, rest);
    FirstOfLayout(n.digits, n.exponent);
  }

  lemma NumberDispatch(round: Rounding, s: string)
    requires s != "" && (s[0] == '-' || IsDigit(s[0]))
    ensures ParseValue(round, s) == ParseNumber(round, s)
  {
    hide ParseNumber, ParseMembers, ParseElements, ParseString;
  }

  lemma NumberReads(round: Rounding, n: Number, rest: string)
    requires Normal(n) && round(n) == n && EndsNumber(rest)
    ensures ParseValue(round, FormatNumber(n) + rest) == Ok(Reparsed(Num(n)), rest)
  {
    hide ParseLiteral, Layout, Exact;
    if n.Infinite? {
      LiteralReads(round, Null, rest);
    } else {
      if n.Zero? { ZeroReads(round, rest); } else { FiniteReads(round, n, rest); }
      assert (FormatNumber(n) + rest)[0] == FormatNumber(n)[0];
      NumberDispatch(round, FormatNumber(n) + rest);
    }
  }

  lemma LiteralReads(round: Rounding, v: Value, rest: string)
    requires v.Null? || v.Bool?
    ensures ParseValue(round, Write(true, v, 0) + rest) == Ok(v, rest)
  {
    var w := Write(true, v, 0);
    var s := w + rest;
    assert s[..|w|] == w && s[|w|..] == rest && s[0] == w[0];
  }

  lemma StringReads(s: string, rest: string)
    requires WellFormed(s)
    ensures ParseString(WriteString(s) + rest) == Ok(s, rest)
  {
    hide WellFormed, WriteChars, ParseChars;
    var body := WriteChars(s) + ("\"" + rest);
    assert WriteString(s) + rest == "\"" + body by { Quoted(WriteChars(s), rest); }
    assert ("\"" + body)[1..] == body;
    CharsRoundTrip(s, rest);
  }

  lemma Quoted(chars: string, rest: string)
    ensures "\"" + chars + "\"" + rest == "\"" + (chars + ("\"" + rest))
  {
  }

  /** Parsing what was written, in either layout, gives the reparsed value and leaves the rest of the input. */
  lemma {:induction false} ValueReads(round: Rounding, pretty: bool, v: Value, depth: nat, rest: string)
    requires Encodable(round, v) && EndsNumber(rest)
    ensures ParseValue(round, Write(pretty, v, depth) + rest) == Ok(Reparsed(v), rest)
    decreases v, 2
  {
    hide PropertyOrder, ObjectKeys;
    match v
    case Null => LiteralReads(round, v, rest);
    case Bool(_) => LiteralReads(round, v, rest);
    case Num(n) => NumberReads(round, n, rest);
    case Str(s) => StringReads(s, rest);
    case Arr(items) => ArrayReads(round, pretty, v, depth, rest);
    case Obj(_, _) => ObjectReads(round, pretty, v, depth, rest);
  }

  lemma {:induction false} ArrayReads(round: Rounding, pretty: bool, v: Value, depth: nat, rest: string)
    requires v.Arr? && Encodable(round, v)
    ensures ParseValue(round, Write(pretty, v, depth) + rest) == Ok(Reparsed(v), rest)
    decreases v, 0, |v.items| + 1
  {
    hide PropertyOrder, ObjectKeys, ParseString, ParseNumber, ParseMembers, ParseElements, WriteElements, WellFormed;
    var s := Write(pretty, v, depth) + rest;
    if v.items == [] {
      assert s[1..] == "]" + rest && s[1..][1..] == rest;
    } else {
      var body := WriteElements(pretty, v, 0, depth) + rest;
      assert s[1..] == body;
      ElementsRead(round, pretty, v, 0, depth, rest);
      FirstToken(round, pretty, v, rest, depth);
      assert Reparsed(v).items[..0] == [];
      SkipSpaceTwice(round, body, []);
    }
  }

  // The text after an opening bracket is not yet the closing one.
  lemma FirstToken(round: Rounding, pretty: bool, v: Value, rest: string, depth: nat)
    requires v.Arr? && v.items != [] && Encodable(round, v)
    ensures var t := SkipSpace(WriteElements(pretty, v, 0, depth) + rest); t != "" && t[0] != ']'
  {
    hide PropertyOrder, ObjectKeys, FormatNumber, WriteString, ParseString;
    var w := Write(pretty, v.items[0], depth + 1);
    var tail := (if 1 < |v.items| then "," else "") + WriteElements(pretty, v, 1, depth);
    assert WriteElements(pretty, v, 0, depth) + rest == Break(pretty, depth + 1) + (w + (tail + rest));
    WriteIsToken(pretty, v.items[0], depth + 1);
    SkipsBlank(Break(pretty, depth + 1), w + (tail + rest));
  }

  lemma SkipSpaceTwice(round: Rounding, s: string, items: seq<Value>)
    ensures ParseElements(round, SkipSpace(s), items) == ParseElements(round, s, items)
  {
    assert SkipSpace(SkipSpace(s)) == SkipSpace(s);
  }

  lemma LastElement(round: Rounding, s: string, items: seq<Value>, x: Value, s1: string, rest: string)
    requires ParseValue(round, SkipSpace(s)) == Ok(x, s1) && SkipSpace(s1) == "]" + rest
    ensures ParseElements(round, s, items) == Ok(Arr(items + [x]), rest)
  {
    assert ("]" + rest)[1..] == rest;
  }

  lemma NextElement(round: Rounding, s: string, items: seq<Value>, x: Value, more: string)
    requires ParseValue(round, SkipSpace(s)) == Ok(x, "," + more) && SkipSpace(more) != ""
    ensures ParseElements(round, s, items) == ParseElements(round, more, items + [x])
  {
    assert SkipSpace("," + more) == "," + more && ("," + more)[1..] == more;
    SkipSpaceTwice(round, more, items + [x]);
  }

  // The text of one element, with what follows it.
  lemma ElementText(pretty: bool, v: Value, i: nat, depth: nat, rest: string)
    requires v.Arr? && i < |v.items| && (v.items[i].Num? ==> Normal(v.items[i].n))
    ensures SkipSpace(WriteElements(pretty, v, i, depth) + rest)
            == Write(pretty, v.items[i], depth + 1) + ((if i + 1 < |v.items| then "," else "") + (WriteElements(pretty, v, i + 1, depth) + rest))
    ensures SkipSpace(WriteElements(pretty, v, i, depth) + rest) != ""
  {
    var w := Write(pretty, v.items[i], depth + 1);
    var comma := if i + 1 < |v.items| then "," else "";
    var more := WriteElements(pretty, v, i + 1, depth);
    Regroup4(Break(pretty, depth + 1), w, comma, more, rest);
    WriteIsToken(pretty, v.items[i], depth + 1);
    SkipsBlank(Break(pretty, depth + 1), w + (comma + (more + rest)));
  }

  lemma ReparsedPrefix(v: Value, i: nat)
    requires v.Arr? && i < |v.items|
    ensures Reparsed(v).Arr? && |Reparsed(v).items| == |v.items|
    ensures Reparsed(v).items[..i + 1] == Reparsed(v).items[..i] + [Reparsed(v.items[i])]
    ensures Arr(Reparsed(v).items[..|v.items|]) == Reparsed(v)
  {
    assert Reparsed(v).items[..|v.items|] == Reparsed(v).items;
  }

  lemma ElementIsSettled(round: Rounding, v: Value, i: nat)
    requires v.Arr? && i < |v.items| && Encodable(round, v)
    ensures Encodable(round, v.items[i]) && (v.items[i].Num? ==> Normal(v.items[i].n))
  {
  }

  // The last element, once its text is known to read back.
  lemma LastElementReads(round: Rounding, pretty: bool, v: Value, depth: nat, rest: string)
    requires v.Arr? && v.items != [] && Encodable(round, v)
    requires var i := |v.items| - 1;
             var more := WriteElements(pretty, v, |v.items|, depth) + rest;
             ParseValue(round, Write(pretty, v.items[i], depth + 1) + more) == Ok(Reparsed(v.items[i]), more)
    ensures Reparsed(v).Arr? && |Reparsed(v).items| == |v.items|
    ensures ParseElements(round, WriteElements(pretty, v, |v.items| - 1, depth) + rest, Reparsed(v).items[..|v.items| - 1]) == Ok(Reparsed(v), rest)
  {
    var i := |v.items| - 1;
    var more := WriteElements(pretty, v, i + 1, depth) + rest;
    assert SkipSpace(more) == "]" + rest by { ClosingBreak(pretty, depth, "]", rest); }
    ReparsedPrefix(v, i);
    ElementIsSettled(round, v, i);
    hide Reparsed, Write, WriteElements, ParseValue, ParseElements, SkipSpace, Encodable;
    ElementText(pretty, v, i, depth, rest);
    assert "" + more == more;
    LastElement(round, WriteElements(pretty, v, i, depth) + rest, Reparsed(v).items[..i], Reparsed(v.items[i]), more, rest);
  }

  // Any other element leaves the comma to the element loop.
  lemma OtherElementReads(round: Rounding, pretty: bool, v: Value, i: nat, depth: nat, rest: string)
    requires v.Arr? && i + 1 < |v.items| && Encodable(round, v)
    requires var more := WriteElements(pretty, v, i + 1, depth) + rest;
             ParseValue(round, Write(pretty, v.items[i], depth + 1) + ("," + more)) == Ok(Reparsed(v.items[i]), "," + more)
    ensures Reparsed(v).Arr? && |Reparsed(v).items| == |v.items|
    ensures ParseElements(round, WriteElements(pretty, v, i, depth) + rest, Reparsed(v).items[..i])
         == ParseElements(round, WriteElements(pretty, v, i + 1, depth) + rest, Reparsed(v).items[..i + 1])
  {
    ReparsedPrefix(v, i);
    ElementIsSettled(round, v, i);
    ElementIsSettled(round, v, i + 1);
    hide Reparsed, Write, WriteElements, ParseValue, ParseElements, SkipSpace, Encodable;
    var more := WriteElements(pretty, v, i + 1, depth) + rest;
    ElementText(pretty, v, i, depth, rest);
    ElementText(pretty, v, i + 1, depth, rest);
    NextElement(round, WriteElements(pretty, v, i, depth) + rest, Reparsed(v).items[..i], Reparsed(v.items[i]), more);
  }

  lemma {:induction false} ElementsRead(round: Rounding, pretty: bool, v: Value, i: nat, depth: nat, rest: string)
    requires v.Arr? && i < |v.items| && Encodable(round, v)
    ensures ParseElements(round, WriteElements(pretty, v, i, depth) + rest, Reparsed(v).items[..i]) == Ok(Reparsed(v), rest)
    decreases v, 0, |v.items| - i
  {
    hide *;
    var more := WriteElements(pretty, v, i + 1, depth) + rest;
    ReparsedPrefix(v, i);
    ElementIsSettled(round, v, i);
    AfterElement(pretty, v, depth, more, rest);
    if i + 1 == |v.items| {
      ValueReads(round, pretty, v.items[i], depth + 1, more);
      LastElementReads(round, pretty, v, depth, rest);
    } else {
      ValueReads(round, pretty, v.items[i], depth + 1, "," + more);
      OtherElementReads(round, pretty, v, i, depth, rest);
      ElementsRead(round, pretty, v, i + 1, depth, rest);
    }
  }

  lemma AfterElement(pretty: bool, v: Value, depth: nat, more: string, rest: string)
    requires v.Arr?
    ensures EndsNumber("," + more) && EndsNumber(WriteElements(pretty, v, |v.items|, depth) + rest)
  {
    ClosingBreak(pretty, depth, "]", rest);
  }

  lemma Regroup4(a: string, b: string, c: string, d: string, e: string)
    ensures a + (b + (c + d)) + e == a + (b + (c + (d + e)))
  {
  }

  lemma ClosingBreak(pretty: bool, depth: nat, close: string, rest: string)
    requires |close| == 1 && !IsSpace(close[0]) && !IsDigit(close[0]) && close[0] !in {'.', 'e', 'E'}
    ensures Break(pretty, depth) + close + rest == Break(pretty, depth) + (close + rest)
    ensures SkipSpace(Break(pretty, depth) + (close + rest)) == close + rest
    ensures EndsNumber(Break(pretty, depth) + (close + rest))
  {
    SkipsBlank(Break(pretty, depth), close + rest);
  }

  lemma ObjectDispatch(round: Rounding, body: string)
    ensures Starts(SkipSpace(body), '"') ==> ParseValue(round, "{" + body) == ParseMembers(round, SkipSpace(body), EMPTY_OBJECT)
  {
    assert ("{" + body)[1..] == body;
  }

  lemma EmptyObjectReads(round: Rounding, rest: string)
    ensures ParseValue(round, "{}" + rest) == Ok(EMPTY_OBJECT, rest)
  {
    assert ("{}" + rest)[1..] == "}" + rest && ("}" + rest)[1..] == rest;
  }

  lemma {:induction false} ObjectReads(round: Rounding, pretty: bool, v: Value, depth: nat, rest: string)
    requires v.Obj? && Encodable(round, v)
    ensures ParseValue(round, Write(pretty, v, depth) + rest) == Ok(Reparsed(v), rest)
    decreases v, 1
  {
    hide PropertyOrder, ObjectKeys, ParseValue, Write, Reparsed, WellFormed, Encodable;
    var keys := PropertyOrder(ObjectKeys(v));
    ObjectOnItsWay(pretty, v, depth);
    if keys == [] {
      EmptyObjectReads(round, rest);
    } else {
      BracedReads(round, pretty, v, keys, depth, rest);
    }
  }

  lemma ObjectOnItsWay(pretty: bool, v: Value, depth: nat)
    requires v.Obj?
    ensures var keys := PropertyOrder(ObjectKeys(v));
            && Distinct(keys) && (forall k :: k in keys <==> k in v.m)
            && Write(pretty, v, depth) == (if keys == [] then "{}" else "{" + WriteMembers(pretty, v, keys, depth))
            && Reparsed(v) == Obj(keys, map k | k in v.m :: Reparsed(v.m[k]))
            && (keys == [] ==> Reparsed(v) == EMPTY_OBJECT)
  {
    hide PropertyOrder, ObjectKeys, WriteMembers, WellFormed;
    var keys := PropertyOrder(ObjectKeys(v));
    if keys == [] { assert Reparsed(v).m == map[]; }
  }

  lemma {:induction false} BracedReads(round: Rounding, pretty: bool, v: Value, keys: seq<string>, depth: nat, rest: string)
    requires v.Obj? && Encodable(round, v) && keys != [] && Distinct(keys) && forall k :: k in keys <==> k in v.m
    ensures ParseValue(round, "{" + WriteMembers(pretty, v, keys, depth) + rest)
            == Ok(Obj(keys, map k | k in v.m :: Reparsed(v.m[k])), rest)
    decreases v, 0, |keys| + 1
  {
    hide PropertyOrder, ObjectKeys, ParseString, ParseNumber, FormatNumber, WriteString, WellFormed, PutObject;
    Regroup3("{", WriteMembers(pretty, v, keys, depth), rest);
    FirstMember(pretty, v, keys, depth, rest);
    ObjectDispatch(round, WriteMembers(pretty, v, keys, depth) + rest);
    MembersRead(round, pretty, v, keys, depth, EMPTY_OBJECT, rest);
    AllMembers(v, keys);
  }

  lemma AllMembers(v: Value, keys: seq<string>)
    requires v.Obj? && forall k :: k in keys <==> k in v.m
    ensures ReadMembers(v, EMPTY_OBJECT, keys) == Obj(keys, map k | k in v.m :: Reparsed(v.m[k]))
  {
    hide Reparsed;
    assert EMPTY_OBJECT.keys + keys == keys;
    assert EMPTY_OBJECT.m + (map k | k in keys :: Reparsed(v.m[k])) == map k | k in v.m :: Reparsed(v.m[k]);
  }

  lemma FirstMember(pretty: bool, v: Value, keys: seq<string>, depth: nat, rest: string)
    requires v.Obj? && keys != [] && forall k :: k in keys ==> k in v.m
    ensures Starts(SkipSpace(WriteMembers(pretty, v, keys, depth) + rest), '"')
  {
    hide Write, WriteChars, SkipSpace;
    var blank := Break(pretty, depth + 1);
    var t := WriteMembers(pretty, v, keys, depth) + rest;
    assert t == blank + t[|blank|..] && t[|blank|] == '"';
    assert !IsSpace(t[|blank|..][0]);
    SkipsBlank(blank, t[|blank|..]);
  }

  // The members read so far, and those still to come.
  ghost function ReadMembers(v: Value, o: Value, keys: seq<string>): Value
    requires v.Obj? && o.Obj? && forall k :: k in keys ==> k in v.m
  {
    Obj(o.keys + keys, o.m + (map k | k in keys :: Reparsed(v.m[k])))
  }

  // One turn of the member loop, once its pieces are known.
  lemma LastMember(round: Rounding, s: string, o: Value, k: string, s1: string, x: Value, s3: string, rest: string)
    requires o.Obj? && ParseString(SkipSpace(s)) == Ok(k, s1) && SkipSpace(s1) == s1 && Starts(s1, ':')
    requires ParseValue(round, SkipSpace(s1[1..])) == Ok(x, s3) && SkipSpace(s3) == "}" + rest
    ensures ParseMembers(round, s, o) == Ok(PutObject(o, k, x), rest)
  {
    assert ("}" + rest)[1..] == rest;
  }

  lemma NextMember(round: Rounding, s: string, o: Value, k: string, s1: string, x: Value, more: string)
    requires o.Obj? && ParseString(SkipSpace(s)) == Ok(k, s1) && SkipSpace(s1) == s1 && Starts(s1, ':')
    requires ParseValue(round, SkipSpace(s1[1..])) == Ok(x, "," + more) && SkipSpace(more) != ""
    ensures ParseMembers(round, s, o) == ParseMembers(round, SkipSpace(more), PutObject(o, k, x))
  {
    assert SkipSpace("," + more) == "," + more && ("," + more)[1..] == more;
  }

  lemma MembersSkip(round: Rounding, s: string, o: Value)
    requires o.Obj?
    ensures ParseMembers(round, SkipSpace(s), o) == ParseMembers(round, s, o)
  {
    assert SkipSpace(SkipSpace(s)) == SkipSpace(s);
  }

  lemma MemberText(pretty: bool, v: Value, keys: seq<string>, depth: nat, rest: string)
    requires v.Obj? && keys != [] && forall k :: k in keys ==> k in v.m
    ensures keys[0] in keys
    ensures SkipSpace(WriteMembers(pretty, v, keys, depth) + rest) ==
            WriteString(keys[0]) + (Colon(pretty) + (Write(pretty, v.m[keys[0]], depth + 1) +
              ((if |keys| > 1 then "," else "") + (WriteMembers(pretty, v, keys[1..], depth) + rest))))
  {
    var k := keys[0];
    var comma, more := if |keys| > 1 then "," else "", WriteMembers(pretty, v, keys[1..], depth);
    var w := Write(pretty, v.m[k], depth + 1);
    Regroup6(Break(pretty, depth + 1), WriteString(k), Colon(pretty), w, comma, more, rest);
    SkipsBlank(Break(pretty, depth + 1), WriteString(k) + (Colon(pretty) + (w + (comma + (more + rest)))));
  }

  lemma {:induction false} MembersRead(round: Rounding, pretty: bool, v: Value, keys: seq<string>, depth: nat, o: Value, rest: string)
    requires v.Obj? && o.Obj? && keys != [] && Distinct(keys) && Encodable(round, v)
    requires forall k :: k in keys ==> k in v.m && k !in o.m
    ensures ParseMembers(round, SkipSpace(WriteMembers(pretty, v, keys, depth) + rest), o) == Ok(ReadMembers(v, o, keys), rest)
    decreases v, 0, |keys|
  {
    hide PropertyOrder, ObjectKeys, ParseString, ParseNumber, FormatNumber, WriteString, WellFormed, ParseElements, ParseMembers, WriteElements;
    var s := WriteMembers(pretty, v, keys, depth) + rest;
    var k := keys[0];
    MemberText(pretty, v, keys, depth, rest);
    MembersSkip(round, s, o);
    var w, x := Write(pretty, v.m[k], depth + 1), Reparsed(v.m[k]);
    var more := WriteMembers(pretty, v, keys[1..], depth) + rest;
    var tail := (if |keys| > 1 then "," else "") + more;
    StringReads(k, Colon(pretty) + (w + tail));
    ColonReads(pretty, v.m[k], depth + 1, tail);
    ValueThenTail(pretty, keys, tail, more, depth, rest, v);
    ValueReads(round, pretty, v.m[k], depth + 1, tail);
    if |keys| == 1 {
      LastMember(round, s, o, k, Colon(pretty) + (w + tail), x, tail, rest);
      OneMember(v, o, keys);
    } else {
      assert forall y :: y in keys[1..] ==> y in keys && y != k;
      FirstMember(pretty, v, keys[1..], depth, rest);
      NextMember(round, s, o, k, Colon(pretty) + (w + tail), x, more);
      MembersRead(round, pretty, v, keys[1..], depth, PutObject(o, k, x), rest);
      ReadMembersStep(v, o, keys);
    }
  }

  // What follows a member's value ends a number and, after the last member, closes the object.
  lemma ValueThenTail(pretty: bool, keys: seq<string>, tail: string, more: string, depth: nat, rest: string, v: Value)
    requires v.Obj? && keys != [] && forall k :: k in keys ==> k in v.m
    requires more == WriteMembers(pretty, v, keys[1..], depth) + rest && tail == (if |keys| > 1 then "," else "") + more
    ensures EndsNumber(tail) && (|keys| == 1 ==> SkipSpace(tail) == "}" + rest)
  {
    if |keys| == 1 {
      assert tail == more;
      ClosingBreak(pretty, depth, "}", rest);
    }
  }

  lemma OneMember(v: Value, o: Value, keys: seq<string>)
    requires v.Obj? && o.Obj? && |keys| == 1 && keys[0] in v.m && keys[0] !in o.m
    ensures ReadMembers(v, o, keys) == PutObject(o, keys[0], Reparsed(v.m[keys[0]]))
  {
    assert forall y :: y in keys <==> y == keys[0];
    assert o.keys + keys == o.keys + [keys[0]];
  }

  lemma ReadMembersStep(v: Value, o: Value, keys: seq<string>)
    requires v.Obj? && o.Obj? && keys != [] && Distinct(keys) && forall k :: k in keys ==> k in v.m && k !in o.m
    ensures ReadMembers(v, PutObject(o, keys[0], Reparsed(v.m[keys[0]])), keys[1..]) == ReadMembers(v, o, keys)
  {
    assert keys[0] in keys;
    assert o.keys + [keys[0]] + keys[1..] == o.keys + keys;
    assert o.m[keys[0] := Reparsed(v.m[keys[0]])] + (map k | k in keys[1..] :: Reparsed(v.m[k]))
        == o.m + (map k | k in keys :: Reparsed(v.m[k]));
  }

  lemma ColonReads(pretty: bool, v: Value, depth: nat, tail: string)
    requires v.Num? ==> Normal(v.n)
    ensures var s := Colon(pretty) + (Write(pretty, v, depth) + tail);
            SkipSpace(s) == s && Starts(s, ':') && SkipSpace(s[1..]) == Write(pretty, v, depth) + tail
  {
    hide Write;
    var s := Colon(pretty) + (Write(pretty, v, depth) + tail);
    var blank := if pretty then " " else "";
    WriteIsToken(pretty, v, depth);
    SkipsBlank(blank, Write(pretty, v, depth) + tail);
    assert s[1..] == blank + (Write(pretty, v, depth) + tail);
  }

  lemma Regroup6(a: string, b: string, c: string, d: string, e: string, f: string, g: string)
    ensures a + (b + (c + (d + (e + f)))) + g == a + (b + (c + (d + (e + (f + g)))))
  {
    Regroup4(a, b, c + (d + (e + f)), "", g);
    Regroup4(c, d, e, f, g);
  }

  /** Parsing a serialized value, with or without the final newline, gives the value as text carries it. */
  lemma SerializeReadsBack(round: Rounding, v: Value)
    requires Encodable(round, v)
    ensures Parse(round, Serialize(v)) == Parsed(Reparsed(v))
    ensures Parse(round, SerializeFile(v)) == Parsed(Reparsed(v))
    ensures Serialize(Reparsed(v)) == Serialize(v)
  {
    hide PropertyOrder, ObjectKeys, ParseValue, WellFormed, WriteString, FormatNumber;
    WriteIsToken(true, v, 0);
    assert Serialize(v) + "" == Serialize(v);
    ValueReads(round, true, v, 0, "");
    ValueReads(round, true, v, 0, "\n");
    ReserializeIsIdentical(true, v, 0);
  }

  lemma MinusZeroIsLiteral()
    ensures ParseLiteral("-0") == Ok(Literal(true, "0", "", false, ""), "")
  {
    hide TakeDigits;
    assert "-0"[1..] == "0" && "0"[1..] == "";
    assert ParseWhole("0") == Ok("0", "") && ParseFraction("") == Ok("", "") && ParseExponent("") == Ok((false, ""), "");
  }

  lemma MinusZeroReads(round: Rounding)
    ensures Parse(round, "-0") == Parsed(Num(round(Zero(true))))
  {
    hide ParseLiteral, Exact;
    MinusZeroIsLiteral();
    ExactOfZero(true);
    assert SkipSpace("-0") == "-0";
    assert ParseValue(round, "-0") == ParseNumber(round, "-0");
  }

  /** The literal -0, read by a conversion that keeps the sign of zero, is written as 0. */
  lemma NegativeZeroIsLost(round: Rounding)
    requires round(Zero(true)) == Zero(true)
    ensures Parse(round, "-0") == Parsed(Num(Zero(true)))
    ensures Parse(round, Serialize(Num(Zero(true)))) == Parsed(Num(Zero(false)))
    ensures !DeepEqual(Num(Zero(true)), Num(Zero(false)))
  {
    hide Parse, Serialize;
    MinusZeroReads(round);
    SerializeReadsBack(round, Num(Zero(true)));
  }

  // ----- The compact form -----

  function After(s: string, st: Scan): Scan {
    if s == "" then st else After(s[1..], Step(st, s[0]))
  }

  // Every character of the text stands inside a string.
  predicate Stays(s: string, st: Scan) { s == "" || (st != Outside && Stays(s[1..], Step(st, s[0]))) }

  lemma {:induction false} SqueezeConcat(a: string, b: string, st: Scan)
    ensures Squeeze(a + b, st) == Squeeze(a, st) + Squeeze(b, After(a, st))
    ensures Stays(a, st) && Stays(b, After(a, st)) ==> Stays(a + b, st)
    ensures After(a + b, st) == After(b, After(a, st))
  {
    if a == "" {
      assert a + b == b;
    } else {
      assert (a + b)[1..] == a[1..] + b;
      SqueezeConcat(a[1..], b, Step(st, a[0]));
      Regroup3(if st == Outside && IsSpace(a[0]) then "" else [a[0]], Squeeze(a[1..], Step(st, a[0])), Squeeze(b, After(a, st)));
    }
  }

  // Between tokens, `a` squeezes to `b` and ends between tokens.
  predicate Squeezes(a: string, b: string) { Squeeze(a, Outside) == b && After(a, Outside) == Outside }

  lemma SqueezesConcat(a: string, b: string, c: string, d: string)
    requires Squeezes(a, b) && Squeezes(c, d)
    ensures Squeezes(a + c, b + d)
  {
    SqueezeConcat(a, c, Outside);
  }

  // No quote and no white space: nothing for the filter to act on.
  predicate Bare(s: string) { forall i :: 0 <= i < |s| ==> s[i] != '"' && !IsSpace(s[i]) }

  lemma {:induction false} BareText(s: string)
    requires Bare(s)
    ensures Squeezes(s, s)
  {
    if s != "" { BareText(s[1..]); }
  }

  lemma {:induction false} BlankText(s: string)
    requires forall i :: 0 <= i < |s| ==> IsSpace(s[i])
    ensures Squeezes(s, "")
  {
    if s != "" { BlankText(s[1..]); }
  }

  // Inside a string every byte is kept, and plain bytes stay inside.
  lemma {:induction false} PlainInside(s: string)
    requires forall i :: 0 <= i < |s| ==> s[i] != '"' && s[i] != '\\'
    ensures Squeeze(s, Inside) == s && After(s, Inside) == Inside && Stays(s, Inside)
  {
    if s != "" { PlainInside(s[1..]); }
  }

  lemma EscapeInside(escape: string)
    requires |escape| >= 2 && escape[0] == '\\' && forall i :: 2 <= i < |escape| ==> escape[i] != '"' && escape[i] != '\\'
    ensures Squeeze(escape, Inside) == escape && After(escape, Inside) == Inside && Stays(escape, Inside)
  {
    PlainInside(escape[2..]);
    assert escape[1..][1..] == escape[2..];
    assert Squeeze(escape[1..], Escaped) == [escape[1]] + escape[2..];
  }

  lemma UnicodeEscapeInside(unit: nat)
    requires unit < 0x10000
    ensures Squeeze(UnicodeEscape(unit), Inside) == UnicodeEscape(unit) && After(UnicodeEscape(unit), Inside) == Inside
    ensures Stays(UnicodeEscape(unit), Inside)
  {
    EscapeInside(UnicodeEscape(unit));
  }

  lemma RuneInside(rune: string)
    requires rune != "" && RuneSize(rune) == |rune|
    ensures Squeeze(WriteRune(rune), Inside) == WriteRune(rune) && After(WriteRune(rune), Inside) == Inside && Stays(WriteRune(rune), Inside)
  {
    var c := rune[0] as int;
    if c in {0x22, 0x5C, 8, 9, 10, 12, 13} {
      EscapeInside(WriteRune(rune));
    } else if c < 0x20 {
      UnicodeEscapeInside(c);
    } else {
      PlainInside(rune);
    }
  }

  lemma {:induction false} CharsInside(s: string)
    ensures Squeeze(WriteChars(s), Inside) == WriteChars(s) && After(WriteChars(s), Inside) == Inside && Stays(WriteChars(s), Inside)
    decreases |s|
  {
    if s == "" {
    } else if StartsSurrogate(s) {
      UnicodeEscapeInside(SurrogateUnit(s));
      CharsInside(s[3..]);
      SqueezeConcat(UnicodeEscape(SurrogateUnit(s)), WriteChars(s[3..]), Inside);
    } else if RuneSize(s) == 0 {
      EscapeInside("\\ufffd");
      CharsInside(s[1..]);
      SqueezeConcat("\\ufffd", WriteChars(s[1..]), Inside);
    } else {
      var n := RuneSize(s);
      PrefixIsRune(s);
      RuneInside(s[..n]);
      CharsInside(s[n..]);
      SqueezeConcat(WriteRune(s[..n]), WriteChars(s[n..]), Inside);
    }
  }

  lemma StringSqueezes(s: string)
    ensures Squeezes(WriteString(s), WriteString(s))
  {
    CharsInside(s);
    SqueezeConcat(WriteChars(s), "\"", Inside);
    assert Squeeze("\"", Inside) == "\"" && After("\"", Inside) == Outside;
    var body := WriteChars(s) + "\"";
    assert WriteString(s) == "\"" + body && WriteString(s)[1..] == body;
  }

  // No quote, no white space and no punctuation between tokens.
  predicate Plain(s: string) { Bare(s) && forall i :: 0 <= i < |s| ==> s[i] !in {'[', ']', '{', '}', ',', ':'} }

  lemma PlainConcat(a: string, b: string)
    requires Plain(a) && Plain(b)
    ensures Plain(a + b)
  {
  }

  lemma DigitsArePlain(s: string)
    requires AllDigits(s)
    ensures Plain(s)
  {
  }

  lemma FixedIsPlain(digits: string, exponent: int)
    requires NormalDigits(digits) && -6 <= exponent < 21
    ensures Plain(Layout(digits, exponent))
  {
    hide Zeros;
    var point := exponent + 1;
    DigitsArePlain(digits);
    if point <= 0 {
      DigitsArePlain(Zeros(-point));
      PlainConcat("0." + Zeros(-point), digits);
    } else if point >= |digits| {
      DigitsArePlain(Zeros(point - |digits|));
      PlainConcat(digits, Zeros(point - |digits|));
    } else {
      DigitsArePlain(digits[..point]);
      DigitsArePlain(digits[point..]);
      PlainConcat(digits[..point], ".");
      PlainConcat(digits[..point] + ".", digits[point..]);
    }
  }

  lemma ScientificIsPlain(digits: string, exponent: int)
    requires NormalDigits(digits) && !(-6 <= exponent < 21)
    ensures Plain(Layout(digits, exponent))
  {
    hide NatText;
    DigitsArePlain(digits);
    DigitsArePlain(NatText(if exponent < 0 then -exponent else exponent));
    var fraction := if |digits| > 1 then "." + digits[1..] else "";
    PlainConcat([digits[0]], fraction);
    PlainConcat([digits[0]] + fraction, "e");
    PlainConcat([digits[0]] + fraction + "e", ExponentText(exponent));
  }

  lemma LayoutIsPlain(digits: string, exponent: int)
    requires NormalDigits(digits)
    ensures Plain(Layout(digits, exponent))
  {
    hide Layout;
    if -6 <= exponent < 21 { FixedIsPlain(digits, exponent); } else { ScientificIsPlain(digits, exponent); }
  }

  lemma NumberIsPlain(n: Number)
    requires Normal(n)
    ensures Plain(FormatNumber(n))
  {
    if n.Finite? {
      LayoutIsPlain(n.digits, n.exponent);
      PlainConcat(if n.neg then "-" else "", Layout(n.digits, n.exponent));
    }
  }

  lemma Squeezes4(a: string, b: string, c: string, d: string, a': string, b': string, c': string, d': string)
    requires Squeezes(a, a') && Squeezes(b, b') && Squeezes(c, c') && Squeezes(d, d')
    ensures Squeezes(a + (b + (c + d)), a' + (b' + (c' + d')))
  {
    SqueezesConcat(c, c', d, d');
    SqueezesConcat(b, b', c + d, c' + d');
    SqueezesConcat(a, a', b + (c + d), b' + (c' + d'));
  }

  /** Squeezing the pretty form gives the compact form of the same value. */
  lemma {:induction false} ValueSqueezes(round: Rounding, v: Value, depth: nat)
    requires Encodable(round, v)
    ensures Squeezes(Write(true, v, depth), Write(false, v, depth))
    decreases v, 2
  {
    hide PropertyOrder, ObjectKeys;
    match v
    case Null => BareText("null");
    case Bool(b) => BareText(if b then "true" else "false");
    case Num(n) =>
      NumberIsPlain(n);
      BareText(FormatNumber(n));
    case Str(s) => StringSqueezes(s);
    case Arr(items) =>
      ElementsSqueeze(round, v, 0, depth);
      Bracketed("[", WriteElements(true, v, 0, depth), WriteElements(false, v, 0, depth));
      BareText("[]");
    case Obj(_, _) =>
      BareText("{}");
      ObjectSqueezes(round, v, PropertyOrder(ObjectKeys(v)), depth);
  }

  lemma {:induction false} ObjectSqueezes(round: Rounding, v: Value, keys: seq<string>, depth: nat)
    requires v.Obj? && Encodable(round, v) && forall k :: k in keys ==> k in v.m
    ensures Squeezes("{" + WriteMembers(true, v, keys, depth), "{" + WriteMembers(false, v, keys, depth))
    decreases v, 1, 0
  {
    MembersSqueeze(round, v, keys, depth);
    Bracketed("{", WriteMembers(true, v, keys, depth), WriteMembers(false, v, keys, depth));
  }

  lemma Bracketed(open: string, a: string, a': string)
    requires Bare(open) && Squeezes(a, a')
    ensures Squeezes(open + a, open + a')
  {
    BareText(open);
    SqueezesConcat(open, open, a, a');
  }

  lemma {:induction false} ElementsSqueeze(round: Rounding, v: Value, i: nat, depth: nat)
    requires v.Arr? && i <= |v.items| && Encodable(round, v)
    ensures Squeezes(WriteElements(true, v, i, depth), WriteElements(false, v, i, depth))
    decreases v, 0, |v.items| - i
  {
    hide PropertyOrder, ObjectKeys, FormatNumber, WriteString, WellFormed, Squeezes, Write;
    if i == |v.items| {
      BlankText(Break(true, depth));
      BareText("]");
      SqueezesConcat(Break(true, depth), Break(false, depth), "]", "]");
    } else {
      var comma := if i + 1 < |v.items| then "," else "";
      BlankText(Break(true, depth + 1));
      BareText(comma);
      ValueSqueezes(round, v.items[i], depth + 1);
      ElementsSqueeze(round, v, i + 1, depth);
      Squeezes4(Break(true, depth + 1), Write(true, v.items[i], depth + 1), comma, WriteElements(true, v, i + 1, depth),
                Break(false, depth + 1), Write(false, v.items[i], depth + 1), comma, WriteElements(false, v, i + 1, depth));
    }
  }

  lemma ColonSqueezes()
    ensures Squeezes(Colon(true), Colon(false))
  {
    BareText(":");
    BlankText(" ");
    SqueezesConcat(":", ":", " ", "");
    assert ":" + " " == ": " && ":" + "" == ":";
  }

  lemma {:induction false} MembersSqueeze(round: Rounding, v: Value, keys: seq<string>, depth: nat)
    requires v.Obj? && Encodable(round, v) && forall k :: k in keys ==> k in v.m
    ensures Squeezes(WriteMembers(true, v, keys, depth), WriteMembers(false, v, keys, depth))
    decreases v, 0, |keys|
  {
    if keys == [] {
      BlankText(Break(true, depth));
      BareText("}");
      SqueezesConcat(Break(true, depth), Break(false, depth), "}", "}");
    } else {
      var k := keys[0];
      ValueSqueezes(round, v.m[k], depth + 1);
      MembersSqueeze(round, v, keys[1..], depth);
      MemberSqueezes(k, if |keys| > 1 then "," else "", depth,
                     Write(true, v.m[k], depth + 1), Write(false, v.m[k], depth + 1),
                     WriteMembers(true, v, keys[1..], depth), WriteMembers(false, v, keys[1..], depth));
    }
  }

  lemma MemberSqueezes(k: string, comma: string, depth: nat, w: string, w': string, t: string, t': string)
    requires Bare(comma) && Squeezes(w, w') && Squeezes(t, t')
    ensures Squeezes(Break(true, depth + 1) + (WriteString(k) + (Colon(true) + (w + (comma + t)))),
                     Break(false, depth + 1) + (WriteString(k) + (Colon(false) + (w' + (comma + t')))))
  {
    BlankText(Break(true, depth + 1));
    StringSqueezes(k);
    ColonSqueezes();
    Bracketed(comma, t, t');
    SqueezesConcat(w, w', comma + t, comma + t');
    Squeezes4(Break(true, depth + 1), WriteString(k), Colon(true), w + (comma + t),
              Break(false, depth + 1), WriteString(k), Colon(false), w' + (comma + t'));
  }

  /** The compact form parses to the same value as the pretty form. */
  lemma CompactReadsBack(round: Rounding, v: Value)
    requires Encodable(round, v)
    ensures Parse(round, CompactSerialize(v)) == Parsed(Reparsed(v))
    ensures CompactSerialize(Reparsed(v)) == CompactSerialize(v)
  {
    hide PropertyOrder, ObjectKeys, ParseValue, WellFormed, WriteString, FormatNumber;
    ValueSqueezes(round, v, 0);
    WriteIsToken(false, v, 0);
    assert Write(false, v, 0) + "" == Write(false, v, 0);
    ValueReads(round, false, v, 0, "");
    ReserializeIsIdentical(true, v, 0);
  }

  // ----- What the parser can produce -----

  /** Every parsed value is encodable: IEEE-754 numbers in normal form and well-formed strings throughout. */
  lemma {:induction false} ParsedIsEncodable(round: Rounding, s: string)
    ensures ParseValue(round, s).Ok? ==> Encodable(round, ParseValue(round, s).value)
    decreases |s|, 0
  {
    if s != "" {
      if s[0] == '{' {
        MembersAreEncodable(round, SkipSpace(s[1..]), EMPTY_OBJECT);
      } else if s[0] == '[' {
        ElementsAreEncodable(round, SkipSpace(s[1..]), []);
      } else if s[0] == '"' {
        if ParseString(s).Ok? { ParsedIsWellFormed(s[1..]); }
      }
    }
  }

  lemma {:induction false} MembersAreEncodable(round: Rounding, s: string, o: Value)
    requires o.Obj? && Encodable(round, o)
    ensures ParseMembers(round, s, o).Ok? ==> Encodable(round, ParseMembers(round, s, o).value)
    decreases |s|, 1
  {
    var key := ParseString(SkipSpace(s));
    if key.Ok? {
      ParsedIsWellFormed(SkipSpace(s)[1..]);
      var s2 := SkipSpace(key.rest);
      if Starts(s2, ':') {
        ParsedIsEncodable(round, SkipSpace(s2[1..]));
        var v := ParseValue(round, SkipSpace(s2[1..]));
        if v.Ok? {
          var s4 := SkipSpace(v.rest);
          if Starts(s4, ',') { MembersAreEncodable(round, SkipSpace(s4[1..]), PutObject(o, key.value, v.value)); }
        }
      }
    }
  }

  lemma {:induction false} ElementsAreEncodable(round: Rounding, s: string, items: seq<Value>)
    requires Encodable(round, Arr(items))
    ensures ParseElements(round, s, items).Ok? ==> Encodable(round, ParseElements(round, s, items).value)
    decreases |s|, 1
  {
    ParsedIsEncodable(round, SkipSpace(s));
    var v := ParseValue(round, SkipSpace(s));
    if v.Ok? {
      var s2 := SkipSpace(v.rest);
      if Starts(s2, ',') { ElementsAreEncodable(round, SkipSpace(s2[1..]), items + [v.value]); }
    }
  }

  lemma DocumentIsEncodable(round: Rounding, s: string)
    ensures Parse(round, s).Parsed? ==> Encodable(round, Parse(round, s).value)
  {
    ParsedIsEncodable(round, SkipSpace(s));
  }
}
