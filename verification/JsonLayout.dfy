/**
 The layout of the serialized form, apart from the serializer: a second pass over the compact text
 breaks and indents the lines.
 */
module JsonLayout {
  import opened JsonValue
  import opened JsonNumber
  import opened JsonString
  import opened JsonText
  import opened JsonLaws

  // Where the pass stands: inside or outside a string, under how many brackets, and whether the last
  // character opened one.
  datatype Position = At(scan: Scan, depth: nat, atOpening: bool)

  function Indent(depth: nat): string { if depth == 0 then "" else "  " + Indent(depth - 1) }

  function Line(depth: nat): string { "\n" + Indent(depth) }

  function Up(depth: nat): nat { if depth == 0 then 0 else depth - 1 }

  function Move(p: Position, c: char): Position {
    if p.scan != Outside then p.(scan := Step(p.scan, c))
    else if c == '[' || c == '{' then At(Outside, p.depth + 1, true)
    else if c == ']' || c == '}' then At(Outside, Up(p.depth), false)
    else At(Step(Outside, c), p.depth, false)
  }

  // A bracket that is not empty breaks the line after it and before its end, a comma breaks the line
  // after it, and a colon is followed by a space.
  function Place(p: Position, c: char): string {
    if p.scan != Outside then [c]
    else if c == ']' || c == '}' then (if p.atOpening then "" else Line(Up(p.depth))) + [c]
    else (if p.atOpening then Line(p.depth) else "") + ([c] + (if c == ',' then Line(p.depth) else if c == ':' then " " else ""))
  }

  function Indented(s: string, p: Position): string
  {
    if s == "" then "" else Place(p, s[0]) + Indented(s[1..], Move(p, s[0]))
  }

  function End(s: string, p: Position): Position {
    if s == "" then p else End(s[1..], Move(p, s[0]))
  }

  // From `p` to `q` the compact text `a` is laid out as `b`.
  predicate Lays(a: string, b: string, p: Position, q: Position) { Indented(a, p) == b && End(a, p) == q }

  lemma {:induction false} LaysConcat(a: string, a': string, b: string, b': string, p: Position, q: Position, r: Position)
    requires Lays(a, a', p, q) && Lays(b, b', q, r)
    ensures Lays(a + b, a' + b', p, r)
  {
    hide Place, Move;
    if a == "" {
      assert a + b == b && a' + b' == b';
    } else {
      assert (a + b)[1..] == a[1..] + b;
      LaysConcat(a[1..], Indented(a[1..], Move(p, a[0])), b, b', Move(p, a[0]), q, r);
      Regroup3(Place(p, a[0]), Indented(a[1..], Move(p, a[0])), b');
    }
  }

  lemma {:induction false} PlainLays(s: string, depth: nat)
    requires Plain(s)
    ensures Lays(s, s, At(Outside, depth, false), At(Outside, depth, false))
  {
    if s != "" {
      PlainLays(s[1..], depth);
      assert Place(At(Outside, depth, false), s[0]) == [s[0]];
      assert s == [s[0]] + s[1..];
    }
  }

  lemma {:induction false} InsideLays(s: string, scan: Scan, depth: nat)
    requires Stays(s, scan)
    ensures Lays(s, s, At(scan, depth, false), At(After(s, scan), depth, false))
  {
    if s != "" {
      InsideLays(s[1..], Step(scan, s[0]), depth);
      assert s == [s[0]] + s[1..];
    }
  }

  lemma QuoteLays(depth: nat)
    ensures Lays("\"", "\"", At(Outside, depth, false), At(Inside, depth, false))
    ensures Lays("\"", "\"", At(Inside, depth, false), At(Outside, depth, false))
  {
    assert Place(At(Outside, depth, false), '"') == "\"";
  }

  lemma StringLays(s: string, depth: nat)
    ensures Lays(WriteString(s), WriteString(s), At(Outside, depth, false), At(Outside, depth, false))
  {
    hide Lays;
    CharsInside(s);
    InsideLays(WriteChars(s), Inside, depth);
    QuoteLays(depth);
    var out, inside := At(Outside, depth, false), At(Inside, depth, false);
    LaysConcat("\"", "\"", WriteChars(s), WriteChars(s), out, inside, inside);
    LaysConcat("\"" + WriteChars(s), "\"" + WriteChars(s), "\"", "\"", out, inside, out);
  }

  // Right after an opening bracket a token only gains the break before it.
  lemma OpeningLays(a: string, b: string, depth: nat, q: Position)
    requires a != "" && a[0] !in {']', '}'} && Lays(a, b, At(Outside, depth, false), q)
    ensures Lays(a, Line(depth) + b, At(Outside, depth, true), q)
  {
    var p, u := At(Outside, depth, true), At(Outside, depth, false);
    assert Move(p, a[0]) == Move(u, a[0]);
    var rest := Indented(a[1..], Move(p, a[0]));
    var tail := [a[0]] + if a[0] == ',' then Line(depth) else if a[0] == ':' then " " else "";
    assert Place(p, a[0]) == Line(depth) + tail && Place(u, a[0]) == "" + tail == tail;
    Regroup3(Line(depth), tail, rest);
  }

  lemma {:induction false} BreakIsLine(depth: nat)
    ensures Break(true, depth) == Line(depth)
  {
    if depth > 0 {
      BreakIsLine(depth - 1);
      var spaces := seq(2 * (depth - 1), _ => ' ');
      assert seq(2 * depth, _ => ' ') == "  " + spaces;
      assert Break(true, depth - 1)[1..] == spaces && Line(depth - 1)[1..] == Indent(depth - 1);
    }
  }

  function Out(depth: nat): Position { At(Outside, depth, false) }

  lemma CommaLays(depth: nat)
    ensures Lays(",", "," + Line(depth), Out(depth), Out(depth))
  {
    var text := "" + ("," + Line(depth));
    assert text + "" == text == "," + Line(depth);
  }

  lemma ColonLays(depth: nat)
    ensures Lays(":", ": ", Out(depth), Out(depth))
  {
    assert Place(Out(depth), ':') == ": ";
  }

  lemma ClosingLays(close: string, depth: nat)
    requires close in {"]", "}"}
    ensures Lays(close, Line(depth) + close, Out(depth + 1), Out(depth))
  {
    assert close[1..] == "" && [close[0]] == close;
  }

  lemma EmptyLays(brackets: string, depth: nat)
    requires brackets in {"[]", "{}"}
    ensures Lays(brackets, brackets, Out(depth), Out(depth))
  {
    var p := At(Outside, depth + 1, true);
    assert Place(Out(depth), brackets[0]) == brackets[..1];
    assert Place(p, brackets[1]) == brackets[1..];
    assert Indented(brackets[1..], p) == brackets[1..] && End(brackets[1..], p) == Out(depth);
  }

  lemma OpenLays(open: string, depth: nat)
    requires open in {"[", "{"}
    ensures Lays(open, open, Out(depth), At(Outside, depth + 1, true))
  {
    assert Place(Out(depth), open[0]) == open;
  }

  lemma BracketLays(open: string, a: string, a': string, depth: nat)
    requires open in {"[", "{"} && Lays(a, a', At(Outside, depth + 1, true), Out(depth))
    ensures Lays(open + a, open + a', Out(depth), Out(depth))
  {
    OpenLays(open, depth);
    LaysConcat(open, open, a, a', Out(depth), At(Outside, depth + 1, true), Out(depth));
  }

  /** The indented form is the compact one, broken and indented by the second pass. */
  lemma {:induction false} ValueLays(round: Rounding, v: Value, depth: nat)
    requires Encodable(round, v)
    ensures Lays(Write(false, v, depth), Write(true, v, depth), Out(depth), Out(depth))
    decreases v, 2
  {
    hide PropertyOrder, ObjectKeys, Lays, WriteElements, WriteMembers, WriteString, FormatNumber;
    match v
    case Null => PlainLays("null", depth);
    case Bool(b) => PlainLays(if b then "true" else "false", depth);
    case Num(n) =>
      NumberIsPlain(n);
      PlainLays(FormatNumber(n), depth);
    case Str(s) => StringLays(s, depth);
    case Arr(items) =>
      EmptyLays("[]", depth);
      if items != [] {
        ElementsLay(round, v, 0, depth);
        BracketLays("[", WriteElements(false, v, 0, depth), WriteElements(true, v, 0, depth), depth);
      }
    case Obj(_, _) =>
      var keys := PropertyOrder(ObjectKeys(v));
      EmptyLays("{}", depth);
      if keys != [] {
        MembersLay(round, v, keys, depth);
        BracketLays("{", WriteMembers(false, v, keys, depth), WriteMembers(true, v, keys, depth), depth);
      }
  }

  // The text from one element or member on, wherever it stands: after the opening bracket or after a comma.
  predicate Continues(a: string, b: string, depth: nat) {
    && Lays(a, b, At(Outside, depth + 1, true), Out(depth))
    && Lays("," + a, "," + b, Out(depth + 1), Out(depth))
  }

  lemma ContinuesWith(a: string, b: string, depth: nat)
    requires a != "" && a[0] !in {']', '}'} && Lays(a, b, Out(depth + 1), Out(depth))
    ensures Continues(a, Line(depth + 1) + b, depth)
  {
    hide Lays, Line;
    OpeningLays(a, b, depth + 1, Out(depth));
    CommaLays(depth + 1);
    LaysConcat(",", "," + Line(depth + 1), a, b, Out(depth + 1), Out(depth + 1), Out(depth));
    Regroup3(",", Line(depth + 1), b);
  }

  lemma {:induction false} ElementsLay(round: Rounding, v: Value, i: nat, depth: nat)
    requires v.Arr? && i < |v.items| && Encodable(round, v)
    ensures Continues(WriteElements(false, v, i, depth), WriteElements(true, v, i, depth), depth)
    decreases v, 0, |v.items| - i
  {
    hide PropertyOrder, ObjectKeys, Lays, Write, Line, Break, Encodable;
    var w, w' := Write(false, v.items[i], depth + 1), Write(true, v.items[i], depth + 1);
    var more, more' := WriteElements(false, v, i + 1, depth), WriteElements(true, v, i + 1, depth);
    var comma := if i + 1 < |v.items| then "," else "";
    ElementIsSettled(round, v, i);
    ValueLays(round, v.items[i], depth + 1);
    WriteIsToken(false, v.items[i], depth + 1);
    if i + 1 < |v.items| { ElementsLay(round, v, i + 1, depth); } else { LastLays("]", depth); }
    assert comma == "" ==> comma + more == more && comma + more' == more';
    LaysConcat(w, w', comma + more, comma + more', Out(depth + 1), Out(depth + 1), Out(depth));
    ContinuesWith(w + (comma + more), w' + (comma + more'), depth);
    BreakIsLine(depth + 1);
    NoBreak(w + (comma + more), depth + 1);
  }

  lemma NoBreak(s: string, depth: nat)
    ensures Break(false, depth) + s == s
  {
  }

  lemma LastLays(close: string, depth: nat)
    requires close in {"]", "}"}
    ensures Lays(Break(false, depth) + close, Break(true, depth) + close, Out(depth + 1), Out(depth))
  {
    hide Lays;
    ClosingLays(close, depth);
    BreakIsLine(depth);
    NoBreak(close, depth);
  }

  lemma {:induction false} MembersLay(round: Rounding, v: Value, keys: seq<string>, depth: nat)
    requires v.Obj? && keys != [] && Encodable(round, v) && forall k :: k in keys ==> k in v.m
    ensures Continues(WriteMembers(false, v, keys, depth), WriteMembers(true, v, keys, depth), depth)
    decreases v, 0, |keys|
  {
    hide PropertyOrder, ObjectKeys, Lays, Write, Line, Break, WellFormed;
    var k := keys[0];
    var w, w' := Write(false, v.m[k], depth + 1), Write(true, v.m[k], depth + 1);
    var more, more' := WriteMembers(false, v, keys[1..], depth), WriteMembers(true, v, keys[1..], depth);
    var comma := if |keys| > 1 then "," else "";
    ValueLays(round, v.m[k], depth + 1);
    if |keys| > 1 { MembersLay(round, v, keys[1..], depth); } else { LastLays("}", depth); }
    assert comma == "" ==> comma + more == more && comma + more' == more';
    LaysConcat(w, w', comma + more, comma + more', Out(depth + 1), Out(depth + 1), Out(depth));
    MemberLays(k, w + (comma + more), w' + (comma + more'), depth);
    BreakIsLine(depth + 1);
    NoBreak(WriteString(k) + (":" + (w + (comma + more))), depth + 1);
  }

  lemma MemberLays(k: string, a: string, b: string, depth: nat)
    requires Lays(a, b, Out(depth + 1), Out(depth))
    ensures Continues(WriteString(k) + (":" + a), Line(depth + 1) + (WriteString(k) + (": " + b)), depth)
  {
    hide Lays, Line, WriteChars;
    StringLays(k, depth + 1);
    ColonLays(depth + 1);
    LaysConcat(":", ": ", a, b, Out(depth + 1), Out(depth + 1), Out(depth));
    LaysConcat(WriteString(k), WriteString(k), ":" + a, ": " + b, Out(depth + 1), Out(depth + 1), Out(depth));
    assert (WriteString(k) + (":" + a))[0] == '"';
    ContinuesWith(WriteString(k) + (":" + a), WriteString(k) + (": " + b), depth);
  }

  /** The serialized text is the compact text with its lines broken and indented. */
  lemma SerializedIsIndented(round: Rounding, v: Value)
    requires Encodable(round, v)
    ensures Serialize(v) == Indented(CompactSerialize(v), Out(0))
  {
    hide Write, Indented, Squeeze;
    ValueSqueezes(round, v, 0);
    ValueLays(round, v, 0);
  }
}
