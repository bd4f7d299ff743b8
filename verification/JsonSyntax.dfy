/**
 JSON texts as RFC 8259 describes them, apart from the parser: trees of values with the blanks
 around them. The parser accepts exactly these texts and yields exactly the values they denote.
 */
module JsonSyntax {
  import opened JsonValue
  import opened JsonNumber
  import opened JsonString
  import opened JsonText
  import opened JsonGrammar
  import JsonLaws

  type Spelling = lit: Literal | WellSpelled(lit) witness Literal(false, "0", "", false, "")

  /** A value's text, with the number or the string it denotes. */
  datatype Node =
    | Word(word: string)
    | Numeral(lit: Spelling, exponent: string)
    | Quoted(pieces: seq<Piece>, bytes: string)
    | Array(gap: string, elements: Elements)
    | Object(gap: string, members: Members)

  // The blanks around each element and each member belong to it; `gap` is the inside of empty brackets.
  datatype Elements = NoElement | Element(before: string, node: Node, after: string, more: Elements)

  datatype Members =
    | NoMember
    | Member(before: string, pieces: seq<Piece>, key: string, left: string, right: string, node: Node, after: string, more: Members)

  predicate Blank(s: string) { forall c :: c in s ==> c == 0x20 as char || c == 0x09 as char || c == 0x0A as char || c == 0x0D as char }

  // The exponent of a number: either letter, and a plus sign or none unless it is negative.
  predicate SpellsExponent(s: string, neg: bool, digits: string) {
    if digits == "" then s == "" && !neg
    else s != "" && s[0] in {'e', 'E'} && (if neg then s[1..] == "-" + digits else s[1..] == digits || s[1..] == "+" + digits)
  }

  ghost predicate ValidNode(n: Node) {
    match n
    case Word(word) => word in {"null", "true", "false"}
    case Numeral(lit, exponent) => SpellsExponent(exponent, lit.expNeg, lit.expDigits)
    case Quoted(pieces, bytes) => ValidPieces(pieces) && Spells(bytes, Points(pieces))
    case Array(gap, elements) => Blank(gap) && (elements.Element? ==> gap == "") && ValidElements(elements)
    case Object(gap, members) => Blank(gap) && (members.Member? ==> gap == "") && ValidMembers(members)
  }

  ghost predicate ValidElements(es: Elements) {
    es.Element? ==> Blank(es.before) && ValidNode(es.node) && Blank(es.after) && ValidElements(es.more)
  }

  ghost predicate ValidMembers(ms: Members) {
    ms.Member? ==>
      && Blank(ms.before) && ValidPieces(ms.pieces) && Spells(ms.key, Points(ms.pieces)) && Blank(ms.left) && Blank(ms.right)
      && ValidNode(ms.node) && Blank(ms.after) && ValidMembers(ms.more)
  }

  /** The text of a node in front of `rest`. */
  function NodeText(n: Node, rest: string): string
    decreases n, 0
  {
    match n
    case Word(word) => word + rest
    case Numeral(lit, exponent) => (if lit.neg then "-" else "") + (lit.whole + SpellFraction(lit, exponent + rest))
    case Quoted(pieces, _) => "\"" + Closed(pieces, rest)
    case Array(gap, elements) => "[" + (if elements.Element? then ElementsText(elements, rest) else gap + ("]" + rest))
    case Object(gap, members) => "{" + (if members.Member? then MembersText(members, rest) else gap + ("}" + rest))
  }

  function ElementsText(es: Elements, rest: string): string
    requires es.Element?
    decreases es, 1
  {
    es.before + NodeText(es.node, es.after + ElementsTail(es, rest))
  }

  function ElementsTail(es: Elements, rest: string): string
    requires es.Element?
    decreases es, 0
  {
    if es.more.Element? then "," + ElementsText(es.more, rest) else "]" + rest
  }

  function MembersText(ms: Members, rest: string): string
    requires ms.Member?
    decreases ms, 1
  {
    ms.before + ("\"" + Closed(ms.pieces, ms.left + (":" + (ms.right + NodeText(ms.node, ms.after + MembersTail(ms, rest))))))
  }

  function MembersTail(ms: Members, rest: string): string
    requires ms.Member?
    decreases ms, 0
  {
    if ms.more.Member? then "," + MembersText(ms.more, rest) else "}" + rest
  }

  /** The value a node denotes: members stand where their key was first seen, with the value last seen. */
  function Denoted(round: Rounding, n: Node): Value {
    match n
    case Word(word) => if word == "true" then Bool(true) else if word == "false" then Bool(false) else Null
    case Numeral(lit, _) => Num(round(Exact(lit)))
    case Quoted(_, bytes) => Str(bytes)
    case Array(_, elements) => Arr(Items(round, elements))
    case Object(_, members) => Obj(FirstSeen(members), LastSeen(round, members))
  }

  function Items(round: Rounding, es: Elements): seq<Value> {
    if es.NoElement? then [] else [Denoted(round, es.node)] + Items(round, es.more)
  }

  function FirstSeen(ms: Members): seq<string> { if ms.NoMember? then [] else [ms.key] + Unseen(FirstSeen(ms.more), {ms.key}) }

  function Unseen(keys: seq<string>, seen: set<string>): seq<string> {
    if keys == [] then [] else (if keys[0] in seen then [] else [keys[0]]) + Unseen(keys[1..], seen)
  }

  function LastSeen(round: Rounding, ms: Members): map<string, Value> {
    if ms.NoMember? then map[]
    else map[ms.key := Denoted(round, ms.node)] + LastSeen(round, ms.more)
  }

  // ----- Blanks and first characters -----

  lemma BlankSkips(blank: string, s: string)
    requires Blank(blank) && (s != "" ==> !IsSpace(s[0]))
    ensures SkipSpace(blank + s) == s
  {
    JsonLaws.SkipsBlank(blank, s);
  }

  lemma NodeStarts(n: Node, rest: string)
    requires ValidNode(n)
    ensures var s := NodeText(n, rest); s != "" && !IsSpace(s[0]) && s[0] !in {']', '}', ','}
  {
    hide Closed, SpellFraction, Spells, ValidPieces, ElementsText, MembersText;
    if n.Numeral? { assert NodeText(n, rest)[0] == if n.lit.neg then '-' else n.lit.whole[0]; }
  }

  lemma BlankEndsNumber(blank: string, s: string)
    requires Blank(blank) && EndsNumber(s)
    ensures EndsNumber(blank + s)
  {
    if blank != "" { assert (blank + s)[0] == blank[0] && blank[0] in blank; } else { assert blank + s == s; }
  }

  lemma ElementsSkip(es: Elements, rest: string)
    requires es.Element? && ValidElements(es)
    ensures SkipSpace(ElementsText(es, rest)) == NodeText(es.node, es.after + ElementsTail(es, rest))
  {
    hide NodeText, ElementsTail, ValidNode;
    NodeStarts(es.node, es.after + ElementsTail(es, rest));
    BlankSkips(es.before, NodeText(es.node, es.after + ElementsTail(es, rest)));
  }

  lemma AfterElement(es: Elements, rest: string)
    requires es.Element? && ValidElements(es)
    ensures EndsNumber(es.after + ElementsTail(es, rest)) && SkipSpace(es.after + ElementsTail(es, rest)) == ElementsTail(es, rest)
  {
    hide NodeText, ElementsText, ValidNode;
    BlankEndsNumber(es.after, ElementsTail(es, rest));
    BlankSkips(es.after, ElementsTail(es, rest));
  }

  lemma MembersSkip(ms: Members, rest: string)
    requires ms.Member? && ValidMembers(ms)
    ensures SkipSpace(MembersText(ms, rest)) == MembersText(ms.(before := ""), rest)
    ensures Starts(MembersText(ms.(before := ""), rest), '"')
  {
    hide NodeText, ValidNode, Closed, Spells, ValidPieces;
    var u := ms.(before := "");
    assert MembersTail(u, rest) == MembersTail(ms, rest);
    hide MembersTail;
    var t := "\"" + Closed(ms.pieces, ms.left + (":" + (ms.right + NodeText(ms.node, ms.after + MembersTail(ms, rest)))));
    assert MembersText(u, rest) == "" + t == t;
    BlankSkips(ms.before, t);
  }

  lemma AfterMember(ms: Members, rest: string)
    requires ms.Member? && ValidMembers(ms)
    ensures EndsNumber(ms.after + MembersTail(ms, rest)) && SkipSpace(ms.after + MembersTail(ms, rest)) == MembersTail(ms, rest)
  {
    hide NodeText, MembersText, ValidNode, Closed, Spells, ValidPieces;
    BlankEndsNumber(ms.after, MembersTail(ms, rest));
    BlankSkips(ms.after, MembersTail(ms, rest));
  }

  // ----- Every valid text is read -----

  lemma ExponentReads(s: string, neg: bool, digits: string, rest: string)
    requires SpellsExponent(s, neg, digits) && AllDigits(digits) && EndsNumber(rest)
    ensures ParseExponent(s + rest) == Ok((neg, digits), rest)
  {
    hide TakeDigits, AllDigits;
    if digits == "" {
      assert s + rest == rest;
    } else {
      var body := s[1..] + rest;
      assert (s + rest)[0] == s[0] && (s + rest)[1..] == body;
      TakeExactly(digits, rest);
      assert (digits + rest)[|digits|..] == rest;
      if s[1..] == digits {
        FirstDigit(digits, rest);
      } else {
        assert body[0] == s[1] && body[1..] == digits + rest && (s + rest)[2..] == body[1..];
      }
    }
  }

  lemma FirstDigit(digits: string, rest: string)
    requires digits != "" && AllDigits(digits)
    ensures !Starts(digits + rest, '+') && !Starts(digits + rest, '-')
  {
    assert (digits + rest)[0] == digits[0];
  }

  lemma NumeralReads(lit: Spelling, exponent: string, rest: string)
    requires ValidNode(Numeral(lit, exponent)) && EndsNumber(rest)
    ensures ParseLiteral(NodeText(Numeral(lit, exponent), rest)) == Ok(lit, rest)
  {
    hide ParseWhole, ParseFraction, ParseExponent, SpellFraction;
    var after := exponent + rest;
    var tail := SpellFraction(lit, after);
    var s := NodeText(Numeral(lit, exponent), rest);
    assert Starts(s, '-') == lit.neg by { assert s[0] == if lit.neg then '-' else lit.whole[0]; }
    assert (if lit.neg then s[1..] else s) == lit.whole + tail;
    ExponentStarts(exponent, lit.expNeg, lit.expDigits, rest);
    FractionStarts(lit, after);
    SpelledWhole(lit.whole, tail);
    SpelledFraction(lit, after);
    ExponentReads(exponent, lit.expNeg, lit.expDigits, rest);
  }

  lemma ExponentStarts(s: string, neg: bool, digits: string, rest: string)
    requires SpellsExponent(s, neg, digits) && EndsNumber(rest)
    ensures !StartsDigit(s + rest) && !Starts(s + rest, '.')
  {
    if s != "" { assert (s + rest)[0] == s[0]; } else { assert s + rest == rest; }
  }

  lemma FractionStarts(lit: Literal, after: string)
    requires !StartsDigit(after)
    ensures !StartsDigit(SpellFraction(lit, after))
  {
  }

  lemma WordReads(round: Rounding, word: string, rest: string)
    requires word in {"null", "true", "false"}
    ensures ParseValue(round, NodeText(Word(word), rest)) == Ok(Denoted(round, Word(word)), rest)
  {
    var s := word + rest;
    assert s[..|word|] == word && s[|word|..] == rest && s[0] == word[0];
  }

  lemma NumberDispatch(round: Rounding, s: string)
    requires s != "" && (s[0] == '-' || IsDigit(s[0]))
    ensures ParseValue(round, s) == ParseNumber(round, s)
  {
    hide ParseNumber, ParseString, ParseElements, ParseMembers, SkipSpace;
  }

  lemma NumberReads(round: Rounding, n: Node, rest: string)
    requires n.Numeral? && ValidNode(n) && EndsNumber(rest)
    ensures ParseValue(round, NodeText(n, rest)) == Ok(Denoted(round, n), rest)
  {
    var s := NodeText(n, rest);
    assert s != "" && (s[0] == '-' || IsDigit(s[0])) by { assert s[0] == if n.lit.neg then '-' else n.lit.whole[0]; }
    hide ParseLiteral, Exact, NodeText, ParseValue;
    NumeralReads(n.lit, n.exponent, rest);
    NumberDispatch(round, s);
  }

  lemma StringDispatch(round: Rounding, body: string)
    ensures ParseString("\"" + body) == ParseChars(body)
    ensures ParseValue(round, "\"" + body) == match ParseChars(body) { case Err => Err case Ok(text, rest) => Ok(Str(text), rest) }
  {
    hide ParseChars;
    assert ("\"" + body)[1..] == body;
  }

  // A closed text reads as the bytes its pieces spell.
  lemma BytesRead(pieces: seq<Piece>, bytes: string, rest: string)
    requires ValidPieces(pieces) && Spells(bytes, Points(pieces))
    ensures ParseChars(Closed(pieces, rest)) == Ok(bytes, rest)
  {
    hide *;
    PiecesRead(pieces, rest);
    SpellsOne(ParseChars(Closed(pieces, rest)).value, bytes, Points(pieces));
  }

  lemma TextReads(round: Rounding, n: Node, rest: string)
    requires n.Quoted? && ValidNode(n)
    ensures ParseValue(round, NodeText(n, rest)) == Ok(Denoted(round, n), rest)
  {
    hide ParseChars, Closed, Spells, ValidPieces, Points, ParseValue;
    BytesRead(n.pieces, n.bytes, rest);
    StringDispatch(round, Closed(n.pieces, rest));
  }

  lemma ElementStep(round: Rounding, s: string, items: seq<Value>)
    requires ParseValue(round, SkipSpace(s)).Ok?
    ensures var first := ParseValue(round, SkipSpace(s)); var t, read := SkipSpace(first.rest), items + [first.value];
            && (Starts(t, ']') ==> ParseElements(round, s, items) == Ok(Arr(read), t[1..]))
            && (Starts(t, ',') && SkipSpace(t[1..]) != "" ==> ParseElements(round, s, items) == ParseElements(round, SkipSpace(t[1..]), read))
  {
    hide ParseValue, SkipSpace;
  }

  lemma ArrayDispatch(round: Rounding, body: string)
    ensures Starts(SkipSpace(body), ']') ==> ParseValue(round, "[" + body) == Ok(Arr([]), SkipSpace(body)[1..])
    ensures !Starts(SkipSpace(body), ']') ==> ParseValue(round, "[" + body) == ParseElements(round, SkipSpace(body), [])
  {
    assert ("[" + body)[1..] == body;
  }

  lemma SkippedTwice(s: string)
    ensures SkipSpace(SkipSpace(s)) == SkipSpace(s)
  {
  }

  lemma {:induction false} ElementsRead(round: Rounding, es: Elements, items: seq<Value>, rest: string)
    requires es.Element? && ValidElements(es)
    ensures ParseElements(round, SkipSpace(ElementsText(es, rest)), items) == Ok(Arr(items + Items(round, es)), rest)
    decreases es, 1
  {
    hide ParseValue, ParseElements, NodeText, SkipSpace, ValidNode, ElementsText, Denoted, EndsNumber;
    var tail := ElementsTail(es, rest);
    var s := SkipSpace(ElementsText(es, rest));
    ElementsSkip(es, rest);
    SkippedTwice(ElementsText(es, rest));
    AfterElement(es, rest);
    NodeReads(round, es.node, es.after + tail);
    ElementStep(round, s, items);
    var read := items + [Denoted(round, es.node)];
    if es.more.Element? {
      var body := ElementsText(es.more, rest);
      assert tail[1..] == body;
      ElementsSkip(es.more, rest);
      NodeStarts(es.more.node, es.more.after + ElementsTail(es.more, rest));
      ElementsRead(round, es.more, read, rest);
      assert read + Items(round, es.more) == items + Items(round, es);
    } else {
      assert tail[1..] == rest && read == items + Items(round, es);
    }
  }

  lemma {:induction false} ArrayReads(round: Rounding, n: Node, rest: string)
    requires n.Array? && ValidNode(n)
    ensures ParseValue(round, NodeText(n, rest)) == Ok(Denoted(round, n), rest)
    decreases n, 0
  {
    hide ParseValue, ParseElements, SkipSpace, ElementsText, ValidElements;
    var es := n.elements;
    if es.Element? {
      ArrayDispatch(round, ElementsText(es, rest));
      ElementsSkip(es, rest);
      FirstElementStarts(es, rest);
      ElementsRead(round, es, [], rest);
      assert [] + Items(round, es) == Items(round, es);
    } else {
      ArrayDispatch(round, n.gap + ("]" + rest));
      BlankSkips(n.gap, "]" + rest);
      assert ("]" + rest)[1..] == rest;
    }
  }

  lemma FirstElementStarts(es: Elements, rest: string)
    requires es.Element? && ValidElements(es)
    ensures var t := SkipSpace(ElementsText(es, rest)); t != "" && t[0] != ']'
  {
    ElementsSkip(es, rest);
    NodeStarts(es.node, es.after + ElementsTail(es, rest));
  }

  /** Every valid text of a value is read, as the value it denotes. */
  lemma {:induction false} NodeReads(round: Rounding, n: Node, rest: string)
    requires ValidNode(n) && EndsNumber(rest)
    ensures ParseValue(round, NodeText(n, rest)) == Ok(Denoted(round, n), rest)
    decreases n, 1
  {
    hide *;
    match n
    case Word(word) => assert word in {"null", "true", "false"} by { NodeIsWord(word); } WordReads(round, word, rest);
    case Numeral(_, _) => NumberReads(round, n, rest);
    case Quoted(_, _) => TextReads(round, n, rest);
    case Array(_, _) => ArrayReads(round, n, rest);
    case Object(_, _) => ObjectReads(round, n, rest);
  }

  lemma NodeIsWord(word: string)
    requires ValidNode(Word(word))
    ensures word in {"null", "true", "false"}
  {
  }

  // ----- Members -----

  function PutMembers(round: Rounding, o: Value, ms: Members): Value
    requires o.Obj?
    decreases ms
  {
    if ms.NoMember? then o else PutMembers(round, PutObject(o, ms.key, Denoted(round, ms.node)), ms.more)
  }

  lemma UnseenHead(k: string, keys: seq<string>, seen: set<string>)
    ensures Unseen([k] + keys, seen) == (if k in seen then [] else [k]) + Unseen(keys, seen)
  {
    assert ([k] + keys)[1..] == keys;
  }

  lemma {:induction false} UnseenTwice(keys: seq<string>, a: set<string>, b: set<string>)
    ensures Unseen(Unseen(keys, a), b) == Unseen(keys, a + b)
  {
    if keys != [] {
      UnseenTwice(keys[1..], a, b);
      var rest := Unseen(keys[1..], a);
      UnseenHead(keys[0], rest, b);
      assert [] + rest == rest && [] + Unseen(rest, b) == Unseen(rest, b);
    }
  }

  lemma {:induction false} UnseenNone(keys: seq<string>)
    ensures Unseen(keys, {}) == keys
  {
    if keys != [] { UnseenNone(keys[1..]); }
  }

  lemma UnseenOfNone(seen: set<string>)
    ensures Unseen([], seen) == []
  {
  }

  lemma MapAssociates<K, V>(m: map<K, V>, k: K, v: V, later: map<K, V>)
    ensures m[k := v] + later == m + (map[k := v] + later)
  {
  }

  lemma KeysJoin(keys: seq<string>, seen: set<string>, k: string, later: seq<string>)
    ensures (if k in seen then keys else keys + [k]) + Unseen(later, {k} + seen) == keys + Unseen([k] + Unseen(later, {k}), seen)
  {
    UnseenTwice(later, {k}, seen);
    UnseenHead(k, Unseen(later, {k}), seen);
    var rest := Unseen(later, {k} + seen);
    assert [] + rest == rest && keys + [k] + rest == keys + ([k] + rest);
  }

  lemma PutKeys(o: Value, k: string, v: Value, later: seq<string>)
    requires o.Obj?
    ensures PutObject(o, k, v).keys + Unseen(later, PutObject(o, k, v).m.Keys) == o.keys + Unseen([k] + Unseen(later, {k}), o.m.Keys)
  {
    hide Unseen;
    KeysJoin(o.keys, o.m.Keys, k, later);
    assert {k} + o.m.Keys == PutObject(o, k, v).m.Keys;
  }

  /** Putting members one by one keeps the first place and the last value of every key. */
  lemma {:induction false} PutMembersIs(round: Rounding, o: Value, ms: Members)
    requires o.Obj?
    ensures PutMembers(round, o, ms) == Obj(o.keys + Unseen(FirstSeen(ms), o.m.Keys), o.m + LastSeen(round, ms))
    decreases ms
  {
    hide Denoted, Unseen;
    if ms.NoMember? {
      UnseenOfNone(o.m.Keys);
    } else {
      var k, v := ms.key, Denoted(round, ms.node);
      PutMembersIs(round, PutObject(o, k, v), ms.more);
      PutKeys(o, k, v, FirstSeen(ms.more));
      MapAssociates(o.m, k, v, LastSeen(round, ms.more));
    }
  }

  lemma ObjectIs(round: Rounding, ms: Members)
    ensures PutMembers(round, EMPTY_OBJECT, ms) == Obj(FirstSeen(ms), LastSeen(round, ms))
  {
    hide PutMembers, FirstSeen, LastSeen, Unseen, Denoted;
    PutMembersIs(round, EMPTY_OBJECT, ms);
    UnseenNone(FirstSeen(ms));
    NothingBefore(LastSeen(round, ms));
    assert EMPTY_OBJECT.m.Keys == {} && [] + FirstSeen(ms) == FirstSeen(ms);
  }

  lemma NothingBefore<K, V>(m: map<K, V>)
    ensures map[] + m == m
  {
  }

  lemma MemberStep(round: Rounding, s: string, o: Value, key: string, s1: string, v: Value, s3: string)
    requires o.Obj? && ParseString(SkipSpace(s)) == Ok(key, s1) && Starts(SkipSpace(s1), ':')
    requires ParseValue(round, SkipSpace(SkipSpace(s1)[1..])) == Ok(v, s3)
    ensures var t, put := SkipSpace(s3), PutObject(o, key, v);
            && (Starts(t, '}') ==> ParseMembers(round, s, o) == Ok(put, t[1..]))
            && (Starts(t, ',') && SkipSpace(t[1..]) != "" ==> ParseMembers(round, s, o) == ParseMembers(round, SkipSpace(t[1..]), put))
  {
    hide ParseValue, SkipSpace, ParseString, PutObject;
  }

  lemma KeyReads(ms: Members, rest: string)
    requires ms.Member? && ValidMembers(ms)
    ensures var value := ms.right + NodeText(ms.node, ms.after + MembersTail(ms, rest));
            && ParseString(SkipSpace(MembersText(ms, rest))) == Ok(ms.key, ms.left + (":" + value))
            && SkipSpace(ms.left + (":" + value)) == ":" + value
            && (":" + value)[1..] == value && SkipSpace(value) == NodeText(ms.node, ms.after + MembersTail(ms, rest))
  {
    hide NodeText, MembersTail, ValidNode, ParseChars, Closed, Spells, ValidPieces, Points, SkipSpace;
    var node := NodeText(ms.node, ms.after + MembersTail(ms, rest));
    var value := ms.right + node;
    MembersSkip(ms, rest);
    BytesRead(ms.pieces, ms.key, ms.left + (":" + value));
    KeyText(ms, rest);
    QuoteReads(Closed(ms.pieces, ms.left + (":" + value)));
    BlankSkips(ms.left, ":" + value);
    NodeStarts(ms.node, ms.after + MembersTail(ms, rest));
    BlankSkips(ms.right, node);
  }

  lemma QuoteReads(body: string)
    ensures ParseString("\"" + body) == ParseChars(body)
  {
    hide ParseChars;
    assert ("\"" + body)[1..] == body;
  }

  lemma KeyText(ms: Members, rest: string)
    requires ms.Member?
    ensures MembersText(ms.(before := ""), rest)
            == "\"" + Closed(ms.pieces, ms.left + (":" + (ms.right + NodeText(ms.node, ms.after + MembersTail(ms, rest)))))
  {
    hide NodeText, Closed;
    var u := ms.(before := "");
    assert MembersTail(u, rest) == MembersTail(ms, rest);
    var t := "\"" + Closed(ms.pieces, ms.left + (":" + (ms.right + NodeText(ms.node, ms.after + MembersTail(ms, rest)))));
    assert "" + t == t;
  }

  lemma {:induction false} MembersRead(round: Rounding, ms: Members, o: Value, rest: string)
    requires ms.Member? && ValidMembers(ms) && o.Obj?
    ensures ParseMembers(round, SkipSpace(MembersText(ms, rest)), o) == Ok(PutMembers(round, o, ms), rest)
    decreases ms, 1
  {
    hide ParseValue, ParseMembers, ParseString, NodeText, SkipSpace, ValidNode, MembersText, Denoted, EndsNumber, ValidPieces, Spells;
    var tail := MembersTail(ms, rest);
    var s := SkipSpace(MembersText(ms, rest));
    var value := ms.right + NodeText(ms.node, ms.after + tail);
    KeyReads(ms, rest);
    SkippedTwice(MembersText(ms, rest));
    AfterMember(ms, rest);
    NodeReads(round, ms.node, ms.after + tail);
    MemberStep(round, s, o, ms.key, ms.left + (":" + value), Denoted(round, ms.node), ms.after + tail);
    if ms.more.Member? {
      assert tail[1..] == MembersText(ms.more, rest);
      MembersSkip(ms.more, rest);
      MembersRead(round, ms.more, PutObject(o, ms.key, Denoted(round, ms.node)), rest);
    } else {
      assert tail[1..] == rest;
    }
  }

  lemma ObjectDispatch(round: Rounding, body: string)
    ensures Starts(SkipSpace(body), '}') ==> ParseValue(round, "{" + body) == Ok(EMPTY_OBJECT, SkipSpace(body)[1..])
    ensures !Starts(SkipSpace(body), '}') ==> ParseValue(round, "{" + body) == ParseMembers(round, SkipSpace(body), EMPTY_OBJECT)
  {
    assert ("{" + body)[1..] == body;
  }

  lemma {:induction false} ObjectReads(round: Rounding, n: Node, rest: string)
    requires n.Object? && ValidNode(n)
    ensures ParseValue(round, NodeText(n, rest)) == Ok(Denoted(round, n), rest)
    decreases n, 0
  {
    hide ParseValue, ParseMembers, SkipSpace, MembersText, ValidMembers;
    var ms := n.members;
    ObjectIs(round, ms);
    if ms.Member? {
      ObjectDispatch(round, MembersText(ms, rest));
      MembersSkip(ms, rest);
      MembersRead(round, ms, EMPTY_OBJECT, rest);
    } else {
      ObjectDispatch(round, n.gap + ("}" + rest));
      BlankSkips(n.gap, "}" + rest);
      assert ("}" + rest)[1..] == rest;
    }
  }

  // ----- Nothing else is read -----

  lemma {:induction false} SkipsOnlyBlanks(s: string) returns (blank: string)
    ensures Blank(blank) && s == blank + SkipSpace(s)
  {
    if s != "" && IsSpace(s[0]) {
      var more := SkipsOnlyBlanks(s[1..]);
      blank := [s[0]] + more;
      assert s == [s[0]] + s[1..];
    } else {
      blank := "";
      assert s == "" + s;
    }
  }

  lemma SplitExponent(s: string, signed: bool, t: string, digits: string)
    requires |s| > 1 && t == (if signed then s[2..] else s[1..]) && digits <= t
    ensures var exponent := (if signed then s[..2] else s[..1]) + digits;
            s == exponent + t[|digits|..] && exponent[0] == s[0] && exponent[1..] == if signed then [s[1]] + digits else digits
  {
    assert t == digits + t[|digits|..];
    assert s == (if signed then s[..2] else s[..1]) + t;
  }

  lemma ExponentIsSpelled(s: string) returns (exponent: string)
    requires ParseExponent(s).Ok?
    ensures var r := ParseExponent(s); s == exponent + r.rest && SpellsExponent(exponent, r.value.0, r.value.1)
  {
    hide TakeDigits, AllDigits;
    if Starts(s, 'e') || Starts(s, 'E') {
      var signed := Starts(s[1..], '+') || Starts(s[1..], '-');
      var t := if signed then s[2..] else s[1..];
      var digits := TakeDigits(t);
      SplitExponent(s, signed, t, digits);
      exponent := (if signed then s[..2] else s[..1]) + digits;
    } else {
      exponent := "";
      assert s == "" + s;
    }
  }

  lemma FractionIsSpelled(s: string)
    requires ParseFraction(s).Ok?
    ensures var r := ParseFraction(s); s == (if r.value == "" then r.rest else "." + (r.value + r.rest))
  {
    if Starts(s, '.') {
      var digits := TakeDigits(s[1..]);
      assert s == "." + s[1..] && s[1..] == digits + s[1..][|digits|..];
    }
  }

  lemma WholeIsSpelled(s: string)
    requires ParseWhole(s).Ok?
    ensures var whole := ParseWhole(s).value; whole != "" && AllDigits(whole) && (whole[0] == '0' ==> whole == "0")
  {
  }

  lemma LiteralParts(s: string) returns (s1: string, s2: string)
    requires ParseLiteral(s).Ok?
    ensures var lit := ParseLiteral(s).value;
            && lit.neg == Starts(s, '-') && ParseWhole(if lit.neg then s[1..] else s) == Ok(lit.whole, s1)
            && ParseFraction(s1) == Ok(lit.fraction, s2) && ParseExponent(s2) == Ok((lit.expNeg, lit.expDigits), ParseLiteral(s).rest)
  {
    hide ParseWhole, ParseFraction, ParseExponent;
    s1 := ParseWhole(if Starts(s, '-') then s[1..] else s).rest;
    s2 := ParseFraction(s1).rest;
  }

  lemma BodyIsSpelled(t: string, lit: Literal, s1: string, s2: string, rest: string) returns (exponent: string)
    requires ParseWhole(t) == Ok(lit.whole, s1) && ParseFraction(s1) == Ok(lit.fraction, s2)
    requires ParseExponent(s2) == Ok((lit.expNeg, lit.expDigits), rest)
    ensures WellSpelled(lit) && SpellsExponent(exponent, lit.expNeg, lit.expDigits)
    ensures t == lit.whole + SpellFraction(lit, exponent + rest)
  {
    hide ParseWhole, ParseFraction, ParseExponent;
    WholeIsSpelled(t);
    FractionIsSpelled(s1);
    exponent := ExponentIsSpelled(s2);
  }

  lemma NumeralIsSpelled(s: string) returns (n: Node)
    requires ParseLiteral(s).Ok?
    ensures var r := ParseLiteral(s); ValidNode(n) && n.Numeral? && n.lit == r.value && s == NodeText(n, r.rest)
  {
    var lit, rest := ParseLiteral(s).value, ParseLiteral(s).rest;
    var s1, s2 := LiteralParts(s);
    hide ParseLiteral, ParseWhole, ParseFraction, ParseExponent, SpellFraction, WellSpelled, SpellsExponent;
    var exponent := BodyIsSpelled(if lit.neg then s[1..] else s, lit, s1, s2, rest);
    n := Numeral(lit, exponent);
    assert s == (if lit.neg then "-" else "") + (if lit.neg then s[1..] else s);
  }

  lemma {:induction false} ReadNode(round: Rounding, s: string) returns (n: Node)
    requires ParseValue(round, s).Ok?
    ensures var r := ParseValue(round, s); ValidNode(n) && s == NodeText(n, r.rest) && r.value == Denoted(round, n)
    decreases |s|, 1
  {
    if s[0] == '{' {
      n := ReadObject(round, s);
    } else if s[0] == '[' {
      n := ReadArray(round, s);
    } else {
      n := ReadToken(round, s);
    }
  }

  lemma ReadToken(round: Rounding, s: string) returns (n: Node)
    requires ParseValue(round, s).Ok? && s[0] !in {'{', '['}
    ensures var r := ParseValue(round, s); ValidNode(n) && s == NodeText(n, r.rest) && r.value == Denoted(round, n)
  {
    if s[0] == '"' {
      n := ReadText(round, s);
    } else if s[0] == '-' || IsDigit(s[0]) {
      n := ReadNumber(round, s);
    } else {
      n := ReadWord(round, s);
    }
  }

  lemma ReadWord(round: Rounding, s: string) returns (n: Node)
    requires ParseValue(round, s).Ok? && s[0] !in {'{', '[', '"', '-'} && !IsDigit(s[0])
    ensures var r := ParseValue(round, s); ValidNode(n) && s == NodeText(n, r.rest) && r.value == Denoted(round, n)
  {
    n := Word(if s[0] == 't' then "true" else if s[0] == 'f' then "false" else "null");
    assert n.word <= s && s == n.word + s[|n.word|..];
  }

  lemma ReadNumber(round: Rounding, s: string) returns (n: Node)
    requires ParseValue(round, s).Ok? && (s[0] == '-' || IsDigit(s[0]))
    ensures var r := ParseValue(round, s); ValidNode(n) && s == NodeText(n, r.rest) && r.value == Denoted(round, n)
  {
    NumberDispatch(round, s);
    hide ParseValue, ParseLiteral, Exact, NodeText;
    n := NumeralIsSpelled(s);
  }

  lemma ReadText(round: Rounding, s: string) returns (n: Node)
    requires ParseValue(round, s).Ok? && s[0] == '"'
    ensures var r := ParseValue(round, s); ValidNode(n) && s == NodeText(n, r.rest) && r.value == Denoted(round, n)
  {
    assert s == "\"" + s[1..];
    StringDispatch(round, s[1..]);
    hide ParseValue, ParseChars, Closed, Spells, ValidPieces, Points;
    var pieces := ReadIsPieces(s[1..]);
    n := Quoted(pieces, ParseChars(s[1..]).value);
  }

  lemma ReadArray(round: Rounding, s: string) returns (n: Node)
    requires ParseValue(round, s).Ok? && s[0] == '['
    ensures var r := ParseValue(round, s); ValidNode(n) && s == NodeText(n, r.rest) && r.value == Denoted(round, n)
    decreases |s|, 0
  {
    hide ParseValue, ParseElements, SkipSpace, ElementsText;
    var body := s[1..];
    assert s == "[" + body;
    ArrayDispatch(round, body);
    var blank := SkipsOnlyBlanks(body);
    var t := SkipSpace(body);
    if Starts(t, ']') {
      n := Array(blank, NoElement);
      assert t == "]" + t[1..];
    } else {
      var es := ReadElements(round, t, []);
      EarlierBlank(es, blank, ParseElements(round, t, []).rest);
      n := Array("", es.(before := blank + es.before));
      assert Items(round, n.elements) == Items(round, es) == [] + Items(round, es);
    }
  }

  lemma BlanksJoin(a: string, b: string)
    requires Blank(a) && Blank(b)
    ensures Blank(a + b)
  {
  }

  lemma EarlierBlank(es: Elements, blank: string, rest: string)
    requires es.Element? && ValidElements(es) && Blank(blank)
    ensures var u := es.(before := blank + es.before); ValidElements(u) && ElementsText(u, rest) == blank + ElementsText(es, rest)
  {
    hide NodeText, ValidNode, Blank;
    BlanksJoin(blank, es.before);
    var u := es.(before := blank + es.before);
    assert ElementsTail(u, rest) == ElementsTail(es, rest);
    hide ElementsTail;
    Regroup3(blank, es.before, NodeText(es.node, es.after + ElementsTail(es, rest)));
  }

  lemma ElementNeeds(round: Rounding, s: string, items: seq<Value>)
    requires ParseElements(round, s, items).Ok?
    ensures ParseValue(round, SkipSpace(s)).Ok?
    ensures var t := SkipSpace(ParseValue(round, SkipSpace(s)).rest); Starts(t, ']') || (Starts(t, ',') && SkipSpace(t[1..]) != "")
  {
    hide ParseValue, SkipSpace;
  }

  lemma {:induction false} ReadElements(round: Rounding, s: string, items: seq<Value>) returns (es: Elements)
    requires ParseElements(round, s, items).Ok?
    ensures es.Element? && ValidElements(es)
    ensures var r := ParseElements(round, s, items); s == ElementsText(es, r.rest) && r.value == Arr(items + Items(round, es))
    decreases |s|, 2
  {
    hide ParseValue, ParseElements, NodeText, SkipSpace, ValidNode, Denoted, Blank;
    ElementNeeds(round, s, items);
    ElementStep(round, s, items);
    var before := SkipsOnlyBlanks(s);
    var first := ParseValue(round, SkipSpace(s));
    var n := ReadNode(round, SkipSpace(s));
    var after := SkipsOnlyBlanks(first.rest);
    var t, read := SkipSpace(first.rest), items + [first.value];
    if Starts(t, ']') {
      es := Element(before, n, after, NoElement);
      assert t == "]" + t[1..] && items + Items(round, es) == read;
    } else {
      assert t == "," + t[1..];
      var blank := SkipsOnlyBlanks(t[1..]);
      var more := ReadElements(round, SkipSpace(t[1..]), read);
      var rest := ParseElements(round, s, items).rest;
      EarlierBlank(more, blank, rest);
      es := Element(before, n, after, more.(before := blank + more.before));
      assert Items(round, es.more) == Items(round, more);
      assert items + Items(round, es) == read + Items(round, more);
    }
  }

  lemma ReadObject(round: Rounding, s: string) returns (n: Node)
    requires ParseValue(round, s).Ok? && s[0] == '{'
    ensures var r := ParseValue(round, s); ValidNode(n) && s == NodeText(n, r.rest) && r.value == Denoted(round, n)
    decreases |s|, 0
  {
    hide ParseValue, ParseMembers, SkipSpace, MembersText;
    var body := s[1..];
    assert s == "{" + body;
    ObjectDispatch(round, body);
    var blank := SkipsOnlyBlanks(body);
    var t := SkipSpace(body);
    if Starts(t, '}') {
      n := Object(blank, NoMember);
      assert t == "}" + t[1..];
    } else {
      var ms := ReadMembers(round, t, EMPTY_OBJECT);
      LaterMember(round, EMPTY_OBJECT, ms, blank, ParseMembers(round, t, EMPTY_OBJECT).rest);
      n := Object("", ms.(before := blank + ms.before));
      ObjectIs(round, n.members);
    }
  }

  lemma LaterMember(round: Rounding, o: Value, ms: Members, blank: string, rest: string)
    requires ms.Member? && ValidMembers(ms) && Blank(blank) && o.Obj?
    ensures var u := ms.(before := blank + ms.before);
            ValidMembers(u) && MembersText(u, rest) == blank + MembersText(ms, rest) && PutMembers(round, o, u) == PutMembers(round, o, ms)
  {
    hide NodeText, ValidNode, Blank, Closed, Spells, ValidPieces, PutObject;
    BlanksJoin(blank, ms.before);
    var u := ms.(before := blank + ms.before);
    assert MembersTail(u, rest) == MembersTail(ms, rest);
    hide MembersTail;
    Regroup3(blank, ms.before,
             "\"" + Closed(ms.pieces, ms.left + (":" + (ms.right + NodeText(ms.node, ms.after + MembersTail(ms, rest))))));
  }

  // What the member loop found on the way to its end.
  lemma MemberNeeds(round: Rounding, s: string, o: Value)
    requires o.Obj? && ParseMembers(round, s, o).Ok?
    ensures var key := ParseString(SkipSpace(s));
            && key.Ok? && Starts(SkipSpace(key.rest), ':') && ParseValue(round, SkipSpace(SkipSpace(key.rest)[1..])).Ok?
    ensures var t := SkipSpace(ParseValue(round, SkipSpace(SkipSpace(ParseString(SkipSpace(s)).rest)[1..])).rest);
            Starts(t, '}') || (Starts(t, ',') && SkipSpace(t[1..]) != "")
  {
    hide ParseValue, SkipSpace, ParseString, PutObject;
  }

  lemma ReadKey(s: string) returns (pieces: seq<Piece>)
    requires ParseString(s).Ok?
    ensures var r := ParseString(s); ValidPieces(pieces) && Spells(r.value, Points(pieces)) && s == "\"" + Closed(pieces, r.rest)
  {
    hide ParseChars, Closed, Spells, ValidPieces, Points;
    assert s == "\"" + s[1..];
    pieces := ReadIsPieces(s[1..]);
  }

  lemma ReadHead(s: string) returns (head: Members)
    requires var key := ParseString(SkipSpace(s)); key.Ok? && Starts(SkipSpace(key.rest), ':')
    ensures head.Member? && head.key == ParseString(SkipSpace(s)).value
    ensures Blank(head.before) && ValidPieces(head.pieces) && Spells(head.key, Points(head.pieces)) && Blank(head.left) && Blank(head.right)
    ensures var value := SkipSpace(SkipSpace(ParseString(SkipSpace(s)).rest)[1..]);
            s == head.before + ("\"" + Closed(head.pieces, head.left + (":" + (head.right + value))))
  {
    hide ParseString, SkipSpace, Closed, Spells, ValidPieces, Points, Blank;
    var before := SkipsOnlyBlanks(s);
    var pieces := ReadKey(SkipSpace(s));
    var key := ParseString(SkipSpace(s));
    var left := SkipsOnlyBlanks(key.rest);
    var colon := SkipSpace(key.rest);
    assert colon == ":" + colon[1..];
    var right := SkipsOnlyBlanks(colon[1..]);
    head := Member(before, pieces, key.value, left, right, Word("null"), "", NoMember);
  }

  lemma {:induction false} ReadMembers(round: Rounding, s: string, o: Value) returns (ms: Members)
    requires o.Obj? && ParseMembers(round, s, o).Ok?
    ensures ms.Member? && ValidMembers(ms)
    ensures var r := ParseMembers(round, s, o); s == MembersText(ms, r.rest) && r.value == PutMembers(round, o, ms)
    decreases |s|, 2
  {
    hide ParseValue, ParseMembers, ParseString, NodeText, SkipSpace, ValidNode, Denoted, Blank, Closed, Spells, ValidPieces, Points, PutObject;
    MemberNeeds(round, s, o);
    var head := ReadHead(s);
    var key := ParseString(SkipSpace(s));
    var value := SkipSpace(SkipSpace(key.rest)[1..]);
    var found := ParseValue(round, value);
    MemberStep(round, s, o, key.value, key.rest, found.value, found.rest);
    ValueIsShorter(s);
    var n := ReadNode(round, value);
    var after := SkipsOnlyBlanks(found.rest);
    var t, put := SkipSpace(found.rest), PutObject(o, key.value, found.value);
    PutIsObject(o, key.value, found.value);
    if Starts(t, '}') {
      ms := head.(node := n, after := after, more := NoMember);
      assert t == "}" + t[1..];
    } else {
      assert t == "," + t[1..];
      var blank := SkipsOnlyBlanks(t[1..]);
      var more := ReadMembers(round, SkipSpace(t[1..]), put);
      LaterMember(round, put, more, blank, ParseMembers(round, s, o).rest);
      ms := head.(node := n, after := after, more := more.(before := blank + more.before));
    }
  }

  lemma PutIsObject(o: Value, k: string, v: Value)
    requires o.Obj?
    ensures PutObject(o, k, v).Obj?
  {
  }

  lemma ValueIsShorter(s: string)
    requires var key := ParseString(SkipSpace(s)); key.Ok? && Starts(SkipSpace(key.rest), ':')
    ensures |SkipSpace(SkipSpace(ParseString(SkipSpace(s)).rest)[1..])| < |s|
  {
    hide ParseString;
  }

  // ----- Documents -----

  /** A complete text: one value with blanks around it. */
  ghost predicate IsDocument(s: string, lead: string, n: Node, trail: string) {
    Blank(lead) && ValidNode(n) && Blank(trail) && s == lead + NodeText(n, trail)
  }

  ghost predicate DocumentDenotes(round: Rounding, s: string, v: Value) {
    exists lead, n, trail :: IsDocument(s, lead, n, trail) && v == Denoted(round, n)
  }

  lemma DocumentReads(round: Rounding, s: string, lead: string, n: Node, trail: string)
    requires IsDocument(s, lead, n, trail)
    ensures Parse(round, s) == Parsed(Denoted(round, n))
  {
    hide ParseValue, NodeText, ValidNode, Denoted, SkipSpace, Blank;
    NodeStarts(n, trail);
    BlankSkips(lead, NodeText(n, trail));
    BlankOnly(trail);
    NodeReads(round, n, trail);
  }

  lemma BlankOnly(trail: string)
    requires Blank(trail)
    ensures EndsNumber(trail) && SkipSpace(trail) == ""
  {
    BlankEndsNumber(trail, "");
    BlankSkips(trail, "");
    assert trail + "" == trail;
  }

  /** A text is parsed as a value exactly when it is a JSON text that denotes the value. */
  lemma ParsedIffDenoted(round: Rounding, s: string, v: Value)
    ensures Parse(round, s) == Parsed(v) <==> DocumentDenotes(round, s, v)
  {
    hide ParseValue, NodeText, ValidNode, Denoted, SkipSpace, Blank;
    if Parse(round, s) == Parsed(v) {
      var lead := SkipsOnlyBlanks(s);
      var n := ReadNode(round, SkipSpace(s));
      var trail := ParseValue(round, SkipSpace(s)).rest;
      var blank := SkipsOnlyBlanks(trail);
      assert blank == trail;
      assert IsDocument(s, lead, n, trail);
    }
    if DocumentDenotes(round, s, v) {
      var lead, n, trail :| IsDocument(s, lead, n, trail) && v == Denoted(round, n);
      DocumentReads(round, s, lead, n, trail);
    }
  }
}
