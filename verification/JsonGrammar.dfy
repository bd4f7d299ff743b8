/**
 JSON strings as RFC 8259 and RFC 3629 describe them, apart from the parser: pieces of text and the
 code points they stand for. The parser accepts exactly these texts and yields exactly these points.
 */
module JsonGrammar {
  import opened JsonString

  // ----- UTF-8 -----

  function Byte(s: string, i: nat): int
    requires i < |s|
  {
    s[i] as int
  }

  predicate Continues(s: string, i: nat)
    requires i < |s|
  {
    0x80 <= Byte(s, i) < 0xC0
  }

  /** The shortest byte sequence whose payload bits are those of the code point (section 3 of RFC 3629), surrogates included. */
  predicate Encodes(s: string, point: nat) {
    || (|s| == 1 && point < 0x80 && Byte(s, 0) == point)
    || (|s| == 2 && 0x80 <= point < 0x800 && 0xC0 <= Byte(s, 0) < 0xE0 && Continues(s, 1)
        && point == (Byte(s, 0) - 0xC0) * 64 + (Byte(s, 1) - 0x80))
    || (|s| == 3 && 0x800 <= point < 0x10000 && 0xE0 <= Byte(s, 0) < 0xF0 && Continues(s, 1) && Continues(s, 2)
        && point == (Byte(s, 0) - 0xE0) * 4096 + (Byte(s, 1) - 0x80) * 64 + (Byte(s, 2) - 0x80))
    || (|s| == 4 && 0x10000 <= point <= 0x10FFFF && 0xF0 <= Byte(s, 0) < 0xF8 && Continues(s, 1) && Continues(s, 2) && Continues(s, 3)
        && point == (Byte(s, 0) - 0xF0) * 262144 + (Byte(s, 1) - 0x80) * 4096 + (Byte(s, 2) - 0x80) * 64 + (Byte(s, 3) - 0x80))
  }

  /** A byte sequence encodes one code point at most. */
  lemma EncodesOne(s: string, p: nat, q: nat)
    requires Encodes(s, p) && Encodes(s, q)
    ensures p == q
  {
  }

  /** The encoder writes the encoding of its code point. */
  lemma EncodeRuneEncodes(r: nat)
    requires r <= 0x10FFFF
    ensures Encodes(EncodeRune(r), r)
  {
    if r >= 0x10000 {
      assert r == r / 262144 * 262144 + r / 4096 % 64 * 4096 + r / 64 % 64 * 64 + r % 64 by { SplitFour(r); }
      assert r / 262144 <= 4;
    } else if r >= 0x800 {
      assert r == r / 4096 * 4096 + r / 64 % 64 * 64 + r % 64 by { SplitThree(r); }
    }
  }

  lemma SplitThree(r: nat)
    ensures r == r / 4096 * 4096 + r / 64 % 64 * 64 + r % 64
  {
    var a := r / 64;
    assert r == a * 64 + r % 64 && a == a / 64 * 64 + a % 64 && a / 64 == r / 4096;
  }

  lemma SplitFour(r: nat)
    ensures r == r / 262144 * 262144 + r / 4096 % 64 * 4096 + r / 64 % 64 * 64 + r % 64
  {
    var b := r / 4096;
    SplitThree(r);
    assert b == b / 64 * 64 + b % 64 && b / 64 == r / 262144;
  }

  lemma EncodeSurrogateEncodes(unit: nat)
    requires IsSurrogate(unit)
    ensures Encodes(EncodeSurrogate(unit), unit)
  {
    SplitThree(unit);
    assert unit / 4096 == 13;
  }

  function PointAt(s: string): (p: int)
    requires RuneSize(s) > 0
  {
    var n := RuneSize(s);
    if n == 1 then Byte(s, 0)
    else if n == 2 then (Byte(s, 0) - 0xC0) * 64 + (Byte(s, 1) - 0x80)
    else if n == 3 then (Byte(s, 0) - 0xE0) * 4096 + (Byte(s, 1) - 0x80) * 64 + (Byte(s, 2) - 0x80)
    else (Byte(s, 0) - 0xF0) * 262144 + (Byte(s, 1) - 0x80) * 4096 + (Byte(s, 2) - 0x80) * 64 + (Byte(s, 3) - 0x80)
  }

  lemma PointExists(s: string)
    requires RuneSize(s) > 0
    ensures PointAt(s) >= 0 && Encodes(s[..RuneSize(s)], PointAt(s)) && !IsSurrogate(PointAt(s))
  {
  }

  lemma SizeOf(s: string, n: nat, p: nat)
    requires n <= |s| && Encodes(s[..n], p) && !IsSurrogate(p)
    ensures RuneSize(s) == n
  {
  }

  /** The bytes are the encodings of the code points, one after the other. */
  ghost predicate Spells(s: string, points: seq<nat>)
    decreases |points|
  {
    if points == [] then s == ""
    else exists n: nat :: n <= |s| && Encodes(s[..n], points[0]) && Spells(s[n..], points[1..])
  }

  lemma TwoBytes(s: string, t: string, p: nat)
    requires |s| == |t| == 2 && Encodes(s, p) && Encodes(t, p)
    ensures s == t
  {
    assert Byte(s, 0) == Byte(t, 0) && Byte(s, 1) == Byte(t, 1);
  }

  lemma ThreeBytes(s: string, t: string, p: nat)
    requires |s| == |t| == 3 && Encodes(s, p) && Encodes(t, p)
    ensures s == t
  {
    assert Byte(s, 0) == Byte(t, 0) && Byte(s, 1) == Byte(t, 1) && Byte(s, 2) == Byte(t, 2);
  }

  lemma FourBytes(s: string, t: string, p: nat)
    requires |s| == |t| == 4 && Encodes(s, p) && Encodes(t, p)
    ensures s == t
  {
    assert Byte(s, 0) == Byte(t, 0) && Byte(s, 1) == Byte(t, 1) && Byte(s, 2) == Byte(t, 2) && Byte(s, 3) == Byte(t, 3);
  }

  function EncodedSize(p: nat): nat { if p < 0x80 then 1 else if p < 0x800 then 2 else if p < 0x10000 then 3 else 4 }

  lemma SizeIs(s: string, p: nat)
    requires Encodes(s, p)
    ensures |s| == EncodedSize(p) && (|s| == 1 ==> Byte(s, 0) == p)
  {
  }

  /** A code point has one encoding at most. */
  lemma EncodingIsUnique(s: string, t: string, p: nat)
    requires Encodes(s, p) && Encodes(t, p)
    ensures s == t
  {
    hide Encodes;
    SizeIs(s, p);
    SizeIs(t, p);
    if |s| == 4 {
      FourBytes(s, t, p);
    } else if |s| == 3 {
      ThreeBytes(s, t, p);
    } else if |s| == 2 {
      TwoBytes(s, t, p);
    }
  }

  /** Code points are spelled in one way. */
  lemma {:induction false} SpellsOne(s: string, t: string, points: seq<nat>)
    requires Spells(s, points) && Spells(t, points)
    ensures s == t
    decreases |points|
  {
    hide Encodes;
    if points != [] {
      var m: nat :| m <= |s| && Encodes(s[..m], points[0]) && Spells(s[m..], points[1..]);
      var n: nat :| n <= |t| && Encodes(t[..n], points[0]) && Spells(t[n..], points[1..]);
      EncodingIsUnique(s[..m], t[..n], points[0]);
      SpellsOne(s[m..], t[n..], points[1..]);
      assert s == s[..m] + s[m..] && t == t[..n] + t[n..];
    }
  }

  lemma SpellsMore(bytes: string, point: nat, s: string, points: seq<nat>)
    requires Encodes(bytes, point) && Spells(s, points)
    ensures Spells(bytes + s, [point] + points)
  {
    assert (bytes + s)[..|bytes|] == bytes && (bytes + s)[|bytes|..] == s;
    assert ([point] + points)[1..] == points;
  }

  // ----- Pieces -----

  /** One character of a string's text, with the code point or surrogate it stands for. */
  datatype Piece =
    | Raw(bytes: string, point: nat)
    | Short(letter: char, point: nat)
    | Unit(hex: string, point: nat)
    | Pair(high: string, low: string, point: nat)

  predicate SpellsDigit(c: char, d: nat) { d < 16 && (c == "0123456789abcdef"[d] || c == "0123456789ABCDEF"[d]) }

  ghost predicate SpellsUnit(h: string, unit: nat) {
    |h| == 4 && exists a: nat, b: nat, c: nat, d: nat ::
      SpellsDigit(h[0], a) && SpellsDigit(h[1], b) && SpellsDigit(h[2], c) && SpellsDigit(h[3], d) && unit == a * 4096 + b * 256 + c * 16 + d
  }

  /** Section 7 of RFC 8259. */
  ghost predicate ValidPiece(p: Piece) {
    match p
    case Raw(bytes, point) => Encodes(bytes, point) && !IsSurrogate(point) && point >= 0x20 && point != 0x22 && point != 0x5C
    case Short(letter, point) =>
      (letter, point) in {('"', 0x22), ('\\', 0x5C), ('/', 0x2F), ('b', 0x08), ('f', 0x0C), ('n', 0x0A), ('r', 0x0D), ('t', 0x09)}
    case Unit(hex, point) => SpellsUnit(hex, point)
    case Pair(high, low, point) =>
      && 0x10000 <= point <= 0x10FFFF
      && SpellsUnit(high, 0xD800 + (point - 0x10000) / 1024) && SpellsUnit(low, 0xDC00 + (point - 0x10000) % 1024)
  }

  function PieceText(p: Piece): string {
    match p
    case Raw(bytes, _) => bytes
    case Short(letter, _) => ['\\', letter]
    case Unit(hex, _) => "\\u" + hex
    case Pair(high, low, _) => "\\u" + (high + ("\\u" + low))
  }

  function PiecesText(ps: seq<Piece>): string { if ps == [] then "" else PieceText(ps[0]) + PiecesText(ps[1..]) }

  function Points(ps: seq<Piece>): seq<nat> { if ps == [] then [] else [ps[0].point] + Points(ps[1..]) }

  /** Valid pieces, where no two escapes that would make a pair stand apart. */
  ghost predicate ValidPieces(ps: seq<Piece>) {
    ps == [] || (ValidPiece(ps[0]) && ValidPieces(ps[1..]) && !SplitsPair(ps))
  }

  predicate SplitsPair(ps: seq<Piece>) {
    |ps| > 1 && ps[0].Unit? && IsHigh(ps[0].point) && ps[1].Unit? && IsLow(ps[1].point)
  }

  // ----- Hex digits -----

  lemma DigitIs(c: char, d: nat)
    ensures SpellsDigit(c, d) <==> HexDigit(c) == d
  {
  }

  lemma UnitIs(h: string, more: string, unit: nat)
    requires |h| == 4
    ensures SpellsUnit(h, unit) <==> HexUnit(h + more) == unit
  {
    var s := h + more;
    assert s[0] == h[0] && s[1] == h[1] && s[2] == h[2] && s[3] == h[3];
    if HexUnit(s) == unit {
      DigitIs(h[0], HexDigit(h[0]));
      DigitIs(h[1], HexDigit(h[1]));
      DigitIs(h[2], HexDigit(h[2]));
      DigitIs(h[3], HexDigit(h[3]));
      assert HexDigit(h[0]) >= 0 && HexDigit(h[1]) >= 0 && HexDigit(h[2]) >= 0 && HexDigit(h[3]) >= 0;
    }
    if SpellsUnit(h, unit) {
      var a: nat, b: nat, c: nat, d: nat :|
        SpellsDigit(h[0], a) && SpellsDigit(h[1], b) && SpellsDigit(h[2], c) && SpellsDigit(h[3], d) && unit == a * 4096 + b * 256 + c * 16 + d;
      DigitIs(h[0], a);
      DigitIs(h[1], b);
      DigitIs(h[2], c);
      DigitIs(h[3], d);
    }
  }

  lemma UnitAt(s: string)
    requires HexUnit(s) >= 0
    ensures SpellsUnit(s[..4], HexUnit(s))
  {
    assert s == s[..4] + s[4..];
    UnitIs(s[..4], s[4..], HexUnit(s));
  }

  // ----- Every valid text is read -----

  lemma PairArithmetic(point: nat, high: nat, low: nat)
    requires 0x10000 <= point <= 0x10FFFF && high == 0xD800 + (point - 0x10000) / 1024 && low == 0xDC00 + (point - 0x10000) % 1024
    ensures IsHigh(high) && IsLow(low) && point == 0x10000 + (high - 0xD800) * 1024 + (low - 0xDC00)
  {
  }

  lemma PairBack(high: nat, low: nat)
    requires IsHigh(high) && IsLow(low)
    ensures var point := 0x10000 + (high - 0xD800) * 1024 + (low - 0xDC00);
            0x10000 <= point <= 0x10FFFF && high == 0xD800 + (point - 0x10000) / 1024 && low == 0xDC00 + (point - 0x10000) % 1024
  {
  }

  // What an escape reads as.
  lemma ShortReads(letter: char, point: nat, more: string)
    requires ValidPiece(Short(letter, point))
    ensures ParseEscape([letter] + more).Ok? && ParseEscape([letter] + more).rest == more && Encodes(ParseEscape([letter] + more).value, point)
  {
    assert ([letter] + more)[1..] == more;
  }

  // The two readings of an escaped unit.
  lemma EscapedUnit(e: string)
    requires e != "" && e[0] == 'u' && HexUnit(e[1..]) >= 0
    requires var unit := HexUnit(e[1..]); !(IsHigh(unit) && StartsLowEscape(e[5..]))
    ensures var r := ParseEscape(e); r.Ok? && r.rest == e[5..] && Encodes(r.value, HexUnit(e[1..]))
  {
    hide HexUnit, Encodes, StartsLowEscape, EncodeRune, EncodeSurrogate;
    var unit := HexUnit(e[1..]);
    if IsSurrogate(unit) { EncodeSurrogateEncodes(unit); } else { EncodeRuneEncodes(unit); }
  }

  lemma EscapedPair(e: string)
    requires e != "" && e[0] == 'u' && IsHigh(HexUnit(e[1..])) && StartsLowEscape(e[5..])
    ensures e[5..][2..] == e[7..] && IsLow(HexUnit(e[7..])) && |e| >= 11
    ensures var point := 0x10000 + (HexUnit(e[1..]) - 0xD800) * 1024 + (HexUnit(e[7..]) - 0xDC00);
            var r := ParseEscape(e); r.Ok? && r.rest == e[11..] && Encodes(r.value, point)
  {
    hide HexUnit, Encodes, EncodeRune;
    assert e[5..][2..] == e[7..];
    EncodeRuneEncodes(0x10000 + (HexUnit(e[1..]) - 0xD800) * 1024 + (HexUnit(e[7..]) - 0xDC00));
  }

  lemma UnitReads(hex: string, point: nat, more: string)
    requires SpellsUnit(hex, point) && !(IsHigh(point) && StartsLowEscape(more))
    ensures var r := ParseEscape("u" + hex + more); r.Ok? && r.rest == more && Encodes(r.value, point)
  {
    hide ParseEscape, HexUnit, Encodes, StartsLowEscape;
    var e := "u" + hex + more;
    assert |hex| == 4 && e[1..] == hex + more && e[5..] == more;
    UnitIs(hex, more, point);
    EscapedUnit(e);
  }

  lemma LowStarts(low: string, more: string, unit: nat)
    requires SpellsUnit(low, unit) && IsLow(unit)
    ensures StartsLowEscape("\\u" + low + more)
  {
    hide HexUnit;
    assert ("\\u" + low + more)[2..] == low + more;
    UnitIs(low, more, unit);
  }

  lemma PairSlices(high: string, low: string, more: string)
    requires |high| == |low| == 4
    ensures var e := "u" + (high + ("\\u" + low)) + more;
            && e[1..] == high + ("\\u" + low + more) && e[5..] == "\\u" + low + more && e[7..] == low + more && e[11..] == more
  {
  }

  lemma UnitsReadAsPair(high: string, low: string, h: nat, l: nat, more: string)
    requires SpellsUnit(high, h) && SpellsUnit(low, l) && IsHigh(h) && IsLow(l)
    ensures var r := ParseEscape("u" + (high + ("\\u" + low)) + more);
            r.Ok? && r.rest == more && Encodes(r.value, 0x10000 + (h - 0xD800) * 1024 + (l - 0xDC00))
  {
    hide ParseEscape, HexUnit, Encodes, StartsLowEscape, SpellsUnit;
    UnitLength(high, h);
    UnitLength(low, l);
    PairSlices(high, low, more);
    UnitIs(high, "\\u" + low + more, h);
    UnitIs(low, more, l);
    LowStarts(low, more, l);
    EscapedPair("u" + (high + ("\\u" + low)) + more);
  }

  lemma PairReads(high: string, low: string, point: nat, more: string)
    requires ValidPiece(Pair(high, low, point))
    ensures var r := ParseEscape("u" + (high + ("\\u" + low)) + more); r.Ok? && r.rest == more && Encodes(r.value, point)
  {
    hide ParseEscape, Encodes, SpellsUnit;
    var h, l := 0xD800 + (point - 0x10000) / 1024, 0xDC00 + (point - 0x10000) % 1024;
    PairArithmetic(point, h, l);
    UnitsReadAsPair(high, low, h, l, more);
  }

  lemma RawReads(bytes: string, point: nat, more: string)
    requires ValidPiece(Raw(bytes, point))
    ensures ParseChars(bytes + more) == Prepend(bytes, ParseChars(more))
  {
    var s := bytes + more;
    assert s[..|bytes|] == bytes && s[|bytes|..] == more && s[0] == bytes[0];
    SizeOf(s, |bytes|, point);
  }

  lemma EscapedReads(s: string)
    requires s != "" && s[0] == '\\' && ParseEscape(s[1..]).Ok?
    ensures ParseChars(s) == Prepend(ParseEscape(s[1..]).value, ParseChars(ParseEscape(s[1..]).rest))
  {
    hide ParseEscape;
  }

  // The text of the pieces and the closing quote.
  function Closed(ps: seq<Piece>, rest: string): string { PiecesText(ps) + ("\"" + rest) }

  lemma ClosedStep(ps: seq<Piece>, rest: string)
    requires ps != []
    ensures Closed(ps, rest) == PieceText(ps[0]) + Closed(ps[1..], rest)
  {
  }

  lemma RawStartsNoEscape(bytes: string, point: nat, more: string)
    requires ValidPiece(Raw(bytes, point))
    ensures !StartsLowEscape(bytes + more)
  {
    hide HexUnit;
    assert bytes != "" && (bytes + more)[0] == bytes[0];
  }

  lemma ShortStartsNoUnit(letter: char, point: nat, more: string)
    requires ValidPiece(Short(letter, point))
    ensures !StartsLowEscape(['\\', letter] + more)
  {
    hide HexUnit;
    assert letter != 'u' && (['\\', letter] + more)[1] == letter;
  }

  lemma UnitStarts(hex: string, unit: nat, more: string)
    requires SpellsUnit(hex, unit)
    ensures StartsLowEscape("\\u" + hex + more) <==> IsLow(unit)
  {
    UnitLength(hex, unit);
    hide HexUnit, SpellsUnit;
    var s := "\\u" + hex + more;
    assert s[0] == '\\' && s[1] == 'u' && s[2..] == hex + more;
    UnitIs(hex, more, unit);
  }

  lemma PieceStartsLow(p: Piece, more: string)
    requires ValidPiece(p)
    ensures StartsLowEscape(PieceText(p) + more) ==> p.Unit? && IsLow(p.point)
  {
    hide StartsLowEscape, Encodes, SpellsUnit;
    match p
    case Raw(bytes, point) => RawStartsNoEscape(bytes, point, more);
    case Short(letter, point) => ShortStartsNoUnit(letter, point, more);
    case Unit(hex, point) => UnitStarts(hex, point, more);
    case Pair(high, low, point) =>
      var h, l := 0xD800 + (point - 0x10000) / 1024, 0xDC00 + (point - 0x10000) % 1024;
      PairArithmetic(point, h, l);
      UnitStarts(high, h, "\\u" + low + more);
      assert PieceText(p) + more == "\\u" + high + ("\\u" + low + more);
  }

  lemma UnitLength(h: string, unit: nat)
    requires SpellsUnit(h, unit)
    ensures |h| == 4
  {
  }

  lemma StartsLowIs(ps: seq<Piece>, rest: string)
    requires ValidPieces(ps)
    ensures StartsLowEscape(Closed(ps, rest)) ==> ps != [] && ps[0].Unit? && IsLow(ps[0].point)
  {
    hide ValidPiece, PieceText;
    if ps != [] {
      ClosedStep(ps, rest);
      PieceStartsLow(ps[0], Closed(ps[1..], rest));
    } else {
      assert Closed(ps, rest)[0] == '"';
    }
  }

  lemma EscapeText(p: Piece, more: string)
    requires !p.Raw?
    ensures var s := PieceText(p) + more; s != "" && s[0] == '\\'
    ensures (PieceText(p) + more)[1..] ==
            match p
            case Raw(_, _) => ""
            case Short(letter, _) => [letter] + more
            case Unit(hex, _) => "u" + hex + more
            case Pair(high, low, _) => "u" + (high + ("\\u" + low)) + more
  {
  }

  lemma EscapeReads(p: Piece, more: string)
    requires ValidPiece(p) && !p.Raw? && !(p.Unit? && IsHigh(p.point) && StartsLowEscape(more))
    ensures var s := PieceText(p) + more; s != "" && s[0] == '\\'
    ensures var r := ParseEscape((PieceText(p) + more)[1..]); r.Ok? && r.rest == more && Encodes(r.value, p.point)
  {
    EscapeText(p, more);
    hide ParseEscape, Encodes, StartsLowEscape, SpellsUnit, PieceText;
    match p
    case Short(letter, point) => ShortReads(letter, point, more);
    case Unit(hex, point) => UnitReads(hex, point, more);
    case Pair(high, low, point) => PairReads(high, low, point, more);
  }

  lemma PieceReads(ps: seq<Piece>, rest: string) returns (bytes: string)
    requires ps != [] && ValidPieces(ps)
    ensures Encodes(bytes, ps[0].point)
    ensures ParseChars(Closed(ps, rest)) == Prepend(bytes, ParseChars(Closed(ps[1..], rest)))
  {
    hide ParseChars, ParseEscape, Encodes, StartsLowEscape, SpellsUnit, PieceText, Closed, Prepend;
    var s, more := Closed(ps, rest), Closed(ps[1..], rest);
    ClosedStep(ps, rest);
    if ps[0].Raw? {
      bytes := ps[0].bytes;
      RawReads(ps[0].bytes, ps[0].point, more);
      assert PieceText(ps[0]) == bytes by { RawText(ps[0]); }
    } else {
      StartsLowIs(ps[1..], rest);
      EscapeReads(ps[0], more);
      EscapedReads(s);
      bytes := ParseEscape(s[1..]).value;
    }
  }

  lemma RawText(p: Piece)
    requires p.Raw?
    ensures PieceText(p) == p.bytes
  {
  }

  /** Every valid text of a string is read, to its closing quote, as its code points. */
  lemma {:induction false} PiecesRead(ps: seq<Piece>, rest: string)
    requires ValidPieces(ps)
    ensures var r := ParseChars(Closed(ps, rest)); r.Ok? && r.rest == rest && Spells(r.value, Points(ps))
  {
    if ps == [] {
      assert Closed(ps, rest)[1..] == rest;
    } else {
      PiecesRead(ps[1..], rest);
      var bytes := PieceReads(ps, rest);
      hide Closed, ParseChars, Encodes, Spells;
      SpellsMore(bytes, ps[0].point, ParseChars(Closed(ps[1..], rest)).value, Points(ps[1..]));
    }
  }

  // ----- Nothing else is read -----

  // The piece an accepted text starts with.
  lemma SplitUnit(s: string)
    requires |s| >= 6 && s[0] == '\\' && s[1] == 'u'
    ensures s[1..][1..][..4] == s[2..6] && s == "\\u" + s[2..6] + s[1..][5..]
  {
  }

  lemma SplitPair(s: string)
    requires |s| >= 12 && s[0] == s[6] == '\\' && s[1] == s[7] == 'u'
    ensures s[1..][1..][..4] == s[2..6] && s[1..][7..][..4] == s[8..12]
    ensures s == "\\u" + (s[2..6] + ("\\u" + s[8..12])) + s[1..][11..]
  {
    var high, low, more := s[2..6], s[8..12], s[1..][11..];
    assert s == ['\\', 'u'] + s[2..] && s[2..] == high + s[6..];
    assert s[6..] == ['\\', 'u'] + s[8..] && s[8..] == low + more;
  }

  lemma PairIsPiece(s: string) returns (p: Piece)
    requires |s| > 1 && s[0] == '\\' && s[1] == 'u' && IsHigh(HexUnit(s[1..][1..])) && StartsLowEscape(s[1..][5..])
    ensures var r := ParseEscape(s[1..]); r.Ok? && ValidPiece(p) && s == PieceText(p) + r.rest && Encodes(r.value, p.point) && p.Pair?
  {
    hide ParseEscape, HexUnit, Encodes, SpellsUnit;
    var e := s[1..];
    EscapedPair(e);
    assert e[5] == s[6] && e[6] == s[7];
    var unit, low := HexUnit(e[1..]), HexUnit(e[7..]);
    UnitAt(e[1..]);
    UnitAt(e[7..]);
    PairBack(unit, low);
    SplitPair(s);
    p := Pair(s[2..6], s[8..12], 0x10000 + (unit - 0xD800) * 1024 + (low - 0xDC00));
  }

  lemma UnitIsPiece(s: string) returns (p: Piece)
    requires |s| > 1 && s[0] == '\\' && s[1] == 'u' && HexUnit(s[1..][1..]) >= 0
    requires !(IsHigh(HexUnit(s[1..][1..])) && StartsLowEscape(s[1..][5..]))
    ensures var r := ParseEscape(s[1..]); r.Ok? && ValidPiece(p) && s == PieceText(p) + r.rest && Encodes(r.value, p.point)
    ensures p.Unit? && (IsHigh(p.point) ==> !StartsLowEscape(ParseEscape(s[1..]).rest))
  {
    hide ParseEscape, HexUnit, Encodes, SpellsUnit, StartsLowEscape;
    var e := s[1..];
    EscapedUnit(e);
    UnitAt(e[1..]);
    SplitUnit(s);
    p := Unit(s[2..6], HexUnit(e[1..]));
  }

  lemma ShortIsPiece(s: string) returns (p: Piece)
    requires |s| > 1 && s[0] == '\\' && s[1] != 'u' && ParseEscape(s[1..]).Ok?
    ensures ValidPiece(p) && p.Short? && s == PieceText(p) + ParseEscape(s[1..]).rest && Encodes(ParseEscape(s[1..]).value, p.point)
  {
    p := Short(s[1], ParseEscape(s[1..]).value[0] as int);
    assert s == ['\\', s[1]] + s[2..] && s[2..] == s[1..][1..];
  }

  lemma EscapeNeedsUnit(e: string)
    requires e != "" && e[0] == 'u' && ParseEscape(e).Ok?
    ensures HexUnit(e[1..]) >= 0
  {
    hide HexUnit;
  }

  lemma EscapeIsPiece(s: string) returns (p: Piece)
    requires s != "" && s[0] == '\\' && ParseEscape(s[1..]).Ok?
    ensures ValidPiece(p) && s == PieceText(p) + ParseEscape(s[1..]).rest && Encodes(ParseEscape(s[1..]).value, p.point)
    ensures p.Unit? && IsHigh(p.point) ==> !StartsLowEscape(ParseEscape(s[1..]).rest)
  {
    assert |s| > 1;
    hide ParseEscape, HexUnit, Encodes, ValidPiece, PieceText, StartsLowEscape;
    if s[1] != 'u' {
      p := ShortIsPiece(s);
    } else {
      EscapeNeedsUnit(s[1..]);
      if IsHigh(HexUnit(s[1..][1..])) && StartsLowEscape(s[1..][5..]) {
        p := PairIsPiece(s);
      } else {
        p := UnitIsPiece(s);
      }
    }
  }

  lemma FirstIsRaw(s: string) returns (p: Piece)
    requires s != "" && s[0] !in {'"', '\\'} && s[0] as int >= 0x20 && RuneSize(s) > 0
    ensures ValidPiece(p) && !p.Unit? && s == PieceText(p) + s[RuneSize(s)..] && Encodes(s[..RuneSize(s)], p.point)
  {
    PointExists(s);
    p := Raw(s[..RuneSize(s)], PointAt(s));
    assert s[..RuneSize(s)][0] == s[0];
  }

  lemma FirstPiece(s: string) returns (p: Piece, bytes: string, more: string)
    requires s != "" && s[0] != '"' && ParseChars(s).Ok?
    ensures ValidPiece(p) && s == PieceText(p) + more && |more| < |s| && Encodes(bytes, p.point)
    ensures ParseChars(s) == Prepend(bytes, ParseChars(more))
    ensures p.Unit? && IsHigh(p.point) ==> !StartsLowEscape(more)
  {
    hide ParseEscape, Encodes, ValidPiece, StartsLowEscape, PieceText;
    if s[0] == '\\' {
      p := EscapeIsPiece(s);
      bytes, more := ParseEscape(s[1..]).value, ParseEscape(s[1..]).rest;
    } else {
      p := FirstIsRaw(s);
      bytes, more := s[..RuneSize(s)], s[RuneSize(s)..];
    }
  }

  lemma LowUnitStarts(ps: seq<Piece>, rest: string)
    requires ps != [] && ValidPiece(ps[0]) && ps[0].Unit? && IsLow(ps[0].point)
    ensures StartsLowEscape(Closed(ps, rest))
  {
    ClosedStep(ps, rest);
    UnitStarts(ps[0].hex, ps[0].point, Closed(ps[1..], rest));
    hide StartsLowEscape, SpellsUnit, Closed;
  }

  /** Every text that is read, to its closing quote, is a valid one, and its value has its code points. */
  lemma {:induction false} ReadIsPieces(s: string) returns (ps: seq<Piece>)
    requires ParseChars(s).Ok?
    ensures ValidPieces(ps) && s == Closed(ps, ParseChars(s).rest) && Spells(ParseChars(s).value, Points(ps))
    decreases |s|
  {
    if s[0] == '"' {
      ps := [];
      assert s == "" + ("\"" + s[1..]);
    } else {
      var p, bytes, more := FirstPiece(s);
      var others := ReadIsPieces(more);
      ps := [p] + others;
      assert ps[1..] == others;
      hide ParseChars, Encodes, Spells, ValidPiece, StartsLowEscape;
      var rest := ParseChars(s).rest;
      ClosedStep(ps, rest);
      if SplitsPair(ps) {
        LowUnitStarts(others, rest);
      }
      SpellsMore(bytes, p.point, ParseChars(more).value, Points(others));
    }
  }

  // ----- What the serializer writes -----

  predicate LowerHex(s: string) { forall i :: 0 <= i < |s| ==> '0' <= s[i] <= '9' || 'a' <= s[i] <= 'f' }

  /** The piece QuoteJSONString of ECMA-262 asks for: a short escape, lower-case digits, or the character itself. */
  predicate Quotes(p: Piece) {
    match p
    case Raw(_, _) => true
    case Short(letter, _) => letter != '/'
    case Unit(hex, point) => LowerHex(hex) && ((point < 0x20 && point !in {8, 9, 10, 12, 13}) || IsSurrogate(point))
    case Pair(_, _, _) => false
  }

  lemma EscapeIsUnit(unit: nat) returns (p: Piece)
    requires unit < 0x10000
    ensures p.Unit? && p.point == unit && ValidPiece(p) && LowerHex(p.hex) && PieceText(p) == UnicodeEscape(unit)
  {
    hide HexUnit, SpellsUnit;
    var hex := UnicodeEscape(unit)[2..];
    HexRoundTrip(unit, "");
    UnitIs(hex, "", unit);
    p := Unit(hex, unit);
    assert UnicodeEscape(unit) == "\\u" + hex;
  }

  lemma RuneIsQuoted(rune: string) returns (p: Piece)
    requires rune != "" && RuneSize(rune) == |rune|
    ensures ValidPiece(p) && Quotes(p) && !(p.Unit? && IsSurrogate(p.point)) && PieceText(p) == WriteRune(rune) && Encodes(rune, p.point)
  {
    hide UnicodeEscape, SpellsUnit;
    var c := rune[0] as int;
    PointExists(rune);
    assert rune[..|rune|] == rune;
    if c < 0x80 { assert |rune| == 1 && PointAt(rune) == c; }
    if c in {0x22, 0x5C, 8, 9, 10, 12, 13} {
      p := Short(WriteRune(rune)[1], c);
    } else if c < 0x20 {
      p := EscapeIsUnit(c);
    } else {
      p := Raw(rune, PointAt(rune));
    }
  }

  lemma SurrogateIsQuoted(s: string) returns (p: Piece)
    requires StartsSurrogate(s)
    ensures ValidPiece(p) && Quotes(p) && p.Unit? && p.point == SurrogateUnit(s) && PieceText(p) == UnicodeEscape(SurrogateUnit(s))
    ensures Encodes(s[..3], p.point)
  {
    EncodeOfUnit(s);
    EncodeSurrogateEncodes(SurrogateUnit(s));
    hide UnicodeEscape, SpellsUnit;
    p := EscapeIsUnit(SurrogateUnit(s));
  }

  lemma SpelledLow(s: string, points: seq<nat>)
    requires points != [] && IsLow(points[0]) && Spells(s, points)
    ensures StartsLow(s)
  {
    var n: nat :| n <= |s| && Encodes(s[..n], points[0]) && Spells(s[n..], points[1..]);
    assert s[..n][0] == s[0] && s[..n][1] == s[1] && s[..n][2] == s[2];
  }

  lemma PieceThen(p: Piece, ps: seq<Piece>, bytes: string, s: string)
    requires ValidPiece(p) && ValidPieces(ps) && Encodes(bytes, p.point) && Spells(s, Points(ps))
    requires p.Unit? && IsHigh(p.point) ==> !StartsLow(s)
    ensures ValidPieces([p] + ps) && Spells(bytes + s, Points([p] + ps)) && PiecesText([p] + ps) == PieceText(p) + PiecesText(ps)
  {
    hide ValidPiece, Encodes, Spells, StartsLow, PieceText;
    assert ([p] + ps)[1..] == ps;
    SpellsMore(bytes, p.point, s, Points(ps));
    if SplitsPair([p] + ps) { SpelledLow(s, Points(ps)); }
  }

  /** A written string is the quotation of its code points, piece by piece. */
  lemma {:induction false} WrittenIsQuoted(s: string) returns (ps: seq<Piece>)
    requires WellFormed(s)
    ensures ValidPieces(ps) && Spells(s, Points(ps)) && WriteChars(s) == PiecesText(ps)
    ensures forall p :: p in ps ==> Quotes(p)
    decreases |s|
  {
    hide ValidPiece, Encodes, Spells, StartsLow, PieceText, Quotes, WriteRune, UnicodeEscape, RuneSize, SplitsPair;
    if s == "" {
      ps := [];
      NothingSpelled();
    } else if StartsSurrogate(s) {
      var p := SurrogateIsQuoted(s);
      var more := WrittenIsQuoted(s[3..]);
      PieceThen(p, more, s[..3], s[3..]);
      ps := [p] + more;
      assert s == s[..3] + s[3..];
    } else {
      var n := RuneSize(s);
      PrefixIsRune(s);
      var p := RuneIsQuoted(s[..n]);
      var more := WrittenIsQuoted(s[n..]);
      PieceThen(p, more, s[..n], s[n..]);
      ps := [p] + more;
      assert s == s[..n] + s[n..];
    }
  }

  lemma NothingSpelled()
    ensures Spells("", [])
  {
  }
}
