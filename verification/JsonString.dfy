/**
 JSON strings as bytes: UTF-8 with lone UTF-16 surrogates kept as three-byte WTF-8 sequences, the
 escapes the parser reads, and the escapes the serializer writes.
 */
module JsonString {
  import opened JsonNumber

  predicate Within(s: string, i: nat, lo: int, hi: int) { i < |s| && lo <= s[i] as int <= hi }

  predicate Tail(s: string, i: nat) { Within(s, i, 0x80, 0xBF) }

  /** Bytes of the UTF-8 sequence `s` starts with, or 0 when there is none (utf8.DecodeRune). */
  function RuneSize(s: string): (n: nat)
    ensures n <= |s| && n <= 4
  {
    if s == "" then 0
    else
      var c := s[0] as int;
      if c < 0x80 then 1
      else if 0xC2 <= c <= 0xDF then (if Tail(s, 1) then 2 else 0)
      else if c == 0xE0 then (if Within(s, 1, 0xA0, 0xBF) && Tail(s, 2) then 3 else 0)
      else if c == 0xED then (if Within(s, 1, 0x80, 0x9F) && Tail(s, 2) then 3 else 0)
      else if 0xE1 <= c <= 0xEF then (if Tail(s, 1) && Tail(s, 2) then 3 else 0)
      else if c == 0xF0 then (if Within(s, 1, 0x90, 0xBF) && Tail(s, 2) && Tail(s, 3) then 4 else 0)
      else if 0xF1 <= c <= 0xF3 then (if Tail(s, 1) && Tail(s, 2) && Tail(s, 3) then 4 else 0)
      else if c == 0xF4 then (if Within(s, 1, 0x80, 0x8F) && Tail(s, 2) && Tail(s, 3) then 4 else 0)
      else 0
  }

  predicate IsHigh(unit: int) { 0xD800 <= unit <= 0xDBFF }
  predicate IsLow(unit: int) { 0xDC00 <= unit <= 0xDFFF }
  predicate IsSurrogate(unit: int) { IsHigh(unit) || IsLow(unit) }

  function EncodeRune(r: nat): string
    requires r <= 0x10FFFF
  {
    if r < 0x80 then [r as char]
    else if r < 0x800 then [(0xC0 + r / 64) as char, (0x80 + r % 64) as char]
    else if r < 0x10000 then [(0xE0 + r / 4096) as char, (0x80 + r / 64 % 64) as char, (0x80 + r % 64) as char]
    else [(0xF0 + r / 262144) as char, (0x80 + r / 4096 % 64) as char, (0x80 + r / 64 % 64) as char, (0x80 + r % 64) as char]
  }

  // A lone surrogate is stored the way UTF-8 would encode it.
  function EncodeSurrogate(unit: nat): string
    requires IsSurrogate(unit)
  {
    [0xED as char, (0x80 + unit / 64 % 64) as char, (0x80 + unit % 64) as char]
  }

  predicate StartsSurrogate(s: string) {
    Within(s, 0, 0xED, 0xED) && Within(s, 1, 0xA0, 0xBF) && Tail(s, 2)
  }

  function SurrogateUnit(s: string): (unit: nat)
    requires StartsSurrogate(s)
    ensures IsSurrogate(unit)
  {
    0xD000 + (s[1] as int - 0x80) * 64 + (s[2] as int - 0x80)
  }

  predicate StartsLow(s: string) { StartsSurrogate(s) && IsLow(SurrogateUnit(s)) }

  // Strings a JavaScript engine could hold: UTF-8, plus lone surrogates never pairing up.
  predicate WellFormed(s: string) {
    if s == "" then true
    else if StartsSurrogate(s) then (IsHigh(SurrogateUnit(s)) ==> !StartsLow(s[3..])) && WellFormed(s[3..])
    else RuneSize(s) > 0 && WellFormed(s[RuneSize(s)..])
  }

  // ----- Reading -----

  function HexDigit(c: char): int {
    if '0' <= c <= '9' then c as int - '0' as int
    else if 'a' <= c <= 'f' then c as int - 'a' as int + 10
    else if 'A' <= c <= 'F' then c as int - 'A' as int + 10
    else -1
  }

  // The UTF-16 unit of four hex digits at the start of `s`, or -1.
  function HexUnit(s: string): (u: int)
    ensures -1 <= u < 0x10000 && (u >= 0 ==> |s| >= 4)
  {
    if |s| < 4 || HexDigit(s[0]) < 0 || HexDigit(s[1]) < 0 || HexDigit(s[2]) < 0 || HexDigit(s[3]) < 0 then -1
    else HexDigit(s[0]) * 4096 + HexDigit(s[1]) * 256 + HexDigit(s[2]) * 16 + HexDigit(s[3])
  }

  predicate StartsLowEscape(s: string) {
    |s| >= 2 && s[0] == '\\' && s[1] == 'u' && IsLow(HexUnit(s[2..]))
  }

  // One escape after its backslash: the bytes it stands for.
  function ParseEscape(s: string): (r: Result<string>)
    ensures r.Ok? ==> |r.rest| < |s|
  {
    if s == "" then Err
    else match s[0]
      case '"' => Ok("\"", s[1..])
      case '\\' => Ok("\\", s[1..])
      case '/' => Ok("/", s[1..])
      case 'b' => Ok([8 as char], s[1..])
      case 'f' => Ok([12 as char], s[1..])
      case 'n' => Ok([10 as char], s[1..])
      case 'r' => Ok([13 as char], s[1..])
      case 't' => Ok([9 as char], s[1..])
      case 'u' =>
        var unit := HexUnit(s[1..]);
        if unit < 0 then Err
        else if IsHigh(unit) && StartsLowEscape(s[5..]) then
          Ok(EncodeRune(0x10000 + (unit - 0xD800) * 1024 + (HexUnit(s[7..]) - 0xDC00)), s[11..])
        else if IsSurrogate(unit) then Ok(EncodeSurrogate(unit), s[5..])
        else Ok(EncodeRune(unit), s[5..])
      case _ => Err
  }

  // The body of a string up to and including its closing quote.
  function ParseChars(s: string): (r: Result<string>)
    ensures r.Ok? ==> |r.rest| < |s|
    decreases |s|
  {
    if s == "" then Err
    else if s[0] == '"' then Ok("", s[1..])
    else if s[0] == '\\' then
      match ParseEscape(s[1..])
      case Err => Err
      case Ok(bytes, more) => Prepend(bytes, ParseChars(more))
    else if s[0] as int < 0x20 then Err
    else
      var n := RuneSize(s);
      if n == 0 then Err else Prepend(s[..n], ParseChars(s[n..]))
  }

  function Prepend(bytes: string, r: Result<string>): Result<string> {
    if r.Ok? then Ok(bytes + r.value, r.rest) else Err
  }

  function ParseString(s: string): (r: Result<string>)
    ensures r.Ok? ==> |r.rest| < |s|
  {
    if Starts(s, '"') then ParseChars(s[1..]) else Err
  }

  // ----- Writing -----

  function HexChar(d: nat): char
    requires d < 16
  {
    if d < 10 then ('0' as int + d) as char else ('a' as int + d - 10) as char
  }

  function UnicodeEscape(unit: nat): string
    requires unit < 0x10000
  {
    ['\\', 'u', HexChar(unit / 4096), HexChar(unit / 256 % 16), HexChar(unit / 16 % 16), HexChar(unit % 16)]
  }

  // What one UTF-8 sequence is written as.
  function WriteRune(rune: string): string
    requires rune != ""
  {
    var c := rune[0] as int;
    if c == 0x22 then "\\\""
    else if c == 0x5C then "\\\\"
    else if c == 8 then "\\b"
    else if c == 12 then "\\f"
    else if c == 10 then "\\n"
    else if c == 13 then "\\r"
    else if c == 9 then "\\t"
    else if c < 0x20 then UnicodeEscape(c)
    else rune
  }

  function WriteChars(s: string): string {
    if s == "" then ""
    else if StartsSurrogate(s) then UnicodeEscape(SurrogateUnit(s)) + WriteChars(s[3..])
    else
      var n := RuneSize(s);
      if n == 0 then "\\ufffd" + WriteChars(s[1..])
      else WriteRune(s[..n]) + WriteChars(s[n..])
  }

  function WriteString(s: string): string { "\"" + WriteChars(s) + "\"" }

  // ----- Laws -----

  lemma Nibbles(unit: nat)
    requires unit < 0x10000
    ensures unit / 4096 * 4096 + unit / 256 % 16 * 256 + unit / 16 % 16 * 16 + unit % 16 == unit
  {
    var a, b, c := unit / 16, unit / 256, unit / 4096;
    assert unit == a * 16 + unit % 16;
    assert b == a / 16 && a == b * 16 + a % 16;
    assert c == b / 16 && b == c * 16 + b % 16;
  }

  lemma HexCharReads(d: nat)
    requires d < 16
    ensures HexDigit(HexChar(d)) == d
  {
  }

  lemma HexRoundTrip(unit: nat, rest: string)
    requires unit < 0x10000
    ensures HexUnit(UnicodeEscape(unit)[2..] + rest) == unit
  {
    var h := UnicodeEscape(unit)[2..] + rest;
    assert h[0] == HexChar(unit / 4096) && h[1] == HexChar(unit / 256 % 16) && h[2] == HexChar(unit / 16 % 16) && h[3] == HexChar(unit % 16);
    HexCharReads(unit / 4096);
    HexCharReads(unit / 256 % 16);
    HexCharReads(unit / 16 % 16);
    HexCharReads(unit % 16);
    Nibbles(unit);
  }

  lemma RunePrefix(rune: string, rest: string)
    requires rune != "" && RuneSize(rune) == |rune|
    ensures RuneSize(rune + rest) == |rune| && !StartsSurrogate(rune + rest)
  {
  }

  lemma PrefixIsRune(s: string)
    requires RuneSize(s) > 0
    ensures RuneSize(s[..RuneSize(s)]) == RuneSize(s)
  {
  }

  lemma EncodeRuneIsUtf8(r: nat)
    requires r <= 0x10FFFF && !IsSurrogate(r)
    ensures EncodeRune(r) != "" && RuneSize(EncodeRune(r)) == |EncodeRune(r)|
  {
    if r >= 0x10000 { FourByteRune(r); } else if r >= 0x800 { ThreeByteRune(r); }
  }

  lemma ThreeByteRune(r: nat)
    requires 0x800 <= r < 0x10000 && !IsSurrogate(r)
    ensures RuneSize(EncodeRune(r)) == 3
  {
    var lead, mid := r / 4096, r / 64 % 64;
    assert lead == 0 ==> mid >= 32;
    assert lead == 13 ==> mid < 32;
  }

  lemma FourByteRune(r: nat)
    requires 0x10000 <= r <= 0x10FFFF
    ensures RuneSize(EncodeRune(r)) == 4
  {
    var lead, second := r / 262144, r / 4096 % 64;
    assert lead == 0 ==> second >= 16;
    assert lead == 4 ==> second < 16;
  }

  lemma SurrogateRoundTrip(unit: nat, rest: string)
    requires IsSurrogate(unit)
    ensures StartsSurrogate(EncodeSurrogate(unit) + rest) && SurrogateUnit(EncodeSurrogate(unit) + rest) == unit
    ensures EncodeSurrogate(unit) + rest == EncodeSurrogate(unit) + rest && (EncodeSurrogate(unit) + rest)[3..] == rest
  {
    assert unit / 64 % 64 == unit / 64 - 832;
  }

  lemma EncodeOfUnit(s: string)
    requires StartsSurrogate(s)
    ensures EncodeSurrogate(SurrogateUnit(s)) == s[..3]
  {
    var hi, lo := s[1] as int - 0x80, s[2] as int - 0x80;
    assert SurrogateUnit(s) == (832 + hi) * 64 + lo;
    assert SurrogateUnit(s) / 64 == 832 + hi && SurrogateUnit(s) % 64 == lo;
  }

  lemma EscapeIsNotLow(unit: nat, more: string)
    requires unit < 0x10000 && !IsLow(unit)
    ensures !StartsLowEscape(UnicodeEscape(unit) + more)
  {
    HexRoundTrip(unit, more);
    assert (UnicodeEscape(unit) + more)[2..] == UnicodeEscape(unit)[2..] + more;
  }

  lemma RuneIsNotLow(rune: string, more: string)
    requires rune != ""
    ensures !StartsLowEscape(WriteRune(rune) + more)
  {
    var t, c := WriteRune(rune) + more, rune[0] as int;
    if c < 0x20 && c !in {8, 9, 10, 12, 13} {
      EscapeIsNotLow(c, more);
    } else if c in {0x22, 0x5C, 8, 9, 10, 12, 13} {
      assert t[1] == WriteRune(rune)[1];
    } else {
      assert t[0] == rune[0];
    }
  }

  // What a well-formed string is written as never opens with the escape of a low surrogate,
  // unless the string itself opens with one.
  lemma NoLowEscape(s: string, rest: string)
    requires WellFormed(s) && !StartsLow(s)
    ensures !StartsLowEscape(WriteChars(s) + ("\"" + rest))
  {
    var close := "\"" + rest;
    if s == "" {
      assert WriteChars(s) + close == close;
    } else if StartsSurrogate(s) {
      EscapeIsNotLow(SurrogateUnit(s), WriteChars(s[3..]) + close);
      Regroup3(UnicodeEscape(SurrogateUnit(s)), WriteChars(s[3..]), close);
    } else {
      var n := RuneSize(s);
      RuneIsNotLow(s[..n], WriteChars(s[n..]) + close);
      Regroup3(WriteRune(s[..n]), WriteChars(s[n..]), close);
    }
  }

  /** A written string reads back as itself. */
  lemma {:induction false} CharsRoundTrip(s: string, rest: string)
    requires WellFormed(s)
    ensures ParseChars(WriteChars(s) + ("\"" + rest)) == Ok(s, rest)
    decreases |s|
  {
    hide WriteRune, UnicodeEscape, ParseEscape, HexUnit, EncodeRune;
    var close := "\"" + rest;
    if s == "" {
      assert WriteChars(s) + close == close;
      assert close[1..] == rest;
    } else if StartsSurrogate(s) {
      SurrogateReads(s, rest);
      CharsRoundTrip(s[3..], rest);
      assert s == s[..3] + s[3..];
    } else {
      var n := RuneSize(s);
      PrefixIsRune(s);
      RuneReads(s[..n], WriteChars(s[n..]) + close);
      Regroup3(WriteRune(s[..n]), WriteChars(s[n..]), close);
      CharsRoundTrip(s[n..], rest);
      assert s == s[..n] + s[n..];
    }
  }

  lemma SurrogateReads(s: string, rest: string)
    requires s != "" && StartsSurrogate(s) && WellFormed(s)
    ensures ParseChars(WriteChars(s) + ("\"" + rest)) == Prepend(s[..3], ParseChars(WriteChars(s[3..]) + ("\"" + rest)))
  {
    var unit, more := SurrogateUnit(s), WriteChars(s[3..]) + ("\"" + rest);
    Regroup3(UnicodeEscape(unit), WriteChars(s[3..]), "\"" + rest);
    var escape := (UnicodeEscape(unit) + more)[1..];
    HexRoundTrip(unit, more);
    assert escape[1..] == UnicodeEscape(unit)[2..] + more;
    assert escape[5..] == more;
    if IsHigh(unit) { NoLowEscape(s[3..], rest); }
    EncodeOfUnit(s);
  }

  lemma RuneReads(rune: string, more: string)
    requires rune != "" && RuneSize(rune) == |rune|
    ensures ParseChars(WriteRune(rune) + more) == Prepend(rune, ParseChars(more))
  {
    var c := rune[0] as int;
    if c in {0x22, 0x5C, 8, 9, 10, 12, 13} {
      ShortEscapeReads(rune, more);
    } else if c < 0x20 {
      ControlEscapeReads(rune, more);
    } else {
      var t := rune + more;
      RunePrefix(rune, more);
      assert t[..|rune|] == rune && t[|rune|..] == more && t[0] == rune[0];
    }
  }

  lemma ShortEscapeReads(rune: string, more: string)
    requires |rune| == 1 && rune[0] as int in {0x22, 0x5C, 8, 9, 10, 12, 13}
    ensures ParseChars(WriteRune(rune) + more) == Prepend(rune, ParseChars(more))
  {
    var t := WriteRune(rune) + more;
    assert t[0] == '\\' && t[1] == WriteRune(rune)[1];
    assert t[1..][1..] == more;
    assert rune == [rune[0]];
  }

  lemma ControlEscapeReads(rune: string, more: string)
    requires |rune| == 1 && rune[0] as int < 0x20 && rune[0] as int !in {8, 9, 10, 12, 13}
    ensures ParseChars(WriteRune(rune) + more) == Prepend(rune, ParseChars(more))
  {
    var t, c := WriteRune(rune) + more, rune[0] as int;
    HexRoundTrip(c, more);
    assert t[1..][1..] == UnicodeEscape(c)[2..] + more && t[1..][5..] == more;
    assert rune == EncodeRune(c);
  }

  /** Every string the parser accepts is well-formed: escaped surrogates that could pair up have been paired. */
  lemma {:induction false} ParsedIsWellFormed(s: string)
    requires ParseChars(s).Ok?
    ensures WellFormed(ParseChars(s).value)
    ensures StartsLow(ParseChars(s).value) ==> StartsLowEscape(s)
    decreases |s|
  {
    if s[0] == '"' {
    } else if s[0] == '\\' {
      var e := ParseEscape(s[1..]);
      ParsedIsWellFormed(e.rest);
      EscapeIsWellFormed(s, ParseChars(e.rest).value);
    } else {
      var n := RuneSize(s);
      ParsedIsWellFormed(s[n..]);
      PrefixIsRune(s);
      RuneKeepsWellFormed(s[..n], ParseChars(s[n..]).value);
    }
  }

  lemma RuneKeepsWellFormed(rune: string, s: string)
    requires rune != "" && RuneSize(rune) == |rune| && WellFormed(s)
    ensures WellFormed(rune + s) && !StartsLow(rune + s)
  {
    RunePrefix(rune, s);
    assert (rune + s)[|rune|..] == s;
  }

  lemma EscapeIsWellFormed(s: string, value: string)
    requires s != "" && s[0] == '\\' && ParseEscape(s[1..]).Ok? && WellFormed(value)
    requires StartsLow(value) ==> StartsLowEscape(ParseEscape(s[1..]).rest)
    ensures WellFormed(ParseEscape(s[1..]).value + value)
    ensures StartsLow(ParseEscape(s[1..]).value + value) ==> StartsLowEscape(s)
  {
    var e := s[1..];
    var bytes := ParseEscape(e).value;
    if e[0] == 'u' {
      var unit := HexUnit(e[1..]);
      if IsHigh(unit) && StartsLowEscape(e[5..]) {
        var low := HexUnit(e[7..]);
        assert e[5..][2..] == e[7..];
        EncodeRuneIsUtf8(0x10000 + (unit - 0xD800) * 1024 + (low - 0xDC00));
        RuneKeepsWellFormed(bytes, value);
      } else if IsSurrogate(unit) {
        SurrogateRoundTrip(unit, value);
        assert s[2..] == e[1..];
      } else {
        EncodeRuneIsUtf8(unit);
        RuneKeepsWellFormed(bytes, value);
      }
    } else {
      RuneKeepsWellFormed(bytes, value);
    }
  }
}
