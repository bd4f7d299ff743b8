/**
 The loops of the ordered JSON boundary: a parser that advances a position through its data, a
 writer that fills a buffer, and the filter behind the compact form. Each method is proved against
 its specification function.
 */
module JsonEngine {
  import opened JsonValue
  import opened JsonNumber
  import opened JsonString
  import opened JsonText
  import MergeEngine

  datatype Option<+T> = None | Some(value: T)

  // A method's answer stands for a specification's result: the value, and the position behind it.
  predicate Agrees<T(==)>(found: Option<T>, rest: string, spec: Result<T>) {
    if spec.Ok? then found == Some(spec.value) && rest == spec.rest else found == None
  }

  class Parser {
    const data: string
    var pos: nat

    constructor (data: string)
      ensures this.data == data && pos == 0
    {
      this.data := data;
      pos := 0;
    }

    predicate Valid()
      reads this
    {
      pos <= |data|
    }

    /** What has not been read yet. */
    function Rest(): string
      requires Valid()
      reads this
    {
      data[pos..]
    }

    method Advance(n: nat)
      requires pos + n <= |data|
      modifies this
      ensures Valid() && pos == old(pos) + n && Rest() == old(Rest())[n..]
    {
      pos := pos + n;
    }

    method Consume(want: char) returns (found: bool)
      requires Valid()
      modifies this
      ensures Valid() && found == Starts(old(Rest()), want)
      ensures Rest() == if found then old(Rest())[1..] else old(Rest())
      ensures pos == if found then old(pos) + 1 else old(pos)
    {
      if pos < |data| && data[pos] == want {
        Advance(1);
        return true;
      }
      return false;
    }

    method SkipWhitespace()
      requires Valid()
      modifies this
      ensures Valid() && pos >= old(pos) && Rest() == SkipSpace(old(Rest()))
    {
      while pos < |data| && IsSpace(data[pos])
        invariant Valid() && pos >= old(pos) && SkipSpace(Rest()) == SkipSpace(old(Rest()))
        decreases |data| - pos
      {
        assert Rest()[1..] == data[pos + 1..];
        pos := pos + 1;
      }
    }

    method ConsumeLiteral(literal: string) returns (found: bool)
      requires Valid()
      modifies this
      ensures Valid() && found == (literal <= old(Rest()))
      ensures Rest() == if found then old(Rest())[|literal|..] else old(Rest())
      ensures pos == if found then old(pos) + |literal| else old(pos)
    {
      if |data| - pos < |literal| || data[pos..pos + |literal|] != literal {
        assert |literal| <= |Rest()| ==> Rest()[..|literal|] == data[pos..pos + |literal|];
        return false;
      }
      assert Rest()[..|literal|] == literal;
      Advance(|literal|);
      return true;
    }

    method ConsumeDigits() returns (digits: string)
      requires Valid()
      modifies this
      ensures Valid() && digits == TakeDigits(old(Rest())) && pos == old(pos) + |digits|
      ensures Rest() == old(Rest())[|digits|..]
    {
      hide TakeDigits, AllDigits;
      digits := "";
      ghost var whole := TakeDigits(Rest());
      NoDigitsYet(whole);
      while pos < |data| && IsDigit(data[pos])
        invariant Valid() && pos == old(pos) + |digits| && digits + TakeDigits(Rest()) == whole
        decreases |data| - pos
      {
        assert Rest()[1..] == data[pos + 1..];
        OneDigitMore(digits, Rest(), whole);
        digits := digits + [data[pos]];
        pos := pos + 1;
      }
      NoDigitLeft(digits, Rest(), whole);
    }

    // ----- Numbers -----

    method ParseWholeHere() returns (whole: Option<string>)
      requires Valid()
      modifies this
      ensures Valid() && Agrees(whole, Rest(), ParseWhole(old(Rest())))
    {
      hide TakeDigits;
      var zero := Consume('0');
      if zero {
        if pos < |data| && IsDigit(data[pos]) {
          return None;
        }
        return Some("0");
      }
      TakeOne(Rest());
      if pos == |data| || data[pos] < '1' || data[pos] > '9' {
        return None;
      }
      var digits := ConsumeDigits();
      return Some(digits);
    }

    method ParseFractionHere() returns (fraction: Option<string>)
      requires Valid()
      modifies this
      ensures Valid() && Agrees(fraction, Rest(), ParseFraction(old(Rest())))
    {
      hide TakeDigits;
      var point := Consume('.');
      if !point {
        return Some("");
      }
      var digits := ConsumeDigits();
      return if digits == "" then None else Some(digits);
    }

    method ConsumeSign() returns (minus: bool)
      requires Valid()
      modifies this
      ensures Valid() && minus == Starts(old(Rest()), '-')
      ensures Rest() == if Starts(old(Rest()), '+') || Starts(old(Rest()), '-') then old(Rest())[1..] else old(Rest())
    {
      minus := Consume('-');
      if !minus {
        var _ := Consume('+');
      }
    }

    method ParseExponentHere() returns (exponent: Option<(bool, string)>)
      requires Valid()
      modifies this
      ensures Valid() && Agrees(exponent, Rest(), ParseExponent(old(Rest())))
    {
      hide TakeDigits, AllDigits;
      if pos == |data| || (data[pos] != 'e' && data[pos] != 'E') {
        return Some((false, ""));
      }
      ghost var s := Rest();
      Advance(1);
      var minus := ConsumeSign();
      assert Rest() == if Starts(s[1..], '+') || Starts(s[1..], '-') then s[2..] else s[1..];
      var digits := ConsumeDigits();
      return if digits == "" then None else Some((minus, digits));
    }

    method ParseNumberHere(round: Rounding) returns (number: Option<Value>)
      requires Valid()
      modifies this
      ensures Valid() && Agrees(number, Rest(), ParseNumber(round, old(Rest())))
    {
      hide ParseWhole, ParseFraction, ParseExponent, Exact;
      var neg := Consume('-');
      var whole := ParseWholeHere();
      if whole == None {
        return None;
      }
      var fraction := ParseFractionHere();
      if fraction == None {
        return None;
      }
      var exponent := ParseExponentHere();
      if exponent == None {
        return None;
      }
      return Some(Num(round(Exact(Literal(neg, whole.value, fraction.value, exponent.value.0, exponent.value.1)))));
    }

    // ----- Strings -----

    /** The unit of four hex digits, or -1 with nothing consumed. */
    method ParseUnicodeEscape() returns (unit: int)
      requires Valid()
      modifies this
      ensures Valid() && unit == HexUnit(old(Rest()))
      ensures Rest() == if unit < 0 then old(Rest()) else old(Rest())[4..]
    {
      if pos + 4 > |data| {
        return -1;
      }
      unit := 0;
      for i := 0 to 4
        invariant pos == old(pos) && unit >= 0
        invariant (i > 0 ==> HexDigit(data[pos]) >= 0) && (i > 1 ==> HexDigit(data[pos + 1]) >= 0)
        invariant (i > 2 ==> HexDigit(data[pos + 2]) >= 0) && (i > 3 ==> HexDigit(data[pos + 3]) >= 0)
        invariant i == 0 ==> unit == 0
        invariant i == 1 ==> unit == HexDigit(data[pos])
        invariant i == 2 ==> unit == HexDigit(data[pos]) * 16 + HexDigit(data[pos + 1])
        invariant i == 3 ==> unit == HexDigit(data[pos]) * 256 + HexDigit(data[pos + 1]) * 16 + HexDigit(data[pos + 2])
        invariant i == 4 ==> unit == HexUnit(Rest())
      {
        var digit := HexDigit(data[pos + i]);
        if digit < 0 {
          return -1;
        }
        unit := unit * 16 + digit;
      }
      Advance(4);
    }

    /** A second escape is consumed only if it holds a low surrogate. */
    method ConsumeLowSurrogateEscape() returns (unit: int)
      requires Valid()
      modifies this
      ensures Valid() && (unit >= 0 <==> StartsLowEscape(old(Rest())))
      ensures unit >= 0 ==> unit == HexUnit(old(Rest())[2..]) && Rest() == old(Rest())[6..]
      ensures unit < 0 ==> Rest() == old(Rest())
    {
      hide HexUnit;
      var start := pos;
      if start + 2 > |data| || data[start] != '\\' || data[start + 1] != 'u' {
        return -1;
      }
      assert Rest()[2..] == data[pos + 2..];
      pos := pos + 2;
      unit := ParseUnicodeEscape();
      if !IsLow(unit) {
        pos := start;
        return -1;
      }
    }

    /** What an escape stands for, its backslash already consumed. */
    method ParseEscapeHere() returns (bytes: Option<string>)
      requires Valid()
      modifies this
      ensures Valid() && Agrees(bytes, Rest(), ParseEscape(old(Rest())))
    {
      hide HexUnit, EncodeRune, EncodeSurrogate;
      if pos == |data| {
        return None;
      }
      var escape := data[pos];
      Advance(1);
      match escape {
        case '"' => return Some("\"");
        case '\\' => return Some("\\");
        case '/' => return Some("/");
        case 'b' => return Some([8 as char]);
        case 'f' => return Some([12 as char]);
        case 'n' => return Some([10 as char]);
        case 'r' => return Some([13 as char]);
        case 't' => return Some([9 as char]);
        case 'u' => bytes := ParseUnitHere();
        case _ => return None;
      }
    }

    method ParseUnitHere() returns (bytes: Option<string>)
      requires Valid() && pos > 0 && data[pos - 1] == 'u'
      modifies this
      ensures Valid() && Agrees(bytes, Rest(), ParseEscape(data[old(pos) - 1..]))
    {
      hide HexUnit, EncodeRune, EncodeSurrogate;
      ghost var s := data[pos - 1..];
      assert s[1..] == Rest();
      var unit := ParseUnicodeEscape();
      if unit < 0 {
        return None;
      }
      assert Rest() == s[5..];
      if IsHigh(unit) {
        var low := ConsumeLowSurrogateEscape();
        if low >= 0 {
          assert s[5..][2..] == s[7..];
          assert s[5..][6..] == s[11..];
          return Some(EncodeRune(0x10000 + (unit - 0xD800) * 1024 + (low - 0xDC00)));
        }
        return Some(EncodeSurrogate(unit));
      }
      return Some(if IsSurrogate(unit) then EncodeSurrogate(unit) else EncodeRune(unit));
    }

    method ParseStringHere() returns (text: Option<string>)
      requires Valid()
      modifies this
      ensures Valid() && Agrees(text, Rest(), ParseString(old(Rest())))
    {
      hide ParseEscape, RuneSize, ParseChars, IsDigit;
      var quote := Consume('"');
      if !quote {
        return None;
      }
      var out := "";
      ghost var whole := ParseChars(Rest());
      PrependNothing(whole);
      while pos < |data|
        invariant Valid() && Prepend(out, ParseChars(Rest())) == whole
        decreases |data| - pos
      {
        CharsStep(Rest());
        var c := data[pos];
        if c == '"' {
          Advance(1);
          assert out + "" == out;
          return Some(out);
        } else if c == '\\' {
          Advance(1);
          var bytes := ParseEscapeHere();
          if bytes == None {
            return None;
          }
          PrependTwice(out, bytes.value, ParseChars(Rest()));
          out := out + bytes.value;
        } else if c as int < 0x20 {
          return None;
        } else {
          var size := RuneSize(data[pos..]);
          if size == 0 {
            return None;
          }
          assert Rest()[..size] == data[pos..pos + size];
          PrependTwice(out, data[pos..pos + size], ParseChars(Rest()[size..]));
          out := out + data[pos..pos + size];
          Advance(size);
        }
      }
      CharsStep(Rest());
      return None;
    }

    // ----- Values -----

    method ParseValueHere(round: Rounding) returns (v: Option<Value>)
      requires Valid()
      modifies this
      ensures Valid() && Agrees(v, Rest(), ParseValue(round, old(Rest())))
      decreases |data| - pos, 1
    {
      hide ParseMembers, ParseElements, ParseNumber, ParseString, SkipSpace;
      if pos == |data| {
        return None;
      }
      match data[pos] {
        case '{' => v := ParseObjectHere(round);
        case '[' => v := ParseArrayHere(round);
        case '"' =>
          var text := ParseStringHere();
          return if text.Some? then Some(Str(text.value)) else None;
        case 't' =>
          var found := ConsumeLiteral("true");
          return if found then Some(Bool(true)) else None;
        case 'f' =>
          var found := ConsumeLiteral("false");
          return if found then Some(Bool(false)) else None;
        case 'n' =>
          var found := ConsumeLiteral("null");
          return if found then Some(Null) else None;
        case _ =>
          if data[pos] == '-' || IsDigit(data[pos]) {
            v := ParseNumberHere(round);
          } else {
            return None;
          }
      }
    }

    method ParseObjectHere(round: Rounding) returns (v: Option<Value>)
      requires Valid() && pos < |data| && data[pos] == '{'
      modifies this
      ensures Valid() && Agrees(v, Rest(), ParseValue(round, old(Rest())))
      decreases |data| - pos, 0
    {
      hide ParseMembers, ParseElements, ParseNumber, ParseString, SkipSpace, ParseValue;
      ObjectStep(round, Rest());
      Advance(1);
      SkipWhitespace();
      var members := new MergeEngine.Object();
      var empty := Consume('}');
      if empty {
        return Some(EMPTY_OBJECT);
      }
      ghost var whole := ParseMembers(round, Rest(), EMPTY_OBJECT);
      while true
        invariant Valid() && pos > old(pos) && whole == ParseMembers(round, Rest(), members.View())
        decreases |data| - pos
      {
        MembersStep(round, Rest(), members.View());
        ghost var start := pos;
        SkipWhitespace();
        var key := ParseStringHere();
        if key == None {
          return None;
        }
        SkipWhitespace();
        var colon := Consume(':');
        if !colon {
          return None;
        }
        SkipWhitespace();
        var value := ParseValueHere(round);
        if value == None {
          return None;
        }
        members.Put(key.value, value.value);
        SkipWhitespace();
        var close := Consume('}');
        if close {
          return Some(members.View());
        }
        var comma := Consume(',');
        if !comma {
          return None;
        }
        SkipWhitespace();
        if pos == |data| {
          return None;
        }
      }
    }

    method ParseArrayHere(round: Rounding) returns (v: Option<Value>)
      requires Valid() && pos < |data| && data[pos] == '['
      modifies this
      ensures Valid() && Agrees(v, Rest(), ParseValue(round, old(Rest())))
      decreases |data| - pos, 0
    {
      hide ParseMembers, ParseElements, ParseNumber, ParseString, SkipSpace, ParseValue;
      ArrayStep(round, Rest());
      Advance(1);
      SkipWhitespace();
      var items: seq<Value> := [];
      var empty := Consume(']');
      if empty {
        return Some(Arr([]));
      }
      ghost var whole := ParseElements(round, Rest(), []);
      while true
        invariant Valid() && pos > old(pos) && whole == ParseElements(round, Rest(), items)
        decreases |data| - pos
      {
        ElementsStep(round, Rest(), items);
        SkipWhitespace();
        var value := ParseValueHere(round);
        if value == None {
          return None;
        }
        items := items + [value.value];
        SkipWhitespace();
        var close := Consume(']');
        if close {
          return Some(Arr(items));
        }
        var comma := Consume(',');
        if !comma {
          return None;
        }
        SkipWhitespace();
        if pos == |data| {
          return None;
        }
      }
    }
  }

  method ParseDocument(round: Rounding, text: string) returns (document: Document)
    ensures document == Parse(round, text)
  {
    hide ParseValue, SkipSpace;
    var p := new Parser(text);
    assert p.Rest() == text;
    p.SkipWhitespace();
    var value := p.ParseValueHere(round);
    if value == None {
      return Malformed;
    }
    p.SkipWhitespace();
    return if p.pos == |text| then Parsed(value.value) else Malformed;
  }

  lemma NoDigitsYet(whole: string)
    ensures "" + whole == whole
  {
  }

  lemma OneDigitMore(digits: string, s: string, whole: string)
    requires StartsDigit(s) && digits + TakeDigits(s) == whole
    ensures digits + [s[0]] + TakeDigits(s[1..]) == whole
  {
    hide AllDigits;
    TakeOne(s);
    assert digits + [s[0]] + TakeDigits(s[1..]) == digits + ([s[0]] + TakeDigits(s[1..]));
  }

  lemma NoDigitLeft(digits: string, s: string, whole: string)
    requires !StartsDigit(s) && digits + TakeDigits(s) == whole
    ensures digits == whole
  {
    TakeOne(s);
    assert digits + "" == digits;
  }

  lemma TakeOne(s: string)
    ensures TakeDigits(s) == if StartsDigit(s) then [s[0]] + TakeDigits(s[1..]) else ""
  {
  }

  lemma PrependNothing(r: Result<string>)
    ensures Prepend("", r) == r
  {
    if r.Ok? { assert "" + r.value == r.value; }
  }

  lemma PrependTwice(a: string, b: string, r: Result<string>)
    ensures Prepend(a, Prepend(b, r)) == Prepend(a + b, r)
  {
    if r.Ok? { assert a + (b + r.value) == a + b + r.value; }
  }

  lemma CharsStep(s: string)
    ensures ParseChars(s) ==
            if s == "" then Err
            else if s[0] == '"' then Ok("", s[1..])
            else if s[0] == '\\' then
              var e := ParseEscape(s[1..]);
              if e.Err? then Err else Prepend(e.value, ParseChars(e.rest))
            else if s[0] as int < 0x20 then Err
            else if RuneSize(s) == 0 then Err
            else Prepend(s[..RuneSize(s)], ParseChars(s[RuneSize(s)..]))
  {
  }

  lemma ObjectStep(round: Rounding, s: string)
    requires s != "" && s[0] == '{'
    ensures ParseValue(round, s) ==
            var t := SkipSpace(s[1..]);
            if Starts(t, '}') then Ok(EMPTY_OBJECT, t[1..]) else ParseMembers(round, t, EMPTY_OBJECT)
  {
  }

  lemma ArrayStep(round: Rounding, s: string)
    requires s != "" && s[0] == '['
    ensures ParseValue(round, s) ==
            var t := SkipSpace(s[1..]);
            if Starts(t, ']') then Ok(Arr([]), t[1..]) else ParseElements(round, t, [])
  {
  }

  lemma MembersStep(round: Rounding, s: string, o: Value)
    requires o.Obj?
    ensures ParseMembers(round, s, o) ==
            var key := ParseString(SkipSpace(s));
            if key.Err? then Err
            else
              var s2 := SkipSpace(key.rest);
              if !Starts(s2, ':') then Err
              else
                var v := ParseValue(round, SkipSpace(s2[1..]));
                if v.Err? then Err
                else
                  var put, s4 := PutObject(o, key.value, v.value), SkipSpace(v.rest);
                  if Starts(s4, '}') then Ok(put, s4[1..])
                  else if !Starts(s4, ',') || SkipSpace(s4[1..]) == "" then Err
                  else ParseMembers(round, SkipSpace(s4[1..]), put)
  {
  }

  lemma ElementsStep(round: Rounding, s: string, items: seq<Value>)
    ensures ParseElements(round, s, items) ==
            var v := ParseValue(round, SkipSpace(s));
            if v.Err? then Err
            else
              var s2 := SkipSpace(v.rest);
              if Starts(s2, ']') then Ok(Arr(items + [v.value]), s2[1..])
              else if !Starts(s2, ',') || SkipSpace(s2[1..]) == "" then Err
              else ParseElements(round, SkipSpace(s2[1..]), items + [v.value])
  {
  }

  // ----- The compact form -----

  /** Copies the serialized text, leaving out the whitespace outside strings. */
  method CompactText(v: Value) returns (out: string)
    ensures out == CompactSerialize(v)
  {
    hide Serialize;
    var text := SerializeText(v);
    out := "";
    var inString, escaped := false, false;
    for i := 0 to |text|
      invariant escaped ==> inString
      invariant out + Squeeze(text[i..], if escaped then Escaped else if inString then Inside else Outside) == Squeeze(text, Outside)
    {
      var c := text[i];
      assert text[i..][0] == c && text[i..][1..] == text[i + 1..];
      ghost var rest := Squeeze(text[i + 1..], Step(if escaped then Escaped else if inString then Inside else Outside, c));
      assert out + ([c] + rest) == out + [c] + rest && out + ("" + rest) == out + rest;
      if inString {
        out := out + [c];
        if escaped {
          escaped := false;
        } else if c == '\\' {
          escaped := true;
        } else if c == '"' {
          inString := false;
        }
      } else if c == '"' {
        inString := true;
        out := out + [c];
      } else if !IsSpace(c) {
        out := out + [c];
      }
    }
    assert out + "" == out;
  }

  // ----- The writer -----

  function Indent(depth: nat): string { seq(2 * depth, _ => ' ') }

  // What is left to write of an object after a line break: its members and the closing brace.
  function MembersTail(v: Value, keys: seq<string>, depth: nat): string
    requires v.Obj? && forall k :: k in keys ==> k in v.m
  {
    if keys == [] then Indent(depth) + "}"
    else
      Indent(depth + 1) + (WriteString(keys[0]) + (": " + (Write(true, v.m[keys[0]], depth + 1) +
        ((if |keys| > 1 then "," else "") + ("\n" + MembersTail(v, keys[1..], depth))))))
  }

  function ElementsTail(v: Value, i: nat, depth: nat): string
    requires v.Arr? && i <= |v.items|
    decreases |v.items| - i
  {
    if i == |v.items| then Indent(depth) + "]"
    else
      Indent(depth + 1) + (Write(true, v.items[i], depth + 1) +
        ((if i + 1 < |v.items| then "," else "") + ("\n" + ElementsTail(v, i + 1, depth))))
  }

  lemma Broken(depth: nat, rest: string)
    ensures Break(true, depth) + rest == "\n" + (Indent(depth) + rest)
  {
    assert Break(true, depth) == "\n" + Indent(depth);
  }

  lemma {:induction false} MembersAreTail(v: Value, keys: seq<string>, depth: nat)
    requires v.Obj? && forall k :: k in keys ==> k in v.m
    ensures WriteMembers(true, v, keys, depth) == "\n" + MembersTail(v, keys, depth)
    decreases |keys|
  {
    hide Write, WriteString, Indent, Break;
    if keys == [] {
      Broken(depth, "}");
    } else {
      MembersAreTail(v, keys[1..], depth);
      Broken(depth + 1, WriteString(keys[0]) + (": " + (Write(true, v.m[keys[0]], depth + 1) +
        ((if |keys| > 1 then "," else "") + ("\n" + MembersTail(v, keys[1..], depth))))));
    }
  }

  lemma {:induction false} ElementsAreTail(v: Value, i: nat, depth: nat)
    requires v.Arr? && i <= |v.items|
    ensures WriteElements(true, v, i, depth) == "\n" + ElementsTail(v, i, depth)
    decreases |v.items| - i
  {
    hide Write, Indent, Break;
    if i == |v.items| {
      Broken(depth, "]");
    } else {
      ElementsAreTail(v, i + 1, depth);
      Broken(depth + 1, Write(true, v.items[i], depth + 1) +
        ((if i + 1 < |v.items| then "," else "") + ("\n" + ElementsTail(v, i + 1, depth))));
    }
  }

  lemma Shift(done: string, more: string, rest: string)
    ensures done + (more + rest) == (done + more) + rest
  {
  }

  class Buffer {
    var text: string

    constructor ()
      ensures text == ""
    {
      text := "";
    }

    method Add(more: string)
      modifies this
      ensures text == old(text) + more
    {
      text := text + more;
    }

    method WriteIndent(depth: nat)
      modifies this
      ensures text == old(text) + Indent(depth)
    {
      for i := 0 to depth
        invariant text == old(text) + Indent(i)
      {
        assert Indent(i) + "  " == Indent(i + 1);
        Shift(old(text), Indent(i), "  ");
        text := text + "  ";
      }
    }

    method WriteStringInto(s: string)
      modifies this
      ensures text == old(text) + WriteString(s)
    {
      hide WriteChars, RuneSize, SurrogateUnit, UnicodeEscape, WriteRune;
      Shift(old(text), "\"", WriteChars(s) + "\"");
      text := text + "\"";
      var pos := 0;
      assert s[0..] == s;
      while pos < |s|
        invariant pos <= |s| && text + WriteChars(s[pos..]) == old(text) + "\"" + WriteChars(s)
      {
        CharsWritten(s[pos..]);
        if StartsSurrogate(s[pos..]) {
          assert s[pos..][3..] == s[pos + 3..];
          Shift(text, UnicodeEscape(SurrogateUnit(s[pos..])), WriteChars(s[pos + 3..]));
          text := text + UnicodeEscape(SurrogateUnit(s[pos..]));
          pos := pos + 3;
        } else {
          var size := RuneSize(s[pos..]);
          if size == 0 {
            assert s[pos..][1..] == s[pos + 1..];
            Shift(text, "\\ufffd", WriteChars(s[pos + 1..]));
            text := text + "\\ufffd";
            pos := pos + 1;
          } else {
            assert s[pos..][..size] == s[pos..pos + size] && s[pos..][size..] == s[pos + size..];
            Shift(text, WriteRune(s[pos..pos + size]), WriteChars(s[pos + size..]));
            text := text + WriteRune(s[pos..pos + size]);
            pos := pos + size;
          }
        }
      }
      CharsWritten(s[pos..]);
      assert text + "" == text;
      text := text + "\"";
    }

    method WriteValue(v: Value, depth: nat)
      modifies this
      ensures text == old(text) + Write(true, v, depth)
      decreases v, 1
    {
      hide WriteMembers, WriteElements, WriteString, FormatNumber, PropertyOrder, ObjectKeys;
      match v {
        case Null => Add("null");
        case Bool(b) => Add(if b then "true" else "false");
        case Num(n) => Add(FormatNumber(n));
        case Str(s) => WriteStringInto(s);
        case Arr(_) => WriteArray(v, depth);
        case Obj(_, _) => WriteObject(v, depth);
      }
    }

    method WriteObject(v: Value, depth: nat)
      requires v.Obj?
      modifies this
      ensures text == old(text) + Write(true, v, depth)
      decreases v, 0
    {
      hide WriteMembers, WriteString, PropertyOrder, ObjectKeys, Write, MembersTail, Indent;
      var keys := PropertyOrder(ObjectKeys(v));
      ObjectWritten(v, depth);
      if keys == [] {
        Add("{}");
        return;
      }
      Add("{\n");
      Shift(old(text), "{\n", MembersTail(v, keys, depth));
      assert keys[0..] == keys;
      for i := 0 to |keys|
        invariant forall k :: k in keys ==> k in v.m
        invariant text + MembersTail(v, keys[i..], depth) == old(text) + ("{\n" + MembersTail(v, keys, depth))
      {
        assert keys[i..][1..] == keys[i + 1..];
        MembersWritten(v, keys[i..], depth);
        WriteMember(v, keys[i], i + 1 != |keys|, depth, MembersTail(v, keys[i + 1..], depth));
      }
      assert keys[|keys|..] == [];
      MembersWritten(v, [], depth);
      Shift(text, Indent(depth), "}");
      WriteIndent(depth);
      Add("}");
    }

    // One member on a line of its own; `rest` is what follows the line.
    method WriteMember(v: Value, key: string, more: bool, depth: nat, ghost rest: string)
      requires v.Obj? && key in v.m
      modifies this
      ensures text + rest == old(text) + (Indent(depth + 1) + (WriteString(key) + (": " + (Write(true, v.m[key], depth + 1) +
                ((if more then "," else "") + ("\n" + rest))))))
      decreases v, 0, 0
    {
      hide WriteString, Write, Indent;
      var comma := if more then "," else "";
      ghost var x, y := WriteString(key), Write(true, v.m[key], depth + 1);
      Shift(text, Indent(depth + 1), x + (": " + (y + (comma + ("\n" + rest)))));
      WriteIndent(depth + 1);
      Shift(text, x, ": " + (y + (comma + ("\n" + rest))));
      WriteStringInto(key);
      Shift(text, ": ", y + (comma + ("\n" + rest)));
      Add(": ");
      Shift(text, y, comma + ("\n" + rest));
      WriteValue(v.m[key], depth + 1);
      Shift(text, comma, "\n" + rest);
      Add(comma);
      Shift(text, "\n", rest);
      Add("\n");
    }

    method WriteArray(v: Value, depth: nat)
      requires v.Arr?
      modifies this
      ensures text == old(text) + Write(true, v, depth)
      decreases v, 0
    {
      hide WriteElements, Write, ElementsTail, Indent;
      ArrayWritten(v, depth);
      if |v.items| == 0 {
        Add("[]");
        return;
      }
      Add("[\n");
      Shift(old(text), "[\n", ElementsTail(v, 0, depth));
      for i := 0 to |v.items|
        invariant text + ElementsTail(v, i, depth) == old(text) + ("[\n" + ElementsTail(v, 0, depth))
      {
        ElementsWritten(v, i, depth);
        var comma := if i + 1 != |v.items| then "," else "";
        ghost var y, rest := Write(true, v.items[i], depth + 1), ElementsTail(v, i + 1, depth);
        Shift(text, Indent(depth + 1), y + (comma + ("\n" + rest)));
        WriteIndent(depth + 1);
        Shift(text, y, comma + ("\n" + rest));
        WriteValue(v.items[i], depth + 1);
        Shift(text, comma, "\n" + rest);
        Add(comma);
        Shift(text, "\n", rest);
        Add("\n");
      }
      ElementsWritten(v, |v.items|, depth);
      Shift(text, Indent(depth), "]");
      WriteIndent(depth);
      Add("]");
    }
  }

  lemma CharsWritten(s: string)
    ensures WriteChars(s) ==
            if s == "" then ""
            else if StartsSurrogate(s) then UnicodeEscape(SurrogateUnit(s)) + WriteChars(s[3..])
            else if RuneSize(s) == 0 then "\\ufffd" + WriteChars(s[1..])
            else WriteRune(s[..RuneSize(s)]) + WriteChars(s[RuneSize(s)..])
  {
  }

  lemma ObjectWritten(v: Value, depth: nat)
    requires v.Obj?
    ensures var keys := PropertyOrder(ObjectKeys(v));
            && (forall k :: k in keys ==> k in v.m)
            && Write(true, v, depth) == if keys == [] then "{}" else "{\n" + MembersTail(v, keys, depth)
  {
    hide PropertyOrder, ObjectKeys, MembersTail, WriteMembers;
    var keys := PropertyOrder(ObjectKeys(v));
    MembersAreTail(v, keys, depth);
    Shift("{", "\n", MembersTail(v, keys, depth));
  }

  lemma ArrayWritten(v: Value, depth: nat)
    requires v.Arr?
    ensures Write(true, v, depth) == if v.items == [] then "[]" else "[\n" + ElementsTail(v, 0, depth)
  {
    hide ElementsTail, WriteElements;
    ElementsAreTail(v, 0, depth);
    Shift("[", "\n", ElementsTail(v, 0, depth));
  }

  lemma MembersWritten(v: Value, keys: seq<string>, depth: nat)
    requires v.Obj? && forall k :: k in keys ==> k in v.m
    ensures MembersTail(v, keys, depth) ==
            if keys == [] then Indent(depth) + "}"
            else
              Indent(depth + 1) + (WriteString(keys[0]) + (": " + (Write(true, v.m[keys[0]], depth + 1) +
                ((if |keys| > 1 then "," else "") + ("\n" + MembersTail(v, keys[1..], depth))))))
  {
  }

  lemma ElementsWritten(v: Value, i: nat, depth: nat)
    requires v.Arr? && i <= |v.items|
    ensures ElementsTail(v, i, depth) ==
            if i == |v.items| then Indent(depth) + "]"
            else
              Indent(depth + 1) + (Write(true, v.items[i], depth + 1) +
                ((if i + 1 < |v.items| then "," else "") + ("\n" + ElementsTail(v, i + 1, depth))))
  {
  }

  /** The indented text of a value, as the writer leaves it in its buffer. */
  method SerializeText(v: Value) returns (text: string)
    ensures text == Serialize(v)
  {
    hide Write;
    var out := new Buffer();
    out.WriteValue(v, 0);
    assert "" + Write(true, v, 0) == Write(true, v, 0);
    return out.text;
  }
}
