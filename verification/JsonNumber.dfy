/**
 JSON number literals: the grammar the parser accepts, the decimal a literal denotes, and the
 layout the serializer gives a number.
 */
module JsonNumber {
  import opened JsonValue

  datatype Result<+T> = Ok(value: T, rest: string) | Err

  predicate IsDigit(c: char) { '0' <= c <= '9' }

  predicate AllDigits(s: string) { forall i :: 0 <= i < |s| ==> IsDigit(s[i]) }

  predicate Starts(s: string, c: char) { s != "" && s[0] == c }

  predicate StartsDigit(s: string) { s != "" && IsDigit(s[0]) }

  function TakeDigits(s: string): (r: string)
    ensures |r| <= |s| && r == s[..|r|] && AllDigits(r) && !StartsDigit(s[|r|..])
    ensures StartsDigit(s) ==> r != ""
  {
    if StartsDigit(s) then [s[0]] + TakeDigits(s[1..]) else ""
  }

  // The parts of a literal: sign, integer digits, fraction digits, and the exponent if there is one.
  datatype Literal = Literal(neg: bool, whole: string, fraction: string, expNeg: bool, expDigits: string)

  function ParseWhole(s: string): (r: Result<string>)
    ensures r.Ok? ==> s == r.value + r.rest && r.value != "" && AllDigits(r.value)
  {
    if Starts(s, '0') then
      if StartsDigit(s[1..]) then Err else Ok("0", s[1..])
    else
      var digits := TakeDigits(s);
      if digits == "" then Err else Ok(digits, s[|digits|..])
  }

  function ParseFraction(s: string): (r: Result<string>)
    ensures r.Ok? ==> |r.rest| <= |s| && AllDigits(r.value)
  {
    if !Starts(s, '.') then Ok("", s)
    else
      var digits := TakeDigits(s[1..]);
      if digits == "" then Err else Ok(digits, s[1..][|digits|..])
  }

  function ParseExponent(s: string): (r: Result<(bool, string)>)
    ensures r.Ok? ==> |r.rest| <= |s| && AllDigits(r.value.1)
  {
    if !Starts(s, 'e') && !Starts(s, 'E') then Ok((false, ""), s)
    else
      var signed := Starts(s[1..], '+') || Starts(s[1..], '-');
      var t := if signed then s[2..] else s[1..];
      var digits := TakeDigits(t);
      if digits == "" then Err else Ok((Starts(s[1..], '-'), digits), t[|digits|..])
  }

  function ParseLiteral(s: string): (r: Result<Literal>)
    ensures r.Ok? ==> |r.rest| < |s| && r.value.whole != ""
                      && AllDigits(r.value.whole) && AllDigits(r.value.fraction) && AllDigits(r.value.expDigits)
  {
    var neg := Starts(s, '-');
    match ParseWhole(if neg then s[1..] else s)
    case Err => Err
    case Ok(whole, s1) =>
      match ParseFraction(s1)
      case Err => Err
      case Ok(fraction, s2) =>
        match ParseExponent(s2)
        case Err => Err
        case Ok(exp, s3) => Ok(Literal(neg, whole, fraction, exp.0, exp.1), s3)
  }

  function DigitValue(c: char): nat
    requires IsDigit(c)
  {
    c as int - '0' as int
  }

  function NatValue(s: string): nat
    requires AllDigits(s)
  {
    if s == "" then 0 else NatValue(s[..|s| - 1]) * 10 + DigitValue(s[|s| - 1])
  }

  function NatText(n: nat): (s: string)
    ensures s != "" && AllDigits(s) && NatValue(s) == n
  {
    var d := [('0' as int + n % 10) as char];
    if n < 10 then
      assert d[..0] == "";
      d
    else
      var s := NatText(n / 10) + d;
      assert s[..|s| - 1] == NatText(n / 10);
      s
  }

  function LeadingZeros(s: string): (k: nat)
    ensures k <= |s| && s[..k] == Zeros(k) && !Starts(s[k..], '0')
  {
    if Starts(s, '0') then
      var k := 1 + LeadingZeros(s[1..]);
      assert s[..k] == ['0'] + s[1..][..k - 1];
      k
    else 0
  }

  function Zeros(k: nat): (s: string)
    ensures |s| == k && AllDigits(s) && forall i :: 0 <= i < k ==> s[i] == '0'
  {
    seq(k, _ => '0')
  }

  function TrimZeros(s: string): (r: string)
    ensures |r| <= |s| && r == s[..|r|] && s == r + Zeros(|s| - |r|) && (r != "" ==> r[|r| - 1] != '0')
  {
    if s != "" && s[|s| - 1] == '0' then
      var r := TrimZeros(s[..|s| - 1]);
      assert s == s[..|s| - 1] + "0" && Zeros(|s| - |r|) == Zeros(|s| - 1 - |r|) + "0";
      r
    else s
  }

  // Digit strings in normal form: some digits, neither end zero.
  predicate NormalDigits(d: string) {
    d != "" && AllDigits(d) && d[0] != '0' && d[|d| - 1] != '0'
  }

  predicate Normal(n: Number) { n.Finite? ==> NormalDigits(n.digits) }

  function ExponentOf(lit: Literal): int
    requires AllDigits(lit.expDigits)
  {
    if lit.expNeg then -(NatValue(lit.expDigits) as int) else NatValue(lit.expDigits)
  }

  /** The decimal a literal denotes, normalised: zeros trimmed on both ends and the point after the first digit. */
  function Exact(lit: Literal): (n: Number)
    requires lit.whole != "" && AllDigits(lit.whole) && AllDigits(lit.fraction) && AllDigits(lit.expDigits)
    ensures Normal(n) && !n.Infinite?
  {
    var all := lit.whole + lit.fraction;
    var k := LeadingZeros(all);
    var digits := TrimZeros(all[k..]);
    if digits == "" then Zero(lit.neg) else
      assert AllDigits(all) && digits[0] == all[k..][0] && AllDigits(all[k..][..|digits|]);
      Finite(lit.neg, digits, |lit.whole| - k - 1 + ExponentOf(lit))
  }

  // A number that converting once more leaves alone.
  ghost predicate Settled(f: Number -> Number, n: Number) { Normal(n) && f(n) == n }

  // Decimal to IEEE-754 conversion. Nothing is known about it except that it yields normal forms,
  // keeps zero, and that the shortest digits of a number read back as that number.
  ghost predicate IsRounding(f: Number -> Number) {
    f(Zero(false)) == Zero(false) && forall n {:trigger Settled(f, f(n))} :: Settled(f, f(n))
  }

  type Rounding = f: Number -> Number | IsRounding(f)
    ghost witness ((n: Number) => if Normal(n) then n else Zero(false))

  function ParseNumber(round: Rounding, s: string): (r: Result<Value>)
    ensures r.Ok? ==> |r.rest| < |s|
  {
    match ParseLiteral(s)
    case Err => Err
    case Ok(lit, rest) => Ok(Num(round(Exact(lit))), rest)
  }

  // ----- The serializer's layout -----

  function ExponentText(e: int): string {
    if e >= 0 then "+" + NatText(e) else "-" + NatText(-e)
  }

  function Layout(digits: string, exponent: int): string
    requires digits != ""
  {
    if -6 <= exponent < 21 then
      var point := exponent + 1;
      if point <= 0 then "0." + Zeros(-point) + digits
      else if point >= |digits| then digits + Zeros(point - |digits|)
      else digits[..point] + "." + digits[point..]
    else
      [digits[0]] + (if |digits| > 1 then "." + digits[1..] else "") + "e" + ExponentText(exponent)
  }

  function FormatNumber(n: Number): string {
    match n
    case Zero(_) => "0"
    case Infinite(_) => "null"
    case Finite(neg, digits, exponent) =>
      if digits == "" then "0" else (if neg then "-" else "") + Layout(digits, exponent)
  }

  // A text that cannot continue a number literal.
  predicate EndsNumber(rest: string) {
    rest != "" ==> !IsDigit(rest[0]) && rest[0] !in {'.', 'e', 'E'}
  }

  lemma {:induction false} TakeExactly(d: string, rest: string)
    requires AllDigits(d) && !StartsDigit(rest)
    ensures TakeDigits(d + rest) == d
  {
    if d == "" {
      assert d + rest == rest;
    } else {
      assert (d + rest)[1..] == d[1..] + rest;
      TakeExactly(d[1..], rest);
    }
  }

  lemma {:induction false} LeadingZerosOf(k: nat, d: string)
    requires d != "" && d[0] != '0'
    ensures LeadingZeros(Zeros(k) + d) == k
  {
    if k == 0 {
      assert Zeros(0) + d == d;
    } else {
      assert (Zeros(k) + d)[1..] == Zeros(k - 1) + d;
      LeadingZerosOf(k - 1, d);
    }
  }

  lemma {:induction false} TrimZerosOf(d: string, k: nat)
    requires d != "" && d[|d| - 1] != '0'
    ensures TrimZeros(d + Zeros(k)) == d
  {
    if k == 0 {
      assert d + Zeros(0) == d;
    } else {
      assert (d + Zeros(k))[..|d| + k - 1] == d + Zeros(k - 1);
      TrimZerosOf(d, k - 1);
    }
  }

  // A literal whose digits are zeros, then `d`, then zeros denotes `d` at the matching exponent.
  lemma ExactOf(lit: Literal, before: nat, d: string, after: nat)
    requires lit.whole != "" && AllDigits(lit.whole) && AllDigits(lit.fraction) && AllDigits(lit.expDigits)
    requires NormalDigits(d) && lit.whole + lit.fraction == Zeros(before) + d + Zeros(after)
    ensures Exact(lit) == Finite(lit.neg, d, |lit.whole| - before - 1 + ExponentOf(lit))
  {
    hide LeadingZeros, TrimZeros, NatValue;
    var all := lit.whole + lit.fraction;
    assert all == Zeros(before) + (d + Zeros(after));
    LeadingZerosOf(before, d + Zeros(after));
    assert all[before..] == d + Zeros(after);
    TrimZerosOf(d, after);
  }

  // The literal each branch of the layout spells.
  function LaidOut(neg: bool, digits: string, exponent: int): Literal
    requires digits != ""
  {
    var point := exponent + 1;
    if -6 <= exponent < 21 then
      if point <= 0 then Literal(neg, "0", Zeros(-point) + digits, false, "")
      else if point >= |digits| then Literal(neg, digits + Zeros(point - |digits|), "", false, "")
      else Literal(neg, digits[..point], digits[point..], false, "")
    else Literal(neg, digits[..1], digits[1..], exponent < 0, NatText(if exponent < 0 then -exponent else exponent))
  }

  // A literal spelled out in front of `rest`.
  function Spell(lit: Literal, rest: string): string {
    (if lit.neg then "-" else "") + (lit.whole + SpellFraction(lit, SpellExponent(lit, rest)))
  }

  function SpellFraction(lit: Literal, tail: string): string {
    if lit.fraction == "" then tail else "." + (lit.fraction + tail)
  }

  function SpellExponent(lit: Literal, rest: string): string {
    if lit.expDigits == "" then rest else (if lit.expNeg then "e-" else "e+") + (lit.expDigits + rest)
  }

  predicate WellSpelled(lit: Literal) {
    && lit.whole != "" && AllDigits(lit.whole) && AllDigits(lit.fraction) && AllDigits(lit.expDigits)
    && (lit.whole[0] == '0' ==> lit.whole == "0")
    && (lit.expDigits == "" ==> !lit.expNeg)
  }

  lemma SpelledWhole(whole: string, tail: string)
    requires whole != "" && AllDigits(whole) && (whole[0] == '0' ==> whole == "0") && !StartsDigit(tail)
    ensures ParseWhole(whole + tail) == Ok(whole, tail)
  {
    TakeExactly(whole, tail);
    assert (whole + tail)[|whole|..] == tail;
  }

  lemma SpelledFraction(lit: Literal, tail: string)
    requires AllDigits(lit.fraction) && !StartsDigit(tail) && !Starts(tail, '.')
    ensures ParseFraction(SpellFraction(lit, tail)) == Ok(lit.fraction, tail)
  {
    if lit.fraction != "" {
      assert SpellFraction(lit, tail)[1..] == lit.fraction + tail;
      TakeExactly(lit.fraction, tail);
      assert (lit.fraction + tail)[|lit.fraction|..] == tail;
    }
  }

  lemma SpelledExponent(lit: Literal, rest: string)
    requires AllDigits(lit.expDigits) && EndsNumber(rest) && (lit.expDigits == "" ==> !lit.expNeg)
    ensures ParseExponent(SpellExponent(lit, rest)) == Ok((lit.expNeg, lit.expDigits), rest)
  {
    hide TakeDigits, NatValue, AllDigits;
    if lit.expDigits != "" {
      var text := lit.expDigits + rest;
      var s := (if lit.expNeg then "e-" else "e+") + text;
      assert s == SpellExponent(lit, rest) && s[0] == 'e' && s[1] == if lit.expNeg then '-' else '+';
      assert s[2..] == text;
      TakeExactly(lit.expDigits, rest);
      assert text[|lit.expDigits|..] == rest;
    }
  }

  lemma SpelledReadsBack(lit: Literal, rest: string)
    requires WellSpelled(lit) && EndsNumber(rest)
    ensures ParseLiteral(Spell(lit, rest)) == Ok(lit, rest)
  {
    var tail := SpellFraction(lit, SpellExponent(lit, rest));
    var s := Spell(lit, rest);
    assert Starts(s, '-') == lit.neg by { assert s[0] == if lit.neg then '-' else lit.whole[0]; }
    assert (if lit.neg then s[1..] else s) == lit.whole + tail;
    SpelledWhole(lit.whole, tail);
    SpelledFraction(lit, SpellExponent(lit, rest));
    SpelledExponent(lit, rest);
  }

  /** Every layout is accepted by the number grammar and denotes exactly its digits at its exponent. */
  lemma LayoutReadsBack(neg: bool, digits: string, exponent: int, rest: string)
    requires NormalDigits(digits) && EndsNumber(rest)
    ensures ParseLiteral((if neg then "-" else "") + Layout(digits, exponent) + rest) == Ok(LaidOut(neg, digits, exponent), rest)
    ensures Exact(LaidOut(neg, digits, exponent)) == Finite(neg, digits, exponent)
  {
    LaidOutIsWellSpelled(neg, digits, exponent);
    LayoutSpells(neg, digits, exponent, rest);
    SpelledReadsBack(LaidOut(neg, digits, exponent), rest);
    LaidOutDigits(neg, digits, exponent);
  }

  lemma LaidOutIsWellSpelled(neg: bool, digits: string, exponent: int)
    requires NormalDigits(digits)
    ensures WellSpelled(LaidOut(neg, digits, exponent))
  {
    var whole := LaidOut(neg, digits, exponent).whole;
    if whole != "0" { assert whole[0] == digits[0]; }
  }

  lemma LayoutSpells(neg: bool, digits: string, exponent: int, rest: string)
    requires NormalDigits(digits)
    ensures (if neg then "-" else "") + Layout(digits, exponent) + rest == Spell(LaidOut(neg, digits, exponent), rest)
  {
    var sign, text := if neg then "-" else "", Layout(digits, exponent);
    assert sign + text + rest == sign + (text + rest);
    if -6 <= exponent < 21 {
      FixedSpells(neg, digits, exponent, rest);
    } else {
      ScientificSpells(neg, digits, exponent, rest);
    }
  }

  lemma FixedSpells(neg: bool, digits: string, exponent: int, rest: string)
    requires NormalDigits(digits) && -6 <= exponent < 21
    ensures var lit := LaidOut(neg, digits, exponent);
            Layout(digits, exponent) + rest == lit.whole + SpellFraction(lit, SpellExponent(lit, rest))
  {
    var point := exponent + 1;
    if point <= 0 {
      var fraction := Zeros(-point) + digits;
      assert "0." + Zeros(-point) + digits + rest == "0" + ("." + (fraction + rest));
    } else if point < |digits| {
      assert digits[..point] + "." + digits[point..] + rest == digits[..point] + ("." + (digits[point..] + rest));
    }
  }

  lemma ScientificSpells(neg: bool, digits: string, exponent: int, rest: string)
    requires NormalDigits(digits) && !(-6 <= exponent < 21)
    ensures var lit := LaidOut(neg, digits, exponent);
            Layout(digits, exponent) + rest == lit.whole + SpellFraction(lit, SpellExponent(lit, rest))
  {
    var lit := LaidOut(neg, digits, exponent);
    SpelledScientific(lit, digits, rest);
  }

  lemma SpelledScientific(lit: Literal, digits: string, rest: string)
    requires digits != "" && lit.fraction == digits[1..] && lit.expDigits != ""
    ensures [digits[0]] + (if |digits| > 1 then "." + digits[1..] else "") + "e" + ((if lit.expNeg then "-" else "+") + lit.expDigits) + rest
            == digits[..1] + SpellFraction(lit, SpellExponent(lit, rest))
  {
    var sign := if lit.expNeg then "-" else "+";
    var tail := SpellExponent(lit, rest);
    assert tail == ("e" + sign) + (lit.expDigits + rest) by { assert "e" + sign == if lit.expNeg then "e-" else "e+"; }
    var fraction := if |digits| > 1 then "." + digits[1..] else "";
    assert SpellFraction(lit, tail) == fraction + tail by { Regroup3(".", digits[1..], tail); }
    Regroup(digits[..1], fraction, "e", sign, lit.expDigits, rest);
    assert [digits[0]] == digits[..1];
  }

  lemma Regroup(a: string, b: string, c: string, d: string, e: string, f: string)
    ensures a + b + c + (d + e) + f == a + (b + ((c + d) + (e + f)))
  {
  }

  lemma Regroup3(a: string, b: string, c: string)
    ensures (a + b) + c == a + (b + c)
  {
  }

  lemma LaidOutDigits(neg: bool, digits: string, exponent: int)
    requires NormalDigits(digits)
    ensures var lit := LaidOut(neg, digits, exponent);
            AllDigits(lit.whole) && AllDigits(lit.fraction) && AllDigits(lit.expDigits) && lit.whole != ""
            && Exact(lit) == Finite(neg, digits, exponent)
  {
    hide Exact, NatText, NatValue, LeadingZeros, TrimZeros;
    var lit := LaidOut(neg, digits, exponent);
    LaidOutIsWellSpelled(neg, digits, exponent);
    LaidOutExponent(neg, digits, exponent);
    var before := if -6 <= exponent < 0 then -exponent else 0;
    var after := if 0 <= exponent < 21 && exponent + 1 >= |digits| then exponent + 1 - |digits| else 0;
    PaddedDigits(neg, digits, exponent, before, after);
    ExactOf(lit, before, digits, after);
  }

  lemma LaidOutExponent(neg: bool, digits: string, exponent: int)
    requires digits != ""
    ensures var lit := LaidOut(neg, digits, exponent);
            AllDigits(lit.expDigits) && ExponentOf(lit) == if -6 <= exponent < 21 then 0 else exponent
  {
  }

  // The layout only pads the digits with zeros.
  lemma PaddedDigits(neg: bool, digits: string, exponent: int, before: nat, after: nat)
    requires digits != ""
    requires before == if -6 <= exponent < 0 then -exponent else 0
    requires after == if 0 <= exponent < 21 && exponent + 1 >= |digits| then exponent + 1 - |digits| else 0
    ensures LaidOut(neg, digits, exponent).whole + LaidOut(neg, digits, exponent).fraction == Zeros(before) + digits + Zeros(after)
  {
    if before > 0 {
      assert "0" + (Zeros(before - 1) + digits) == Zeros(before) + digits + Zeros(0);
    } else {
      assert Zeros(0) + digits + Zeros(after) == digits + Zeros(after);
      assert digits + Zeros(0) == digits;
    }
  }

  // ----- The form ECMA-262 section 6.1.6.1.20 asks for -----

  datatype Form = Integer | Mixed | LeadingZeroFraction | Exponential

  // The standard's cases: k digits, and the number is 0.digits times ten to the n.
  function EcmaForm(k: nat, n: int): Form {
    if k <= n <= 21 then Integer
    else if 0 < n <= 21 then Mixed
    else if -6 < n <= 0 then LeadingZeroFraction
    else Exponential
  }

  function FormOf(lit: Literal): Form {
    if lit.expDigits != "" then Exponential
    else if lit.fraction == "" then Integer
    else if lit.whole == "0" then LeadingZeroFraction
    else Mixed
  }

  /** The layout picks the form the standard requires. */
  lemma LayoutIsEcma(neg: bool, digits: string, exponent: int)
    requires NormalDigits(digits)
    ensures FormOf(LaidOut(neg, digits, exponent)) == EcmaForm(|digits|, exponent + 1)
  {
    if 0 < exponent + 1 < |digits| && -6 <= exponent < 21 { assert LaidOut(neg, digits, exponent).whole[0] == digits[0]; }
  }

  // ----- The decimal is the number the literal spells -----

  function Pow10(k: nat): nat { if k == 0 then 1 else 10 * Pow10(k - 1) }

  lemma {:induction false} ValueOfZerosBefore(k: nat, s: string)
    requires AllDigits(s)
    ensures AllDigits(Zeros(k) + s) && NatValue(Zeros(k) + s) == NatValue(s)
  {
    if s == "" {
      assert Zeros(k) + s == Zeros(k);
      if k > 0 {
        assert Zeros(k)[..k - 1] == Zeros(k - 1) == Zeros(k - 1) + "";
        ValueOfZerosBefore(k - 1, "");
      }
    } else {
      var t := Zeros(k) + s;
      assert t[..|t| - 1] == Zeros(k) + s[..|s| - 1];
      ValueOfZerosBefore(k, s[..|s| - 1]);
    }
  }

  lemma {:induction false} ValueOfZerosAfter(s: string, k: nat)
    requires AllDigits(s)
    ensures AllDigits(s + Zeros(k)) && NatValue(s + Zeros(k)) == NatValue(s) * Pow10(k)
  {
    if k == 0 {
      assert s + Zeros(0) == s;
    } else {
      var t := s + Zeros(k);
      assert t[..|t| - 1] == s + Zeros(k - 1);
      ValueOfZerosAfter(s, k - 1);
      assert NatValue(t) == NatValue(s) * Pow10(k - 1) * 10;
    }
  }

  /**
   Normalising keeps the value: with t trailing zeros dropped, the literal's digits are the normal
   digits times ten to the t, and the scale of the last digit moves by exactly t.
   */
  lemma ExactDenotesLiteral(lit: Literal) returns (t: nat)
    requires lit.whole != "" && AllDigits(lit.whole) && AllDigits(lit.fraction) && AllDigits(lit.expDigits)
    ensures AllDigits(lit.whole + lit.fraction)
    ensures Exact(lit).Zero? <==> NatValue(lit.whole + lit.fraction) == 0
    ensures Exact(lit).Finite? ==>
              && NatValue(lit.whole + lit.fraction) == NatValue(Exact(lit).digits) * Pow10(t)
              && ExponentOf(lit) - |lit.fraction| + t == Exact(lit).exponent - |Exact(lit).digits| + 1
  {
    var all := lit.whole + lit.fraction;
    var k := LeadingZeros(all);
    var digits := TrimZeros(all[k..]);
    t := |all| - k - |digits|;
    DigitsSplit(all, k, digits, t);
    if digits != "" { PositiveValue(digits, t); }
  }

  lemma DigitsSplit(all: string, k: nat, digits: string, t: nat)
    requires AllDigits(all) && k + |digits| + t == |all| && AllDigits(digits)
    requires all[..k] == Zeros(k) && all[k..] == digits + Zeros(t)
    ensures NatValue(all) == NatValue(digits) * Pow10(t)
  {
    ValueOfZerosAfter(digits, t);
    ValueOfZerosBefore(k, all[k..]);
    assert all == all[..k] + all[k..];
  }

  lemma PositiveValue(d: string, t: nat)
    requires d != "" && AllDigits(d) && d[|d| - 1] != '0'
    ensures NatValue(d) * Pow10(t) > 0
  {
    PositivePower(t);
    assert NatValue(d) >= DigitValue(d[|d| - 1]) > 0;
  }

  lemma PositivePower(k: nat)
    ensures Pow10(k) > 0
  {
  }
}
