/** Models of JavaScript's `parseInt` (radix 10), `parseFloat` and `Number.prototype.toString`.
    `None` stands for NaN. */
module Numbers {
  import opened Types
  import opened Text

  predicate IsDigit(c: char)
  {
    '0' <= c <= '9'
  }

  ghost predicate AllDigits(s: string)
  {
    forall i :: 0 <= i < |s| ==> IsDigit(s[i])
  }

  function DigitValue(c: char): nat
    requires IsDigit(c)
  {
    c as int - '0' as int
  }

  function DigitChar(d: nat): char
    requires d < 10
  {
    ('0' as int + d) as char
  }

  /** The length of the longest prefix made of decimal digits. */
  function DigitRun(s: string): (n: nat)
    ensures n <= |s| && AllDigits(s[..n])
    ensures n < |s| ==> !IsDigit(s[n])
  {
    if s != [] && IsDigit(s[0]) then
      var n := 1 + DigitRun(s[1..]);
      assert s[..n] == [s[0]] + s[1..][..n - 1];
      n
    else 0
  }

  /** The number a string of decimal digits denotes (most significant digit first). */
  function DigitsValue(d: string): nat
    requires AllDigits(d)
  {
    if d == [] then 0 else 10 * DigitsValue(d[..|d| - 1]) + DigitValue(d[|d| - 1])
  }

  function Pow10(e: nat): (p: nat)
    ensures p >= 1
  {
    if e == 0 then 1 else 10 * Pow10(e - 1)
  }

  /** `m` with its decimal point moved `e` places to the right (left when `e` is negative), one
      place at a time: `m * 10^e`. */
  function Shift(m: real, e: int): real
    decreases if e < 0 then -e else e
  {
    if e == 0 then m
    else if e > 0 then 10.0 * Shift(m, e - 1)
    else Shift(m, e + 1) / 10.0
  }

  /** An optional leading sign: whether it is '-', and the text after it. */
  function SplitSign(s: string): (bool, string)
  {
    if s != [] && (s[0] == '-' || s[0] == '+') then (s[0] == '-', s[1..]) else (false, s)
  }

  /** `parseInt(s)`: leading white space and one sign are skipped, then the longest run of
      decimal digits is read and the rest ignored; no digit at all gives NaN. */
  function ParseInt(s: string): Option<int>
  {
    var signed := SplitSign(TrimStart(s));
    var body := signed.1;
    var n := DigitRun(body);
    if n == 0 then None
    else
      var magnitude: int := DigitsValue(body[..n]);
      Some(if signed.0 then -magnitude else magnitude)
  }

  /** The exponent part of a decimal literal: 'e' or 'E', an optional sign and at least one
      digit; anything else is no exponent. */
  function Exponent(s: string): int
  {
    if s != [] && (s[0] == 'e' || s[0] == 'E') then
      var signed := SplitSign(s[1..]);
      var n := DigitRun(signed.1);
      if n == 0 then 0
      else if signed.0 then -(DigitsValue(signed.1[..n]) as int) else DigitsValue(signed.1[..n])
    else 0
  }

  /** `parseFloat(s)`: leading white space and one sign are skipped, then the longest prefix of
      the form `digits [. digits] [exponent]` or `. digits [exponent]` is read and the rest
      ignored; a prefix with no digit before the exponent gives NaN. */
  function ParseFloat(s: string): Option<real>
  {
    var signed := SplitSign(TrimStart(s));
    match ParseUnsignedFloat(signed.1)
    case None => None
    case Some(magnitude) => Some(if signed.0 then -magnitude else magnitude)
  }

  /** The unsigned decimal literal at the start of `body`. */
  function ParseUnsignedFloat(body: string): Option<real>
  {
    var n := DigitRun(body);
    var rest := body[n..];
    if rest != [] && rest[0] == '.' then PointLiteral(body[..n], rest[1..])
    else if n == 0 then None
    else Some(Shift(DigitsValue(body[..n]) as real, Exponent(rest)))
  }

  /** The literal `whole . fraction [exponent]`, given the digits before the point and the text
      after it; it needs a digit on one side of the point. */
  function PointLiteral(whole: string, afterPoint: string): Option<real>
    requires AllDigits(whole)
  {
    var f := DigitRun(afterPoint);
    if |whole| == 0 && f == 0 then None
    else
      var fraction := afterPoint[..f];
      var mantissa := DigitsValue(whole) as real + Shift(DigitsValue(fraction) as real, -(f as int));
      Some(Shift(mantissa, Exponent(afterPoint[f..])))
  }

  /** The decimal digits of a natural number, without leading zeros. */
  function NatToString(n: nat): (s: string)
    ensures s != [] && IsDigit(s[0])
  {
    if n < 10 then [DigitChar(n)] else NatToString(n / 10) + [DigitChar(n % 10)]
  }

  /** Magnitudes from 10^21 up are printed by `toString` in exponent form. */
  const PlainLimit: nat := Pow10(21)

  /** A positive number as its significant part and its count of trailing decimal zeros. */
  function StripZeros(n: nat): (r: (nat, nat))
    requires n > 0
    ensures r.0 > 0 && r.0 % 10 != 0
    ensures r.0 * Pow10(r.1) == n
  {
    if n % 10 == 0 then
      var t := StripZeros(n / 10);
      assert t.0 * Pow10(t.1 + 1) == 10 * (t.0 * Pow10(t.1));
      (t.0, t.1 + 1)
    else (n, 0)
  }

  /** The exponent form of a positive whole number: the first significant digit, the others after
      a point when there are any, then `e+` and the exponent, as in "1e+21" or "1.5e+22". */
  function ExponentForm(n: nat): string
    requires n > 0
  {
    var t := StripZeros(n);
    var significant := NatToString(t.0);
    var point := if |significant| > 1 then "." + significant[1..] else "";
    [significant[0]] + point + "e+" + NatToString(|significant| - 1 + t.1)
  }

  /** The text `toString` gives for a whole magnitude. */
  function MagnitudeToString(n: nat): string
  {
    if n < PlainLimit then NatToString(n) else ExponentForm(n)
  }

  /** `i.toString()` for an integer. */
  function IntToString(i: int): string
  {
    if i < 0 then "-" + MagnitudeToString(-i) else MagnitudeToString(i)
  }

  /** The number of fractional digits printed for a number that is not whole. */
  const FractionDigitsShown: nat := 20

  /** The digits of a fraction in [0, 1), at most `count` of them, stopping once the rest is 0. */
  function FractionDigits(f: real, count: nat): string
    requires 0.0 <= f < 1.0
    decreases count
  {
    if count == 0 || f == 0.0 then ""
    else
      var d := (f * 10.0).Floor;
      [DigitChar(d)] + FractionDigits(f * 10.0 - d as real, count - 1)
  }

  /** `x.toString()` for a number: whole numbers print as integers do. */
  function NumberToString(x: real): string
  {
    var magnitude := if x < 0.0 then -x else x;
    var whole := magnitude.Floor;
    var digits :=
      if magnitude == whole as real then MagnitudeToString(whole)
      else NatToString(whole) + "." + FractionDigits(magnitude - whole as real, FractionDigitsShown);
    if x < 0.0 then "-" + digits else digits
  }

  /** The digits printed for `n` are digits and denote `n`. */
  lemma {:induction false} NatToStringValue(n: nat)
    ensures AllDigits(NatToString(n)) && DigitsValue(NatToString(n)) == n
  {
    if n >= 10 {
      NatToStringValue(n / 10);
      var s := NatToString(n);
      assert s[..|s| - 1] == NatToString(n / 10);
    }
  }

  /** A string of digits is read back in full by the digit scan. */
  lemma DigitRunAll(s: string)
    requires AllDigits(s)
    ensures DigitRun(s) == |s|
  {
  }

  /** An optional minus sign followed by digits passes the white-space and sign scan intact. */
  lemma SplitSignOfSignedDigits(sign: string, digits: string)
    requires sign == "" || sign == "-"
    requires digits != [] && IsDigit(digits[0])
    ensures SplitSign(TrimStart(sign + digits)) == (sign == "-", digits)
  {
    var text := sign + digits;
    assert text[0] == if sign == "" then digits[0] else '-';
    assert sign == "-" ==> text[1..] == digits;
  }

  /** `parseInt` reads an optionally signed run of digits as the integer it denotes. */
  lemma ParseIntOfSignedDigits(sign: string, digits: string)
    requires sign == "" || sign == "-"
    requires digits != [] && AllDigits(digits)
    ensures ParseInt(sign + digits) == Some(if sign == "-" then -(DigitsValue(digits) as int) else DigitsValue(digits))
  {
    var text := sign + digits;
    SplitSignOfSignedDigits(sign, digits);
    var signed := SplitSign(TrimStart(text));
    assert signed.1 == digits;
    DigitRunAll(digits);
    assert DigitRun(signed.1) == |digits|;
    assert signed.1[..|digits|] == digits;
  }

  /** `parseFloat` reads an optionally signed run of digits as the whole number it denotes. */
  lemma ParseFloatOfSignedDigits(sign: string, digits: string, v: real)
    requires sign == "" || sign == "-"
    requires digits != [] && AllDigits(digits) && v == DigitsValue(digits) as real
    ensures ParseFloat(sign + digits) == Some(if sign == "-" then -v else v)
  {
    SplitSignOfSignedDigits(sign, digits);
    UnsignedFloatOfDigits(digits);
    ParseFloatOfParts(sign + digits, sign == "-", digits, v);
  }

  /** `parseFloat` is the sign applied to the unsigned literal after the white space. */
  lemma ParseFloatOfParts(text: string, negative: bool, body: string, v: real)
    requires SplitSign(TrimStart(text)) == (negative, body)
    requires ParseUnsignedFloat(body) == Some(v)
    ensures ParseFloat(text) == Some(if negative then -v else v)
  {
  }

  /** A bare run of digits, with no point and no exponent, is read as a whole number. */
  lemma UnsignedFloatOfDigits(digits: string)
    requires digits != [] && AllDigits(digits)
    ensures ParseUnsignedFloat(digits) == Some(DigitsValue(digits) as real)
  {
    DigitRunAll(digits);
    assert digits[..|digits|] == digits;
    assert digits[|digits|..] == [];
    assert Exponent([]) == 0;
  }

  /** The digit scan stops where the digits end. */
  lemma {:induction false} DigitRunUpTo(digits: string, rest: string)
    requires AllDigits(digits)
    requires rest == [] || !IsDigit(rest[0])
    ensures DigitRun(digits + rest) == |digits|
  {
    if digits == [] {
      assert digits + rest == rest;
    } else {
      assert (digits + rest)[0] == digits[0];
      assert (digits + rest)[1..] == digits[1..] + rest;
      DigitRunUpTo(digits[1..], rest);
    }
  }

  /** The value of concatenated digit strings: the first part shifted by the second's length. */
  lemma {:induction false} DigitsValueConcat(a: string, b: string)
    requires AllDigits(a) && AllDigits(b)
    ensures AllDigits(a + b) && DigitsValue(a + b) == DigitsValue(a) * Pow10(|b|) + DigitsValue(b)
  {
    if b == [] {
      assert a + b == a;
    } else {
      var front := b[..|b| - 1];
      DigitsValueConcat(a, front);
      assert (a + b)[..|a + b| - 1] == a + front;
      assert (a + b)[|a + b| - 1] == b[|b| - 1];
      assert DigitsValue(a) * Pow10(|b|) == 10 * (DigitsValue(a) * Pow10(|front|));
    }
  }

  lemma {:induction false} Pow10Add(a: nat, b: nat)
    ensures Pow10(a + b) == Pow10(a) * Pow10(b)
  {
    if a > 0 {
      Pow10Add(a - 1, b);
    }
  }

  /** The first digit of a positive number is not 0. */
  lemma {:induction false} NatToStringLeading(n: nat)
    requires n > 0
    ensures NatToString(n)[0] != '0'
  {
    if n >= 10 {
      NatToStringLeading(n / 10);
    }
  }

  /** The exponent part `e+` followed by the digits of `e` denotes `e`. */
  lemma ExponentOfDigits(e: nat)
    ensures Exponent("e+" + NatToString(e)) == e
  {
    var digits := NatToString(e);
    NatToStringValue(e);
    var text := "e+" + digits;
    assert text[1..] == "+" + digits;
    assert ("+" + digits)[1..] == digits;
    DigitRunAll(digits);
    assert digits[..|digits|] == digits;
  }

  /** The pieces of the exponent form of `n`: what follows the first digit starts with a point or
      with the exponent, so the digit scan reads exactly one digit, and it is not 0. */
  lemma ExponentFormLeading(n: nat)
    requires n > 0
    ensures var text := ExponentForm(n);
      && |text| > 1 && IsDigit(text[0]) && text[0] != '0' && !IsDigit(text[1])
      && DigitRun(text) == 1
  {
    var t := StripZeros(n);
    var significant := NatToString(t.0);
    NatToStringLeading(t.0);
    var text := ExponentForm(n);
    assert text[0] == significant[0];
    assert text[1] == '.' || text[1] == 'e';
    assert text == [text[0]] + text[1..];
    DigitRunUpTo([text[0]], text[1..]);
  }

  /** Moving the point right by `e` places multiplies a whole number by 10^e. */
  lemma {:induction false} ShiftUp(k: nat, e: nat)
    ensures Shift(k as real, e) == (k * Pow10(e)) as real
  {
    if e > 0 {
      ShiftUp(k, e - 1);
      assert k * Pow10(e) == 10 * (k * Pow10(e - 1));
    }
  }

  /** Moving the point distributes over a sum. */
  lemma {:induction false} ShiftSum(x: real, y: real, e: int)
    ensures Shift(x + y, e) == Shift(x, e) + Shift(y, e)
    decreases if e < 0 then -e else e
  {
    if e > 0 {
      ShiftSum(x, y, e - 1);
    } else if e < 0 {
      ShiftSum(x, y, e + 1);
    }
  }

  /** Two moves of the point are one move by their sum. */
  lemma {:induction false} ShiftShift(m: real, a: int, b: int)
    ensures Shift(Shift(m, a), b) == Shift(m, a + b)
    decreases if b < 0 then -b else b
  {
    if b > 0 {
      ShiftShift(m, a, b - 1);
      if a + b - 1 < 0 {
        assert Shift(m, a + b - 1) == Shift(m, a + b) / 10.0;
      }
    } else if b < 0 {
      ShiftShift(m, a, b + 1);
      if a + b + 1 > 0 {
        assert Shift(m, a + b + 1) == 10.0 * Shift(m, a + b);
      }
    }
  }

  /** The literal is digits followed by something other than a point: the digits' value with the
      point moved by the exponent. */
  lemma UnsignedFloatOfWhole(text: string, n: nat, e: int)
    requires 0 < n <= |text| && DigitRun(text) == n
    requires n == |text| || text[n] != '.'
    requires Exponent(text[n..]) == e
    ensures ParseUnsignedFloat(text) == Some(Shift(DigitsValue(text[..n]) as real, e))
  {
  }

  /** `parseFloat` of one digit followed by `e+` and an exponent. */
  lemma UnsignedFloatOfDigitExponent(text: string, first: string, e: nat)
    requires |first| == 1 && AllDigits(first)
    requires text == first + "e+" + NatToString(e)
    ensures ParseUnsignedFloat(text) == Some(Shift(DigitsValue(first) as real, e))
  {
    var tail := "e+" + NatToString(e);
    assert text == first + tail;
    DigitRunUpTo(first, tail);
    assert text[..1] == first;
    assert text[1..] == tail;
    ExponentOfDigits(e);
    UnsignedFloatOfWhole(text, 1, e);
  }

  /** The literal is digits, a point and more digits, then a tail that starts with no digit: the
      whole part plus the fraction, with the point moved by the tail's exponent. */
  lemma UnsignedFloatOfPoint(text: string, whole: string, fraction: string, tail: string, e: int)
    requires AllDigits(whole) && AllDigits(fraction) && (whole != [] || fraction != [])
    requires tail == [] || !IsDigit(tail[0])
    requires text == whole + "." + fraction + tail && Exponent(tail) == e
    ensures ParseUnsignedFloat(text)
         == Some(Shift(DigitsValue(whole) as real + Shift(DigitsValue(fraction) as real, -|fraction|), e))
  {
    var afterPoint := fraction + tail;
    assert text == whole + ("." + afterPoint);
    DigitRunUpTo(whole, "." + afterPoint);
    assert text[..|whole|] == whole;
    assert text[|whole|..] == "." + afterPoint;
    assert ParseUnsignedFloat(text) == PointLiteral(whole, afterPoint);
    PointLiteralOf(whole, fraction, tail, e);
  }

  /** What follows the point: the fraction's digits, then the exponent. */
  lemma PointLiteralOf(whole: string, fraction: string, tail: string, e: int)
    requires AllDigits(whole) && AllDigits(fraction) && (whole != [] || fraction != [])
    requires tail == [] || !IsDigit(tail[0])
    requires Exponent(tail) == e
    ensures PointLiteral(whole, fraction + tail)
         == Some(Shift(DigitsValue(whole) as real + Shift(DigitsValue(fraction) as real, -|fraction|), e))
  {
    var afterPoint := fraction + tail;
    DigitRunUpTo(fraction, tail);
    assert afterPoint[..|fraction|] == fraction;
    assert afterPoint[|fraction|..] == tail;
  }

  /** `parseFloat` of one digit, a point, more digits, then `e+` and an exponent. */
  lemma UnsignedFloatOfPointExponent(text: string, first: string, fraction: string, e: nat)
    requires |first| == 1 && AllDigits(first) && AllDigits(fraction)
    requires text == first + "." + fraction + "e+" + NatToString(e)
    ensures ParseUnsignedFloat(text)
         == Some(Shift(DigitsValue(first) as real + Shift(DigitsValue(fraction) as real, -|fraction|), e))
  {
    var tail := "e+" + NatToString(e);
    assert text == first + "." + fraction + tail;
    ExponentOfDigits(e);
    UnsignedFloatOfPoint(text, first, fraction, tail, e);
  }

  lemma Distribute(d: int, r: int, a: int, b: int)
    ensures d * (a * b) + r * b == (d * a + r) * b
  {
  }

  /** The value of `d.r` (with `places` digits in `r`) with the point moved `places + z` places is
      the whole number `dr` followed by `z` zeros. */
  lemma ShiftSignificand(d: nat, r: nat, places: nat, z: nat)
    ensures Shift(d as real + Shift(r as real, -(places as int)), places + z) == ((d * Pow10(places) + r) * Pow10(z)) as real
  {
    ShiftSum(d as real, Shift(r as real, -(places as int)), places + z);
    ShiftShift(r as real, -(places as int), places + z);
    ShiftUp(d, places + z);
    ShiftUp(r, z);
    Pow10Add(places, z);
    Distribute(d, r, Pow10(places), Pow10(z));
  }

  /** The exponent form of `n` spelled out: a first digit, the other significant digits after a
      point when there are any, and the exponent; the digits read with the point moved by the
      exponent make `n`. */
  lemma ExponentFormShape(n: nat) returns (first: string, fraction: string, e: nat)
    requires n > 0
    ensures |first| == 1 && AllDigits(first) && AllDigits(fraction)
    ensures fraction == [] ==> ExponentForm(n) == first + "e+" + NatToString(e)
    ensures fraction == [] ==> Shift(DigitsValue(first) as real, e) == n as real
    ensures fraction != [] ==> ExponentForm(n) == first + "." + fraction + "e+" + NatToString(e)
    ensures fraction != [] ==>
      Shift(DigitsValue(first) as real + Shift(DigitsValue(fraction) as real, -|fraction|), e) == n as real
  {
    var t := StripZeros(n);
    var significant := NatToString(t.0);
    NatToStringValue(t.0);
    var places := |significant| - 1;
    e := places + t.1;
    first := significant[..1];
    fraction := significant[1..];
    assert significant == first + fraction;
    assert [significant[0]] == first;
    DigitsValueConcat(first, fraction);
    SignificandValue(DigitsValue(first), DigitsValue(fraction), places, t.1, n);
  }

  /** The value half of the exponent form: `d.r` with the point moved back makes `n`. */
  lemma SignificandValue(d: nat, r: nat, places: nat, z: nat, n: nat)
    requires (d * Pow10(places) + r) * Pow10(z) == n
    ensures places == 0 ==> r == 0 ==> Shift(d as real, places + z) == n as real
    ensures Shift(d as real + Shift(r as real, -(places as int)), places + z) == n as real
  {
    ShiftSignificand(d, r, places, z);
    if places == 0 && r == 0 {
      ShiftUp(d, z);
    }
  }

  /** `parseFloat` reads the exponent form of `n` back as `n`. */
  lemma UnsignedFloatOfExponentForm(n: nat)
    requires n > 0
    ensures ParseUnsignedFloat(ExponentForm(n)) == Some(n as real)
  {
    var first, fraction, e := ExponentFormShape(n);
    if fraction == [] {
      UnsignedFloatOfDigitExponent(ExponentForm(n), first, e);
    } else {
      UnsignedFloatOfPointExponent(ExponentForm(n), first, fraction, e);
    }
  }

  /** `parseInt` reads back what `toString` prints while it prints plain digits: below 10^21 in
      magnitude, `parseInt(i.toString()) == i`. */
  lemma ParseIntOfIntToString(i: int)
    requires -(PlainLimit as int) < i < PlainLimit
    ensures ParseInt(IntToString(i)) == Some(i)
  {
    var m: nat := if i < 0 then -i else i;
    var digits := NatToString(m);
    NatToStringValue(m);
    var sign := if i < 0 then "-" else "";
    assert IntToString(i) == sign + digits;
    ParseIntOfSignedDigits(sign, digits);
  }

  /** From 10^21 up in magnitude `toString` prints the exponent form, of which `parseInt` reads only
      the first digit: the result is a number from 1 to 9 with the sign of `i`, never `i` itself. */
  lemma ParseIntOfLargeIntToString(i: int)
    requires i <= -(PlainLimit as int) || PlainLimit <= i
    ensures ParseInt(IntToString(i)).Some?
    ensures var v := ParseInt(IntToString(i)).value;
      (if i < 0 then -v else v) in {1, 2, 3, 4, 5, 6, 7, 8, 9} && v != i
  {
    var m: nat := if i < 0 then -i else i;
    var text := ExponentForm(m);
    ExponentFormLeading(m);
    var sign := if i < 0 then "-" else "";
    assert IntToString(i) == sign + text;
    SplitSignOfSignedDigits(sign, text);
    assert text[..1] == [text[0]];
    assert DigitsValue([text[0]]) == DigitValue(text[0]) by {
      assert [text[0]][..0] == [];
    }
  }

  /** A whole number prints as the integer it is. */
  lemma NumberToStringOfWhole(x: real)
    requires x == x.Floor as real
    ensures NumberToString(x) == IntToString(x.Floor)
  {
    var magnitude := if x < 0.0 then -x else x;
    assert magnitude == (if x < 0.0 then -x.Floor else x.Floor) as real;
    assert magnitude.Floor == if x < 0.0 then -x.Floor else x.Floor;
  }

  /** `parseFloat` reads back every integer printed by `toString`, the exponent form included. */
  lemma ParseFloatOfIntToString(i: int)
    ensures ParseFloat(IntToString(i)) == Some(i as real)
  {
    var m: nat := if i < 0 then -i else i;
    var sign := if i < 0 then "-" else "";
    var text := MagnitudeToString(m);
    assert IntToString(i) == sign + text;
    UnsignedFloatOfMagnitude(m);
    SplitSignOfSignedDigits(sign, text);
    ParseFloatOfParts(sign + text, sign == "-", text, m as real);
  }

  /** Both forms `toString` prints for a whole magnitude start with a digit and read back as it. */
  lemma UnsignedFloatOfMagnitude(m: nat)
    ensures var text := MagnitudeToString(m);
      text != [] && IsDigit(text[0]) && ParseUnsignedFloat(text) == Some(m as real)
  {
    if m < PlainLimit {
      NatToStringValue(m);
      UnsignedFloatOfDigits(NatToString(m));
    } else {
      ExponentFormLeading(m);
      UnsignedFloatOfExponentForm(m);
    }
  }

  /** `parseFloat` reads back a whole number printed by `toString`. */
  lemma ParseFloatOfWhole(x: real)
    requires x == x.Floor as real
    ensures ParseFloat(NumberToString(x)) == Some(x)
  {
    NumberToStringOfWhole(x);
    ParseFloatOfIntToString(x.Floor);
  }
}
