/** The part of JavaScript's number semantics the lease helpers depend on:
    NaN, its propagation through arithmetic, and `parseFloat`. */
module JsNumber {
  import opened Outcomes
  import opened RealMath

  /** A JavaScript number: a finite value, held exactly as a real, or NaN. */
  datatype Num = Finite(value: real) | NaN

  function Add(a: Num, b: Num): (r: Num)
  {
    if a.Finite? && b.Finite? then Finite(a.value + b.value) else NaN
  }

  function Mul(a: Num, b: Num): (r: Num)
  {
    if a.Finite? && b.Finite? then Finite(a.value * b.value) else NaN
  }

  function DivBy(a: Num, d: real): (r: Num)
    requires d != 0.0
  {
    if a.Finite? then Finite(a.value / d) else NaN
  }

  /** `Math.pow(b, n)` for a natural exponent: a zero exponent gives 1 even
      when the base is NaN. */
  function PowNum(b: Num, n: nat): (r: Num)
    ensures n == 0 ==> r == Finite(1.0)
    ensures n > 0 ==> (r.NaN? <==> b.NaN?)
    ensures b.Finite? ==> r == Finite(Pow(b.value, n))
  {
    if n == 0 then Finite(1.0)
    else if b.NaN? then NaN
    else Finite(Pow(b.value, n))
  }

  /** The characters JavaScript counts as white space: those `parseFloat`
      skips and those the regular expression class `\s` matches. */
  predicate IsJsWhitespace(c: char)
    ensures IsJsWhitespace(c) ==> !IsDigit(c) && c != '.' && c != '-' && c != '+'
    ensures c == ' ' || c == '\t' || c == '\n' || c == '\r' || c == '\U{00A0}' || c == '\U{FEFF}' ==> IsJsWhitespace(c)
  {
    if c <= ' ' then c == ' ' || '\t' <= c <= '\r'
    else if c < '\U{00A0}' then false
    else
      || c == '\U{00A0}' || c == '\U{1680}'
      || ('\U{2000}' <= c <= '\U{200A}')
      || c == '\U{2028}' || c == '\U{2029}' || c == '\U{202F}' || c == '\U{205F}'
      || c == '\U{3000}' || c == '\U{FEFF}'
  }

  predicate IsDigit(c: char)
  {
    '0' <= c <= '9'
  }

  predicate AllDigits(s: string)
  {
    forall i :: 0 <= i < |s| ==> IsDigit(s[i])
  }

  function DigitValue(c: char): nat
    requires IsDigit(c)
  {
    c as int - '0' as int
  }

  function DigitChar(d: nat): (c: char)
    requires d < 10
    ensures IsDigit(c) && DigitValue(c) == d
  {
    ('0' as int + d) as char
  }

  /** The length of the longest prefix of s made of decimal digits. */
  function LeadingDigits(s: string): (k: nat)
    ensures k <= |s| && AllDigits(s[..k])
    ensures k < |s| ==> !IsDigit(s[k])
  {
    if s == [] || !IsDigit(s[0]) then 0
    else
      var k := 1 + LeadingDigits(s[1..]);
      assert s[..k] == [s[0]] + s[1..][..k - 1];
      k
  }

  /** The value of a string of decimal digits, most significant digit first. */
  function DigitsValue(s: string): nat
    requires AllDigits(s)
  {
    if s == [] then 0 else DigitsValue(s[..|s| - 1]) * 10 + DigitValue(s[|s| - 1])
  }

  function TrimLeadingWhitespace(s: string): (t: string)
    ensures |t| <= |s| && t == s[|s| - |t|..]
    ensures forall i :: 0 <= i < |s| - |t| ==> IsJsWhitespace(s[i])
    ensures t != [] ==> !IsJsWhitespace(t[0])
  {
    if s != [] && IsJsWhitespace(s[0]) then TrimLeadingWhitespace(s[1..]) else s
  }

  /** Skipping a run of white space then trimming is trimming. */
  lemma {:induction false} TrimWhitespacePrefix(w: string, t: string)
    requires forall i :: 0 <= i < |w| ==> IsJsWhitespace(w[i])
    ensures TrimLeadingWhitespace(w + t) == TrimLeadingWhitespace(t)
    decreases |w|
  {
    if w != [] {
      assert (w + t)[0] == w[0];
      assert (w + t)[1..] == w[1..] + t;
      TrimWhitespacePrefix(w[1..], t);
    } else {
      assert w + t == t;
    }
  }

  /** The exponent of the longest exponent part (`e` or `E`, an optional
      sign, at least one digit) at the start of s; 0 when there is none. */
  function ExponentPrefix(s: string): int
  {
    if s == [] || (s[0] != 'e' && s[0] != 'E') then 0
    else
      var signed := s[1..];
      var negative := signed != [] && signed[0] == '-';
      var digits := if signed != [] && (signed[0] == '-' || signed[0] == '+') then signed[1..] else signed;
      var k := LeadingDigits(digits);
      if k == 0 then 0
      else if negative then -(DigitsValue(digits[..k]) as int)
      else DigitsValue(digits[..k])
  }

  /** A mantissa scaled by ten to the exponent part: m · 10^e. */
  function Scaled(m: real, e: int): real
    decreases if e < 0 then -e else e
  {
    if e == 0 then m
    else if e > 0 then Scaled(m, e - 1) * 10.0
    else Scaled(m, e + 1) / 10.0
  }

  /** The value `0.<digits>` of the digits after a decimal point: the
      digits read as a whole number, scaled down by one place per digit. */
  function FractionValue(digits: string): real
    requires AllDigits(digits)
  {
    Scaled(DigitsValue(digits) as real, -|digits|)
  }

  /** A string of k digits is worth less than 10^k. */
  lemma {:induction false} DigitsValueBound(s: string)
    requires AllDigits(s)
    ensures DigitsValue(s) as real + 1.0 <= Pow(10.0, |s|)
    decreases |s|
  {
    if s != [] {
      var p := s[..|s| - 1];
      assert AllDigits(p) by {
        assert forall i :: 0 <= i < |p| ==> p[i] == s[i];
      }
      DigitsValueBound(p);
      assert DigitValue(s[|s| - 1]) <= 9;
      assert Pow(10.0, |s|) == 10.0 * Pow(10.0, |p|);
    }
  }

  /** Scaling down by k places divides by 10^k. */
  lemma {:induction false} ScaledDown(m: real, k: nat)
    ensures Pow(10.0, k) > 0.0 && Scaled(m, -(k as int)) == m / Pow(10.0, k)
    decreases k
  {
    PowPositive(10.0, k);
    if k > 0 {
      ScaledDown(m, k - 1);
      var p := Pow(10.0, k - 1);
      assert Pow(10.0, k) == 10.0 * p;
      assert Scaled(m, -(k as int)) == Scaled(m, -(k as int) + 1) / 10.0;
      assert m / p / 10.0 == m / (10.0 * p);
    }
  }

  /** Digits after a point are worth at least 0 and less than 1. */
  lemma FractionValueBounds(digits: string)
    requires AllDigits(digits)
    ensures 0.0 <= FractionValue(digits) < 1.0
  {
    var m := DigitsValue(digits) as real;
    var p := Pow(10.0, |digits|);
    ScaledDown(m, |digits|);
    DigitsValueBound(digits);
    FractionBelowOne(m, p);
  }

  /** A value below a positive bound divides by it to a fraction below one. */
  lemma FractionBelowOne(v: real, p: real)
    requires 0.0 <= v && v + 1.0 <= p
    ensures 0.0 <= v / p < 1.0
  {
    assert v / p * p == v;
  }

  /** Scaling keeps a non-negative mantissa non-negative. */
  lemma {:induction false} ScaledNonNegative(m: real, e: int)
    requires m >= 0.0
    ensures Scaled(m, e) >= 0.0
    decreases if e < 0 then -e else e
  {
    if e > 0 {
      ScaledNonNegative(m, e - 1);
    } else if e < 0 {
      ScaledNonNegative(m, e + 1);
    }
  }

  /** The fraction part (`.` and any digits) at the start of s: its value,
      the number of its digits, and what follows it. */
  function FractionPrefix(s: string): (r: (real, nat, string))
    ensures r.1 <= |s| && |r.2| <= |s|
  {
    if s != [] && s[0] == '.' then
      var k := LeadingDigits(s[1..]);
      (FractionValue(s[1..][..k]), k, s[1 + k..])
    else (0.0, 0, s)
  }

  /** The value of the longest prefix of s that is an unsigned decimal
      literal: digits, an optional fraction, an optional exponent, with at
      least one digit before the exponent. None when no such prefix exists. */
  function DecimalPrefix(s: string): Option<real>
  {
    var k := LeadingDigits(s);
    DecimalFrom(s[..k], s[k..])
  }

  /** The literal made of the integer digits and whatever fraction and
      exponent parts open rest; None when it has no digit at all. */
  function DecimalFrom(digits: string, rest: string): Option<real>
    requires AllDigits(digits)
  {
    var fraction := FractionPrefix(rest);
    if |digits| + fraction.1 == 0 then None
    else Some(Scaled(DigitsValue(digits) as real + fraction.0, ExponentPrefix(fraction.2)))
  }

  /** s opens with a digit, or with a point followed by a digit: the ways a
      decimal literal can begin. */
  predicate OpensNumeral(s: string)
  {
    s != [] && (IsDigit(s[0]) || (s[0] == '.' && |s| > 1 && IsDigit(s[1])))
  }

  /** t without its leading sign, if it has one. */
  function Unsigned(t: string): (u: string)
    ensures |u| <= |t|
  {
    if t != [] && (t[0] == '-' || t[0] == '+') then t[1..] else t
  }

  /** `parseFloat(s)`: skip leading white space, read an optional sign and
      the longest decimal prefix; NaN if there is none. */
  function ParseFloat(s: string): Num
  {
    var t := TrimLeadingWhitespace(s);
    var negative := t != [] && t[0] == '-';
    var body := if t != [] && (t[0] == '-' || t[0] == '+') then t[1..] else t;
    match DecimalPrefix(body)
    case None => NaN
    case Some(m) => Finite(if negative then -m else m)
  }

  /** An exponent part needs its `e` or `E` and a digit. */
  lemma ExponentNeedsMarker(s: string)
    ensures ExponentPrefix(s) != 0 ==> |s| >= 2 && (s[0] == 'e' || s[0] == 'E')
  {
  }

  /** The fraction part is worth less than one, is non-empty exactly when a
      point is followed by a digit, and leaves a suffix of its input. */
  lemma FractionPrefixBounds(s: string)
    ensures var (value, digits, after) := FractionPrefix(s);
            && 0.0 <= value < 1.0
            && (digits == 0 ==> value == 0.0)
            && (digits > 0 <==> |s| > 1 && s[0] == '.' && IsDigit(s[1]))
            && after == s[|s| - |after|..]
  {
    if s != [] && s[0] == '.' {
      FractionValueBounds(s[1..][..LeadingDigits(s[1..])]);
    }
  }

  /** A decimal prefix exists exactly when s opens a numeral. */
  lemma DecimalPrefixExists(s: string)
    ensures DecimalPrefix(s).None? <==> !OpensNumeral(s)
  {
    var k := LeadingDigits(s);
    FractionPrefixBounds(s[k..]);
    if k > 0 {
      assert s[..k][0] == s[0];
    } else {
      assert s[k..] == s;
    }
  }

  /** A decimal prefix is never negative. */
  lemma DecimalPrefixNonNegative(s: string)
    ensures DecimalPrefix(s).Some? ==> DecimalPrefix(s).value >= 0.0
  {
    var k := LeadingDigits(s);
    DecimalFromNonNegative(s[..k], s[k..]);
  }

  lemma DecimalFromNonNegative(digits: string, rest: string)
    requires AllDigits(digits)
    ensures DecimalFrom(digits, rest).Some? ==> DecimalFrom(digits, rest).value >= 0.0
  {
    var r := FractionPrefix(rest);
    FractionPrefixBounds(rest);
    ScaledNonNegative(DigitsValue(digits) as real + r.0, ExponentPrefix(r.2));
  }

  /** `parseFloat` gives NaN exactly when, past the white space and the
      sign, the text does not open a numeral; otherwise the value has the
      sign written. */
  lemma ParseFloatNaN(s: string)
    ensures ParseFloat(s).NaN? <==> !OpensNumeral(Unsigned(TrimLeadingWhitespace(s)))
    ensures var t := TrimLeadingWhitespace(s);
            ParseFloat(s).Finite? ==>
              if t[0] == '-' then ParseFloat(s).value <= 0.0 else ParseFloat(s).value >= 0.0
  {
    DecimalPrefixExists(Unsigned(TrimLeadingWhitespace(s)));
    DecimalPrefixNonNegative(Unsigned(TrimLeadingWhitespace(s)));
  }

  /** Leading white space does not change what `parseFloat` reads. */
  lemma ParseFloatSkipsWhitespace(w: string, t: string)
    requires forall i :: 0 <= i < |w| ==> IsJsWhitespace(w[i])
    ensures ParseFloat(w + t) == ParseFloat(t)
  {
    TrimWhitespacePrefix(w, t);
  }

  /** A minus sign before an unsigned literal negates what it reads. */
  lemma ParseFloatOfNegated(t: string)
    requires t == [] || (!IsJsWhitespace(t[0]) && t[0] != '-' && t[0] != '+')
    ensures ParseFloat("-" + t) == (if ParseFloat(t).NaN? then NaN else Finite(-ParseFloat(t).value))
  {
    var s := "-" + t;
    assert s[0] == '-' && !IsJsWhitespace(s[0]);
    assert s[1..] == t;
    assert TrimLeadingWhitespace(t) == t;
  }

  /** The decimal rendering of a natural number, as a lease label writes it. */
  function NatDigits(n: nat): (s: string)
    ensures s != [] && AllDigits(s)
  {
    if n < 10 then [DigitChar(n)] else NatDigits(n / 10) + [DigitChar(n % 10)]
  }

  lemma {:induction false} DigitsValueOfNatDigits(n: nat)
    ensures DigitsValue(NatDigits(n)) == n
  {
    if n >= 10 {
      var s := NatDigits(n);
      assert s[..|s| - 1] == NatDigits(n / 10);
      DigitsValueOfNatDigits(n / 10);
    }
  }

  lemma {:induction false} LeadingDigitsOfConcat(d: string, t: string)
    requires AllDigits(d)
    ensures LeadingDigits(d + t) == |d| + LeadingDigits(t)
  {
    if d != [] {
      assert (d + t)[1..] == d[1..] + t;
      LeadingDigitsOfConcat(d[1..], t);
    } else {
      assert d + t == t;
    }
  }

  /** A number written in decimal and followed by anything that cannot
      continue a numeric literal (such as `%`) parses back to that number. */
  lemma ParseFloatOfNatLabel(n: nat, suffix: string)
    requires suffix == [] || (!IsDigit(suffix[0]) && suffix[0] !in ".eE")
    ensures ParseFloat(NatDigits(n) + suffix) == Finite(n as real)
  {
    var d := NatDigits(n);
    var s := d + suffix;
    DecimalPrefixOfDigits(d, suffix);
    DigitsValueOfNatDigits(n);
    assert s[0] == d[0] && IsDigit(s[0]);
    assert !IsJsWhitespace(s[0]);
    assert TrimLeadingWhitespace(s) == s;
    assert s[0] != '-' && s[0] != '+';
  }

  lemma DecimalPrefixOfDigits(d: string, suffix: string)
    requires d != [] && AllDigits(d)
    requires suffix == [] || (!IsDigit(suffix[0]) && suffix[0] !in ".eE")
    ensures DecimalPrefix(d + suffix) == Some(DigitsValue(d) as real)
  {
    DecimalPrefixAfterDigits(d, suffix);
    assert FractionPrefix(suffix) == (0.0, 0, suffix);
    ExponentOfNonExponent(suffix);
  }

  /** Digits, a decimal point and more digits, followed by anything that
      cannot continue the literal, parse to the decimal fraction they write. */
  lemma DecimalPrefixOfFraction(d: string, f: string, suffix: string)
    requires d != [] && AllDigits(d) && AllDigits(f)
    requires suffix == [] || (!IsDigit(suffix[0]) && suffix[0] != 'e' && suffix[0] != 'E')
    ensures DecimalPrefix(d + ("." + f + suffix))
         == Some(DigitsValue(d) as real + FractionValue(f))
  {
    DecimalPrefixAfterDigits(d, "." + f + suffix);
    DecimalFromFraction(d, f, suffix);
  }

  /** The integer digits with a fraction part and no exponent part. */
  lemma DecimalFromFraction(d: string, f: string, suffix: string)
    requires d != [] && AllDigits(d) && AllDigits(f)
    requires suffix == [] || (!IsDigit(suffix[0]) && suffix[0] != 'e' && suffix[0] != 'E')
    ensures DecimalFrom(d, "." + f + suffix) == Some(DigitsValue(d) as real + FractionValue(f))
  {
    FractionPrefixOfDigits(f, suffix);
    ExponentOfNonExponent(suffix);
  }

  /** Past a run of digits the literal reads on into what follows them. */
  lemma DecimalPrefixAfterDigits(d: string, rest: string)
    requires AllDigits(d)
    requires rest == [] || !IsDigit(rest[0])
    ensures DecimalPrefix(d + rest) == DecimalFrom(d, rest)
  {
    assert LeadingDigits(d + rest) == |d| by {
      LeadingDigitsOfConcat(d, rest);
      assert LeadingDigits(rest) == 0;
    }
    assert (d + rest)[..|d|] == d;
    assert (d + rest)[|d|..] == rest;
  }


  /** A point and digits followed by a character that stops them are read
      as the decimal fraction they write. */
  lemma FractionPrefixOfDigits(f: string, suffix: string)
    requires AllDigits(f)
    requires suffix == [] || !IsDigit(suffix[0])
    ensures FractionPrefix("." + f + suffix) == (FractionValue(f), |f|, suffix)
  {
    var rest := "." + f + suffix;
    LeadingDigitsOfConcat(f, suffix);
    assert LeadingDigits(suffix) == 0;
    assert rest[1..] == f + suffix;
    assert (f + suffix)[..|f|] == f;
    assert rest[1 + |f|..] == suffix;
  }

  lemma ExponentOfNonExponent(s: string)
    requires s == [] || (s[0] != 'e' && s[0] != 'E')
    ensures ExponentPrefix(s) == 0
  {
  }

  /** A label such as "2.5%" parses to its decimal value. */
  lemma ParseFloatOfDecimalLabel(n: nat, f: string, suffix: string)
    requires AllDigits(f)
    requires suffix == [] || (!IsDigit(suffix[0]) && suffix[0] != 'e' && suffix[0] != 'E')
    ensures ParseFloat(NatDigits(n) + ("." + f + suffix))
         == Finite(n as real + FractionValue(f))
  {
    var d := NatDigits(n);
    var s := d + ("." + f + suffix);
    DecimalPrefixOfFraction(d, f, suffix);
    DigitsValueOfNatDigits(n);
    assert s[0] == d[0] && IsDigit(s[0]);
    assert TrimLeadingWhitespace(s) == s;
  }

  /** The label the fixture lease carries parses to 3; a label with no
      numeric prefix parses to NaN. */
  lemma ParseFloatExamples()
    ensures ParseFloat("3%") == Finite(3.0)
    ensures ParseFloat("N/A") == NaN
    ensures ParseFloat("") == NaN
  {
    ParseFloatOfThreePercent();
    ParseFloatNaN("N/A");
    ParseFloatNaN("");
  }

  lemma ParseFloatOfThreePercent()
    ensures ParseFloat("3%") == Finite(3.0)
  {
    assert NatDigits(3) + "%" == "3%";
    ParseFloatOfNatLabel(3, "%");
  }

  /** A fractional rate label parses to its decimal value. */
  lemma ParseFloatOfFractionalLabel()
    ensures ParseFloat("2.5%") == Finite(2.5)
  {
    assert NatDigits(2) + ("." + "5" + "%") == "2.5%";
    assert FractionValue("5") == 0.5 by {
      var five := "5";
      assert five[..0] == [];
      assert DigitsValue(five) == 5;
      assert Scaled(5.0, -1) == Scaled(5.0, 0) / 10.0;
    }
    ParseFloatOfDecimalLabel(2, "5", "%");
  }
}
