/** Decimal numerals as exact reals: reading them and writing them. */
module Decimals {
  import opened Outcomes
  import opened Chars

  function Pow10(k: nat): (r: nat)
    ensures r > 0
  {
    if k == 0 then 1 else 10 * Pow10(k - 1)
  }

  function DigitValue(c: char): (d: nat)
    requires IsDigit(c)
    ensures d < 10
  {
    c as int - '0' as int
  }

  function DigitChar(d: nat): (c: char)
    requires d < 10
    ensures IsDigit(c) && DigitValue(c) == d
  {
    ('0' as int + d) as char
  }

  /** The value of a string of decimal digits. */
  function NatOf(s: string): nat
    requires All(s, IsDigit)
  {
    if s == [] then 0 else NatOf(s[..|s| - 1]) * 10 + DigitValue(s[|s| - 1])
  }

  /** strconv.ParseFloat on texts of digits and dots (the texts of number tokens), without
      rounding: a second dot, or no digit at all, is an error. */
  function ParseFloat(text: string): Option<real> {
    var j := RunEnd(text, 0, IsDigit);
    if j == |text| then
      if j == 0 then None else Some(NatOf(text[..j]) as real)
    else if text[j] != '.' || !All(text[j + 1..], IsDigit) || |text| == 1 then None
    else
      Some(NatOf(text[..j]) as real + NatOf(text[j + 1..]) as real / Pow10(|text| - j - 1) as real)
  }

  /** int(n) of a parsed float: truncation, which is the floor as no value is negative. */
  function ParseInteger(text: string): Option<int> {
    match ParseFloat(text)
    case None => None
    case Some(v) => Some(v.Floor)
  }

  /** The reals a decimal numeral can denote. */
  ghost predicate IsDecimal(v: real) {
    exists n: nat, k: nat :: v == DecimalValue(n, k)
  }

  function DecimalValue(n: nat, k: nat): real {
    n as real / Pow10(k) as real
  }

  // Reading

  lemma {:induction false} Pow10Add(a: nat, b: nat)
    ensures Pow10(a + b) == Pow10(a) * Pow10(b)
  {
    if a != 0 {
      Pow10Add(a - 1, b);
      assert a + b - 1 == a - 1 + b;
    }
  }

  lemma {:induction false} NatOfConcat(a: string, b: string)
    requires All(a, IsDigit) && All(b, IsDigit)
    ensures All(a + b, IsDigit)
    ensures NatOf(a + b) == NatOf(a) * Pow10(|b|) + NatOf(b)
  {
    if b == [] {
      assert a + b == a;
    } else {
      var init := b[..|b| - 1];
      NatOfConcat(a, init);
      assert (a + b)[..|a + b| - 1] == a + init;
      Scale(NatOf(a), Pow10(|init|), NatOf(init), DigitValue(b[|b| - 1]));
    }
  }

  lemma {:induction false} Scale(a: nat, p: nat, b: nat, d: nat)
    ensures (a * p + b) * 10 + d == a * (10 * p) + (b * 10 + d)
  {
  }

  lemma {:induction false} FractionSum(a: nat, b: nat, k: nat)
    ensures a as real + b as real / Pow10(k) as real == DecimalValue(a * Pow10(k) + b, k)
  {
    var p := Pow10(k) as real;
    assert a as real * p == (a * Pow10(k)) as real;
    assert (a as real * p + b as real) / p == a as real + b as real / p;
  }

  /** Every number the parser reads is a decimal and not negative. */
  lemma {:induction false} ParseFloatIsDecimal(text: string)
    requires ParseFloat(text).Some?
    ensures IsDecimal(ParseFloat(text).value) && ParseFloat(text).value >= 0.0
    ensures ParseInteger(text).Some? && ParseInteger(text).value >= 0
  {
    var j := RunEnd(text, 0, IsDigit);
    if j == |text| {
      assert ParseFloat(text).value == DecimalValue(NatOf(text[..j]), 0);
    } else {
      FractionSum(NatOf(text[..j]), NatOf(text[j + 1..]), |text| - j - 1);
    }
  }

  // Writing

  function DigitsOf(n: nat): (s: string)
    ensures s != [] && All(s, IsDigit)
  {
    if n < 10 then [DigitChar(n)] else DigitsOf(n / 10) + [DigitChar(n % 10)]
  }

  lemma {:induction false} NatOfDigits(n: nat)
    ensures NatOf(DigitsOf(n)) == n
  {
    if n < 10 {
      assert NatOf([]) == 0;
      assert [DigitChar(n)][..0] == [];
    } else {
      NatOfDigits(n / 10);
      assert DigitsOf(n)[..|DigitsOf(n)| - 1] == DigitsOf(n / 10);
    }
  }

  /** Decimal digits of `n`, with leading zeros up to at least `width` digits. */
  function Padded(n: nat, width: nat): (s: string)
    ensures |s| >= width && s != [] && All(s, IsDigit)
  {
    var s := DigitsOf(n);
    if |s| >= width then s else seq(width - |s|, _ => '0') + s
  }

  lemma {:induction false} NatOfZeros(m: nat)
    ensures All(seq(m, _ => '0'), IsDigit) && NatOf(seq(m, _ => '0')) == 0
  {
    if m > 0 {
      NatOfZeros(m - 1);
      assert seq(m, _ => '0')[..m - 1] == seq(m - 1, _ => '0');
    }
  }

  lemma {:induction false} NatOfPadded(n: nat, width: nat)
    ensures NatOf(Padded(n, width)) == n
  {
    hide DigitsOf, NatOf, Pow10;
    NatOfDigits(n);
    var s := DigitsOf(n);
    if |s| < width {
      var zeros := seq(width - |s|, _ => '0');
      NatOfZeros(width - |s|);
      NatOfConcat(zeros, s);
      assert Padded(n, width) == zeros + s;
    }
  }

  /** The numeral for n / 10^k: no dot when k is 0, else digits on both sides of the dot. */
  function DecimalText(n: nat, k: nat): string {
    if k == 0 then DigitsOf(n)
    else
      var s := Padded(n, k + 1);
      s[..|s| - k] + "." + s[|s| - k..]
  }

  /** A text cut at its first dot is read as its two halves. */
  lemma {:induction false} ParseDotted(text: string, a: string, b: string)
    requires All(a, IsDigit) && All(b, IsDigit) && (a != [] || b != [])
    requires text == a + "." + b
    ensures ParseFloat(text) == Some(DecimalValue(NatOf(a + b), |b|))
  {
    assert text[0..|a|] == a && text[..|a|] == a && text[|a| + 1..] == b;
    RunEndUnique(text, 0, |a|, IsDigit);
    NatOfConcat(a, b);
    FractionSum(NatOf(a), NatOf(b), |b|);
  }

  /** A text of digits alone is read as its value. */
  lemma {:induction false} ParseDigits(text: string)
    requires All(text, IsDigit) && text != []
    ensures ParseFloat(text) == Some(DecimalValue(NatOf(text), 0))
  {
    assert text[0..|text|] == text && text[..|text|] == text;
    RunEndUnique(text, 0, |text|, IsDigit);
    assert Pow10(0) == 1;
  }

  /** Digits on the two sides of a dot, at least one in all. */
  predicate IsDotted(text: string, a: string, b: string) {
    All(a, IsDigit) && All(b, IsDigit) && (a != [] || b != []) && text == a + "." + b
  }

  /** The texts that are read as numbers, and as which: digits, or digits around one dot. */
  lemma {:induction false} ParseFloatExactly(text: string, v: real)
    ensures ParseFloat(text) == Some(v) <==>
            || (text != [] && All(text, IsDigit) && v == DecimalValue(NatOf(text), 0))
            || (exists a, b :: IsDotted(text, a, b) && All(a + b, IsDigit) && v == DecimalValue(NatOf(a + b), |b|))
  {
    if ParseFloat(text) == Some(v) {
      var j := RunEnd(text, 0, IsDigit);
      assert text[0..j] == text[..j];
      if j == |text| {
        assert text[..j] == text;
        ParseDigits(text);
      } else {
        var a, b := text[..j], text[j + 1..];
        assert text == a + "." + b;
        NatOfConcat(a, b);
        ParseDotted(text, a, b);
        assert IsDotted(text, a, b);
      }
    }
    if text != [] && All(text, IsDigit) {
      ParseDigits(text);
    }
    if a: string, b: string :| IsDotted(text, a, b) && All(a + b, IsDigit) && v == DecimalValue(NatOf(a + b), |b|) {
      ParseDotted(text, a, b);
    }
  }

  /** Reading what was written gives back the number. */
  lemma {:induction false} DecimalRoundTrip(n: nat, k: nat)
    ensures ParseFloat(DecimalText(n, k)) == Some(DecimalValue(n, k))
  {
    hide ParseFloat, DigitsOf, NatOf;
    if k == 0 {
      NatOfDigits(n);
      ParseDigits(DigitsOf(n));
    } else {
      var s := Padded(n, k + 1);
      var a, b := s[..|s| - k], s[|s| - k..];
      NatOfPadded(n, k + 1);
      assert a + b == s;
      ParseDotted(a + "." + b, a, b);
    }
  }

  /** A whole number is read back as an integer. */
  lemma {:induction false} IntegerRoundTrip(n: nat)
    ensures ParseInteger(DecimalText(n, 0)) == Some(n)
  {
    DecimalRoundTrip(n, 0);
    assert DecimalValue(n, 0) == n as real;
  }
}
