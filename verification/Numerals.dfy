/** What number texts are worth, from the code points of their digits up. */
module Numerals {
  import opened Outcomes
  import opened Chars
  import opened Decimals
  import opened ByteClasses

  /** Nothing but the characters 0 to 9. */
  predicate IsDigits(s: string) {
    forall k | 0 <= k < |s| :: 0x30 <= s[k] as int <= 0x39
  }

  lemma {:induction false} DigitsAre(s: string)
    ensures IsDigits(s) <==> All(s, IsDigit)
  {
    forall k | 0 <= k < |s| ensures IsDigit(s[k]) <==> 0x30 <= s[k] as int <= 0x39 {
      Tables(s[k]);
    }
  }

  /** One digit. */
  lemma {:induction false} DigitReads(c: char)
    requires 0x30 <= c as int <= 0x39
    ensures ParseFloat([c]) == Some((c as int - 0x30) as real)
  {
    DigitsAre([c]);
    ParseDigits([c]);
    assert [c][..0] == [] && NatOf([]) == 0;
    assert NatOf([c]) == c as int - 0x30;
    WholeValue(NatOf([c]));
  }

  lemma {:induction false} WholeValue(n: nat)
    ensures DecimalValue(n, 0) == n as real
  {
  }

  /** One more digit behind others. */
  lemma {:induction false} DigitsRead(s: string, c: char)
    requires s != "" && IsDigits(s) && 0x30 <= c as int <= 0x39
    ensures ParseFloat(s).Some?
    ensures ParseFloat(s + [c]) == Some(10.0 * ParseFloat(s).value + (c as int - 0x30) as real)
  {
    hide ParseFloat, IsDigits;
    var t := s + [c];
    DigitsAre(s);
    DigitsAre(t);
    OneMore(s, c);
    ParseDigits(s);
    ParseDigits(t);
    assert t[..|t| - 1] == s;
    assert NatOf(t) == NatOf(s) * 10 + (c as int - 0x30);
    WholeValue(NatOf(s));
    WholeValue(NatOf(t));
  }

  lemma {:induction false} OneMore(s: string, c: char)
    requires IsDigits(s) && 0x30 <= c as int <= 0x39
    ensures IsDigits(s + [c])
  {
  }

  /** A dot behind the digits changes nothing, and a dot alone is no number. */
  lemma {:induction false} DotEnds(a: string)
    requires IsDigits(a)
    ensures ParseFloat(a + ".") == if a == "" then None else ParseFloat(a)
  {
    DigitsAre(a);
    if a == "" {
      assert a + "." == ".";
      RunEndUnique(".", 0, 0, IsDigit);
    } else {
      ParseDigits(a);
      assert a + "." == a + "." + "" && a + "" == a;
      ParseDotted(a + ".", a, "");
    }
  }

  /** Moving the dot one digit to the right makes a number ten times as great. */
  lemma {:induction false} DotMoves(a: string, c: char, b: string)
    requires IsDigits(a) && 0x30 <= c as int <= 0x39 && IsDigits(b)
    ensures ParseFloat(a + "." + ([c] + b)).Some? && ParseFloat(a + [c] + "." + b).Some?
    ensures 10.0 * ParseFloat(a + "." + ([c] + b)).value == ParseFloat(a + [c] + "." + b).value
  {
    hide ParseFloat, NatOf;
    DigitsAre(a);
    DigitsAre(b);
    DigitsAre(a + [c]);
    DigitsAre([c] + b);
    ParseDotted(a + "." + ([c] + b), a, [c] + b);
    ParseDotted(a + [c] + "." + b, a + [c], b);
    assert a + ([c] + b) == a + [c] + b;
    Tenfold(NatOf(a + [c] + b), |b|);
  }

  lemma {:induction false} Tenfold(n: nat, k: nat)
    ensures 10.0 * DecimalValue(n, k + 1) == DecimalValue(n, k)
  {
    var p := Pow10(k) as real;
    assert Pow10(k + 1) as real == 10.0 * p;
    assert 10.0 * (n as real / (10.0 * p)) == n as real / p;
  }

  /** The texts that are numbers: digits with at most one dot, and at least one digit. */
  lemma {:induction false} NumberTexts(t: string)
    ensures ParseFloat(t).Some? <==>
            || (t != "" && IsDigits(t))
            || exists a, b :: IsDigits(a) && IsDigits(b) && (a != "" || b != "") && t == a + "." + b
  {
    if ParseFloat(t).Some? {
      ParseFloatExactly(t, ParseFloat(t).value);
      DigitsAre(t);
      if !(t != "" && IsDigits(t)) {
        var a: string, b: string :| IsDotted(t, a, b);
        DigitsAre(a);
        DigitsAre(b);
      }
    }
    if t != "" && IsDigits(t) {
      DigitsAre(t);
      ParseDigits(t);
    }
    if a: string, b: string :| IsDigits(a) && IsDigits(b) && (a != "" || b != "") && t == a + "." + b {
      DigitsAre(a);
      DigitsAre(b);
      ParseDotted(t, a, b);
    }
  }

  /** An integer is the number cut off behind the dot; no number text is negative. */
  lemma {:induction false} IntegerCutsOff(t: string, n: int)
    ensures ParseInteger(t) == Some(n) <==>
            ParseFloat(t).Some? && n as real <= ParseFloat(t).value < (n + 1) as real
  {
    hide ParseFloat;
  }
}
