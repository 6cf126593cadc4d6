/** Model of the amount parser of internal/bank/bancolombia/bancolombia.go
    (`getValueFromTextWithDecimal`, `getValueFromTextWithoutDecimal`,
    `getValueFromText`).  bank.go carries an identical copy.

    The bank writes amounts with either "." or "," as thousands separator and
    the other one as decimal mark.  The parser first tries the reading "some
    digits and separators, one separator, exactly two digits" and, failing
    that, reads the leading run of digits and separators as a whole number. */
module BancolombiaCurrency {
  import opened Wrappers
  import opened Text
  import Currency

  predicate IsSeparator(c: char) { c == '.' || c == ',' }

  /** The class `[0-9\.,]`. */
  predicate IsAmountChar(c: char) { IsDigit(c) || IsSeparator(c) }

  predicate AllAmountChars(s: string) { forall i :: 0 <= i < |s| ==> IsAmountChar(s[i]) }

  /** The whole string matches `^(?P<integer>[0-9\.,]+)[\.,](?P<decimal>\d{2})$`.
      The last three characters are forced, so the split is unique. */
  predicate HasDecimalShape(s: string)
  {
    && |s| >= 4
    && AllAmountChars(s[..|s| - 3])
    && IsSeparator(s[|s| - 3])
    && IsDigit(s[|s| - 2]) && IsDigit(s[|s| - 1])
  }

  /** The greedy match of `^(?P<integer>[0-9\.,]+)` without its non-empty
      requirement: the longest prefix of amount characters. */
  function LeadingRun(s: string): (r: string)
    ensures |r| <= |s| && r == s[..|r|]
    ensures AllAmountChars(r)
    ensures |r| < |s| ==> !IsAmountChar(s[|r|])
    decreases |s|
  {
    if |s| > 0 && IsAmountChar(s[0]) then [s[0]] + LeadingRun(s[1..]) else ""
  }

  /** Every "," and "." removed. */
  function StripSeparators(s: string): (r: string)
    ensures AllAmountChars(s) ==> AllDigits(r)
    decreases |s|
  {
    if |s| == 0 then "" else (if IsSeparator(s[0]) then "" else [s[0]]) + StripSeparators(s[1..])
  }

  /** It is what the two `strings.ReplaceAll` calls of the source compute. */
  lemma {:induction false} StripSeparatorsIsReplaceAll(s: string)
    ensures StripSeparators(s) == RemoveChar(RemoveChar(s, ','), '.')
    decreases |s|
  {
    if |s| > 0 {
      StripSeparatorsIsReplaceAll(s[1..]);
      var head := if s[0] == ',' then "" else [s[0]];
      assert RemoveChar(s, ',') == head + RemoveChar(s[1..], ',');
      RemoveCharAppend(head, RemoveChar(s[1..], ','), '.');
    }
  }

  lemma {:induction false} StripSeparatorsAppend(a: string, b: string)
    ensures StripSeparators(a + b) == StripSeparators(a) + StripSeparators(b)
    decreases |a|
  {
    if |a| == 0 {
      assert a + b == b;
    } else {
      assert (a + b)[1..] == a[1..] + b;
      StripSeparatorsAppend(a[1..], b);
    }
  }

  lemma StripSeparatorsOfDigits(d: string)
    requires AllDigits(d)
    ensures StripSeparators(d) == d
    decreases |d|
  {
    if |d| > 0 {
      StripSeparatorsOfDigits(d[1..]);
      assert d == [d[0]] + d[1..];
    }
  }

  /** The text `integer + "." + decimal` handed to `strconv.ParseFloat`,
      kept as its two digit strings. */
  datatype ValueText = ValueText(integer: string, decimal: string)
  {
    predicate Valid() { AllDigits(integer) && AllDigits(decimal) && 1 <= |decimal| <= 2 }

    /** What `ParseFloat` yields for this text, in hundredths. */
    function Hundredths(): nat
      requires Valid()
    {
      DigitsValue(integer) * 100 + (if |decimal| == 2 then DigitsValue(decimal) else DigitsValue(decimal) * 10)
    }
  }

  /** `getValueFromTextWithDecimal`. */
  function GetValueFromTextWithDecimal(s: string): (r: Result<ValueText>)
    ensures r.Ok? <==> HasDecimalShape(s)
    ensures r.Ok? ==> r.value.Valid() && |r.value.decimal| == 2
  {
    if !HasDecimalShape(s) then Err("string does not match the currency regex")
    else
      Ok(ValueText(StripSeparators(s[..|s| - 3]), s[|s| - 2..]))
  }

  /** `getValueFromTextWithoutDecimal`: the decimal part is always "0". */
  function GetValueFromTextWithoutDecimal(s: string): (r: Result<ValueText>)
    ensures r.Ok? <==> |s| > 0 && IsAmountChar(s[0])
    ensures r.Ok? ==> r.value.Valid() && r.value.decimal == "0"
  {
    if !(|s| > 0 && IsAmountChar(s[0])) then Err("string does not match the currency regex without decimal")
    else
      Ok(ValueText(StripSeparators(LeadingRun(s)), "0"))
  }

  /** `getValueFromText`: decimal reading first, whole-number reading as fallback,
      always tagged "COP". */
  function GetValueFromText(s: string): (r: Result<Currency.Amount>)
    ensures r.Ok? <==> |s| > 0 && IsAmountChar(s[0])
    ensures r.Ok? ==> r.value.code == Currency.COP && r.value.hundredths >= 0
    ensures HasDecimalShape(s) ==>
              r.Ok? && r.value.hundredths == DigitsValue(StripSeparators(s[..|s| - 3])) * 100 + DigitsValue(s[|s| - 2..])
    ensures !HasDecimalShape(s) && r.Ok? ==>
              r.value.hundredths == DigitsValue(StripSeparators(LeadingRun(s))) * 100
  {
    var v := GetValueFromTextWithDecimal(s);
    var v := if v.Ok? then v else GetValueFromTextWithoutDecimal(s);
    if v.Err? then Err(v.error)
    else Ok(Currency.Amount(Currency.COP, v.value.Hundredths()))
  }

  /** `digits` with `sep` inserted between groups of three, counted from the right. */
  function Group(d: string, sep: char): (g: string)
    decreases |d|
  {
    if |d| <= 3 then d else Group(d[..|d| - 3], sep) + [sep] + d[|d| - 3..]
  }

  lemma {:induction false} GroupFacts(d: string, sep: char)
    requires AllDigits(d) && |d| >= 1 && IsSeparator(sep)
    ensures var g := Group(d, sep);
      && AllAmountChars(g)
      && StripSeparators(g) == d
      && |g| >= |d|
      && g[|g| - (if |d| < 3 then |d| else 3)..] == d[|d| - (if |d| < 3 then |d| else 3)..]
    decreases |d|
  {
    var g := Group(d, sep);
    if |d| <= 3 {
      StripSeparatorsOfDigits(d);
    } else {
      var front := d[..|d| - 3];
      var h := Group(front, sep);
      var t := d[|d| - 3..];
      assert d == front + t;
      assert g == h + [sep] + t;
      GroupFacts(front, sep);
      AmountCharsAround(h, sep, t);
      StripAroundSeparator(h, sep, t);
      StripSeparatorsOfDigits(t);
    }
  }

  lemma AmountCharsAround(a: string, sep: char, b: string)
    requires AllAmountChars(a) && IsSeparator(sep) && AllDigits(b)
    ensures AllAmountChars(a + [sep] + b)
  {
    var s := a + [sep] + b;
    forall i | 0 <= i < |s| ensures IsAmountChar(s[i]) {
      if i < |a| {
        assert s[i] == a[i];
      } else if i > |a| {
        assert s[i] == b[i - |a| - 1];
      }
    }
  }

  /** A separator between two texts disappears, and each side is stripped. */
  lemma StripAroundSeparator(a: string, sep: char, b: string)
    requires IsSeparator(sep)
    ensures StripSeparators(a + [sep] + b) == StripSeparators(a) + StripSeparators(b)
  {
    assert StripSeparators([sep]) == "";
    StripSeparatorsAppend(a, [sep]);
    StripSeparatorsAppend(a + [sep], b);
  }

  function TwoDigits(k: nat): (t: string)
    requires k < 100
    ensures |t| == 2 && AllDigits(t)
  {
    [DigitChar(k / 10), DigitChar(k % 10)]
  }

  /** An amount in hundredths written with a thousands separator and a decimal mark. */
  function RenderWithDecimal(n: nat, thousands: char, mark: char): string
  {
    Group(NatToString(n / 100), thousands) + [mark] + TwoDigits(n % 100)
  }

  /** A whole amount written with a thousands separator and no decimals. */
  function RenderWhole(n: nat, thousands: char): string
  {
    Group(NatToString(n), thousands)
  }

  /** Whatever the separator convention ("3.150,00" or "3,150.00"), an amount
      written with two decimals parses back to itself. */
  lemma DecimalRoundTrip(n: nat, thousands: char, mark: char)
    requires IsSeparator(thousands) && IsSeparator(mark)
    ensures GetValueFromText(RenderWithDecimal(n, thousands, mark)) == Ok(Currency.Amount(Currency.COP, n))
  {
    var d := NatToString(n / 100);
    var g := Group(d, thousands);
    var t := TwoDigits(n % 100);
    var s := g + [mark] + t;
    assert RenderWithDecimal(n, thousands, mark) == s;
    assert DigitsValue(StripSeparators(g)) == n / 100 && AllAmountChars(g) && |g| >= 1 by {
      GroupFacts(d, thousands);
      DigitsValueOfNatToString(n / 100);
    }
    assert DigitsValue(t) == n % 100 by {
      TwoDigitsValue(n % 100);
    }
    DecimalShapeSplit(g, mark, t);
    DecimalValue(s, n / 100, n % 100, n);
  }

  lemma DecimalShapeSplit(g: string, mark: char, t: string)
    requires AllAmountChars(g) && |g| >= 1 && IsSeparator(mark) && |t| == 2 && AllDigits(t)
    ensures var s := g + [mark] + t;
      HasDecimalShape(s) && s[..|s| - 3] == g && s[|s| - 2..] == t
  {
    var s := g + [mark] + t;
    assert s[..|s| - 3] == g;
    assert s[|s| - 2..] == t;
  }

  lemma DecimalValue(s: string, whole: nat, cents: nat, total: nat)
    requires HasDecimalShape(s) && cents < 100 && total == whole * 100 + cents
    requires DigitsValue(StripSeparators(s[..|s| - 3])) == whole
    requires DigitsValue(s[|s| - 2..]) == cents
    ensures GetValueFromText(s) == Ok(Currency.Amount(Currency.COP, total))
  {
  }

  lemma TwoDigitsValue(k: nat)
    requires k < 100
    ensures DigitsValue(TwoDigits(k)) == k
  {
    var t := TwoDigits(k);
    assert t[..1] == [DigitChar(k / 10)];
    assert DigitsValue(t[..1]) == DigitVal(DigitChar(k / 10)) == k / 10;
    assert DigitVal(t[1]) == k % 10;
    assert DigitsValue(t) == (k / 10) * 10 + k % 10;
  }

  /** A whole amount written with thousands separators is never mistaken for a
      decimal one: it parses back to itself with zero cents. */
  lemma WholeRoundTrip(n: nat, thousands: char)
    requires IsSeparator(thousands)
    ensures GetValueFromText(RenderWhole(n, thousands)) == Ok(Currency.Amount(Currency.COP, n * 100))
  {
    var d := NatToString(n);
    var g := Group(d, thousands);
    GroupFacts(d, thousands);
    assert !HasDecimalShape(g) by {
      if |d| >= 3 {
        assert g[|g| - 3..] == d[|d| - 3..];
        assert g[|g| - 3] == d[|d| - 3];
      } else {
        assert |g| == |d|;
      }
    }
    LeadingRunAll(g);
    DigitsValueOfNatToString(n);
  }

  lemma LeadingRunAll(s: string)
    requires AllAmountChars(s)
    ensures LeadingRun(s) == s
    decreases |s|
  {
    if |s| > 0 {
      LeadingRunAll(s[1..]);
    }
  }

  /** Amounts taken from the bank's own notifications. */
  lemma ExampleDotThousands()
    ensures GetValueFromText("3.150,00") == Ok(Currency.Amount("COP", 315000))
  {
    assert RenderWithDecimal(315000, '.', ',') == "3.150,00" by {
      assert 315000 / 100 == 3150 && 315000 % 100 == 0;
      assert NatToString(3150) == "3150";
      assert Group("3150", '.') == "3.150";
      assert TwoDigits(0) == "00";
      assert "3.150" + [','] + "00" == "3.150,00";
    }
    DecimalRoundTrip(315000, '.', ',');
  }

  lemma ExampleWithdrawal()
    ensures GetValueFromText("70.000,00") == Ok(Currency.Amount("COP", 7000000))
  {
    assert RenderWithDecimal(7000000, '.', ',') == "70.000,00" by {
      assert 7000000 / 100 == 70000 && 7000000 % 100 == 0;
      assert NatToString(70000) == "70000";
      assert Group("70000", '.') == "70.000";
      assert TwoDigits(0) == "00";
      assert "70.000" + [','] + "00" == "70.000,00";
    }
    DecimalRoundTrip(7000000, '.', ',');
  }

  lemma ExampleCommaThousands()
    ensures GetValueFromText("112,400.00") == Ok(Currency.Amount("COP", 11240000))
  {
    assert RenderWithDecimal(11240000, ',', '.') == "112,400.00" by {
      assert 11240000 / 100 == 112400 && 11240000 % 100 == 0;
      assert NatToString(112400) == "112400";
      assert Group("112400", ',') == "112,400";
      assert TwoDigits(0) == "00";
      assert "112,400" + ['.'] + "00" == "112,400.00";
    }
    DecimalRoundTrip(11240000, ',', '.');
  }

  /** "1.50" has the decimal shape, so it reads as one and a half, not one hundred and fifty. */
  lemma ExampleShortDecimal()
    ensures GetValueFromText("1.50") == Ok(Currency.Amount("COP", 150))
  {
    assert RenderWithDecimal(150, ',', '.') == "1.50" by {
      assert 150 / 100 == 1 && 150 % 100 == 50;
      assert NatToString(1) == "1";
      assert Group("1", ',') == "1";
      assert TwoDigits(50) == "50";
      assert "1" + ['.'] + "50" == "1.50";
    }
    DecimalRoundTrip(150, ',', '.');
  }

  /** Text that does not start with a digit or separator is rejected. */
  lemma ExampleRejected()
    ensures GetValueFromText("$5").Err?
    ensures GetValueFromText("").Err?
  {
  }
}
