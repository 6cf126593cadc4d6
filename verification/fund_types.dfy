/** Model of internal/market/investment-fund/bancolombia/types/types.go: the
    JSON decoding of the fund service's money, percentage and date fields,
    which arrive as quoted text with decorations.  The float and date parsers
    are the standard library's and enter as functions; amounts are reals. */
module FundTypes {
  import opened Wrappers
  import Text

  const CopUnitCode: string := "COP"

  /** `Money`: an amount of a currency unit. */
  datatype Money = Money(unit: string, value: real)

  /** The text `Money.UnmarshalJSON` parses: quotes and dollar signs trimmed
      from both ends, then every comma removed. */
  function CleanMoney(b: string): (r: string)
    ensures ',' !in r && |r| <= |b|
  {
    Text.RemoveChar(Text.Trim(b, {'"', '$'}), ',')
  }

  /** The text `Percentage.UnmarshalJSON` parses: quotes and percent signs
      trimmed from both ends, then every comma made a decimal point. */
  function CleanPercentage(b: string): (r: string)
    ensures ',' !in r
  {
    Text.ReplaceChar(Text.Trim(b, {'"', '%'}), ',', '.')
  }

  /** The text `Date.UnmarshalJSON` parses with the "20060102" layout: quotes
      trimmed from both ends. */
  function CleanDate(b: string): (r: string)
    ensures |r| <= |b|
  {
    Text.Trim(b, {'"'})
  }

  /** A quoted, dollar-prefixed amount with thousands commas cleans to the
      digits with the commas removed. */
  lemma {:induction false} MoneyUnwraps(s: string)
    requires |s| > 0 && s[0] !in {'"', '$'} && s[|s| - 1] !in {'"', '$'}
    ensures CleanMoney("\"$" + s + "\"") == Text.RemoveChar(s, ',')
  {
    Text.TrimUnwraps("\"$", s, "\"", {'"', '$'});
  }

  /** A quoted percentage with a decimal comma cleans to the same number
      with a decimal point. */
  lemma {:induction false} PercentageUnwraps(s: string)
    requires |s| > 0 && s[0] !in {'"', '%'} && s[|s| - 1] !in {'"', '%'}
    ensures CleanPercentage("\"" + s + "%\"") == Text.ReplaceChar(s, ',', '.')
  {
    Text.TrimUnwraps("\"", s, "%\"", {'"', '%'});
  }

  /** A quoted date cleans to its digits. */
  lemma {:induction false} DateUnwraps(s: string)
    requires |s| > 0 && s[0] != '"' && s[|s| - 1] != '"'
    ensures CleanDate("\"" + s + "\"") == s
  {
    Text.TrimUnwraps("\"", s, "\"", {'"'});
  }

  /** `Money.UnmarshalJSON`: on a parse failure the error is returned and the
      receiver keeps its value; otherwise it becomes the parsed amount in COP. */
  function UnmarshalMoney(v: Money, b: string, parseFloat: string -> Result<real>): (r: (Money, Option<string>))
    ensures parseFloat(CleanMoney(b)).Err? ==> r == (v, Some(parseFloat(CleanMoney(b)).error))
    ensures parseFloat(CleanMoney(b)).Ok? ==> r == (Money(CopUnitCode, parseFloat(CleanMoney(b)).value), None)
  {
    match parseFloat(CleanMoney(b))
    case Err(e) => (v, Some(e))
    case Ok(x) => (Money(CopUnitCode, x), None)
  }

  /** `Percentage.UnmarshalJSON`, with the same failure rule. */
  function UnmarshalPercentage(v: real, b: string, parseFloat: string -> Result<real>): (r: (real, Option<string>))
    ensures parseFloat(CleanPercentage(b)).Err? ==> r == (v, Some(parseFloat(CleanPercentage(b)).error))
    ensures parseFloat(CleanPercentage(b)).Ok? ==> r == (parseFloat(CleanPercentage(b)).value, None)
  {
    match parseFloat(CleanPercentage(b))
    case Err(e) => (v, Some(e))
    case Ok(x) => (x, None)
  }

  /** `Date.UnmarshalJSON`, with the same failure rule. */
  function UnmarshalDate(v: int, b: string, parseDay: string -> Result<int>): (r: (int, Option<string>))
    ensures parseDay(CleanDate(b)).Err? ==> r == (v, Some(parseDay(CleanDate(b)).error))
    ensures parseDay(CleanDate(b)).Ok? ==> r == (parseDay(CleanDate(b)).value, None)
  {
    match parseDay(CleanDate(b))
    case Err(e) => (v, Some(e))
    case Ok(x) => (x, None)
  }

  /** A fixture: `"$1,234.50"` decodes from the text "1234.50". */
  lemma MoneyExample()
    ensures CleanMoney("\"$1,234.50\"") == "1234.50"
  {
    assert "\"$" + "1,234.50" + "\"" == "\"$1,234.50\"";
    MoneyUnwraps("1,234.50");
    RemoveThousandsComma();
  }

  lemma RemoveThousandsComma()
    ensures Text.RemoveChar("1,234.50", ',') == "1234.50"
  {
    var tail := ",234.50";
    assert "1,234.50" == "1" + tail && "1" + "234.50" == "1234.50";
    assert Text.RemoveChar(tail, ',') == "234.50" by {
      assert tail == "," + "234.50";
      assert Text.RemoveChar(",", ',') == "";
      Text.RemoveCharAbsent("234.50", ',');
      Text.RemoveCharAppend(",", "234.50", ',');
    }
    assert Text.RemoveChar("1" + tail, ',') == "1" + Text.RemoveChar(tail, ',') by {
      Text.RemoveCharAbsent("1", ',');
      Text.RemoveCharAppend("1", tail, ',');
    }
  }
}
