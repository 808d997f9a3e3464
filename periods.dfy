/**
 * The period label of a `tpt_<suffix>` column in mcp-data-processing/create_training_data.py:
 * `pd.to_datetime(suffix, format='%b_%Y', errors='coerce').strftime('%Y-%m')`, and, when that
 * raises (the parse gave NaT), `suffix.replace('_', '-')`.
 */
module Periods {
  import opened Wrappers
  import opened Text
  import YearMonth

  /** The English abbreviations `%b` matches, case-insensitively. */
  const MonthAbbreviations: seq<string> :=
    ["jan", "feb", "mar", "apr", "may", "jun", "jul", "aug", "sep", "oct", "nov", "dec"]

  /** The month number (1-12) of an abbreviation already folded to lower case. */
  function MonthNumber(name: string): (r: Option<nat>)
    ensures r.Some? ==> 1 <= r.value <= 12 && MonthAbbreviations[r.value - 1] == name
    ensures r.None? ==> name !in MonthAbbreviations
  {
    IndexFrom(name, 0)
  }

  function IndexFrom(name: string, k: nat): (r: Option<nat>)
    requires k <= 12
    ensures r.Some? ==> k + 1 <= r.value <= 12 && MonthAbbreviations[r.value - 1] == name
    ensures r.None? ==> forall j :: k <= j < 12 ==> MonthAbbreviations[j] != name
    decreases 12 - k
  {
    if k == 12 then None
    else if MonthAbbreviations[k] == name then Some(k + 1)
    else IndexFrom(name, k + 1)
  }

  /**
   * Months pandas can hold as a nanosecond Timestamp (1677-09-21 to 2262-04-11); the first
   * day of any other month is out of bounds and `errors='coerce'` turns it into NaT.
   */
  predicate InTimestampRange(year: nat, month: nat)
  {
    (year > 1677 || (year == 1677 && month >= 10)) &&
    (year < 2262 || (year == 2262 && month <= 4))
  }

  /** The `%b_%Y` parse: three letters naming a month, `_`, four digits, and nothing else. */
  function ParseMonthYear(s: string): (r: Option<(nat, nat)>)
    ensures r.Some? ==> 1 <= r.value.1 <= 12 && InTimestampRange(r.value.0, r.value.1)
  {
    if |s| == 8 && s[3] == '_' && AllDigits(s[4..]) then
      match MonthNumber(Lower(s[..3]))
      case Some(m) => if InTimestampRange(Value(s[4..]), m) then Some((Value(s[4..]), m)) else None
      case None => None
    else None
  }

  /** The `month` value of every record emitted for a column with this suffix. */
  function PeriodLabel(suffix: string): string
  {
    match ParseMonthYear(suffix)
    case Some((year, month)) => YearMonth.Render(year, month)
    case None => ReplaceAll(suffix, "_", "-")
  }

  /** Each abbreviation names its own month: no two entries of the table coincide. */
  lemma MonthNumberOfAbbreviation(month: nat)
    requires 1 <= month <= 12
    ensures MonthNumber(MonthAbbreviations[month - 1]) == Some(month)
  {
    var name := MonthAbbreviations[month - 1];
    assert name in MonthAbbreviations;
    var r := MonthNumber(name);
    if r.value != month {
      AbbreviationsDistinct(r.value - 1, month - 1);
    }
  }

  /** No two entries of the table coincide. */
  lemma AbbreviationsDistinct(i: nat, j: nat)
    requires i < 12 && j < 12 && i != j
    ensures MonthAbbreviations[i] != MonthAbbreviations[j]
  {
    var a, b := MonthAbbreviations[i], MonthAbbreviations[j];
    assert a[0] != b[0] || a[1] != b[1] || a[2] != b[2];
  }

  /** A suffix `<mon>_<yyyy>`, written in any letter case, parses and is labelled `yyyy-mm`. */
  lemma LabelOfMonthSuffix(mon: string, year: nat, month: nat)
    requires 1 <= month <= 12 && InTimestampRange(year, month)
    requires Lower(mon) == MonthAbbreviations[month - 1]
    ensures ParseMonthYear(mon + "_" + FixedDigits(year, 4)) == Some((year, month))
    ensures PeriodLabel(mon + "_" + FixedDigits(year, 4)) == YearMonth.Render(year, month)
  {
    var s := mon + "_" + FixedDigits(year, 4);
    assert |mon| == 3;
    assert s[..3] == mon && s[3] == '_' && s[4..] == FixedDigits(year, 4);
    assert Pow10(4) == 10000;
    ValueOfFixedDigits(year, 4);
    MonthNumberOfAbbreviation(month);
  }

  /** Conversely, a suffix parses only when it has that shape. */
  lemma ParsedSuffixShape(s: string)
    requires ParseMonthYear(s).Some?
    ensures var (year, month) := ParseMonthYear(s).value;
      s == s[..3] + "_" + FixedDigits(year, 4) && Lower(s[..3]) == MonthAbbreviations[month - 1]
  {
    FixedDigitsOfValue(s[4..]);
    assert s == s[..3] + "_" + s[4..];
  }

  /** A parsed label passes the server's `%Y-%m` validation and denotes the parsed month. */
  lemma ParsedLabelIsValidMonth(s: string)
    requires ParseMonthYear(s).Some?
    ensures YearMonth.ParseYearMonth(PeriodLabel(s)) == ParseMonthYear(s)
  {
    var (year, month) := ParseMonthYear(s).value;
    YearMonth.AcceptsEveryMonth(year, month);
  }

  /** No label, parsed or not, contains `_`. */
  lemma LabelHasNoUnderscore(s: string)
    ensures '_' !in PeriodLabel(s)
  {
    match ParseMonthYear(s)
    case Some((year, month)) =>
      var r := YearMonth.Render(year, month);
      assert forall i :: 0 <= i < |r| ==> r[i] == '-' || IsDigit(r[i]);
    case None =>
      ReplaceAllRemoves(s, '_', "-");
  }

  lemma RenderExample()
    ensures FixedDigits(2025, 4) == "2025" && YearMonth.Render(2025, 9) == "2025-09"
  {
    Year2025();
    assert FixedDigits(9, 2) == FixedDigits(0, 1) + [DigitChar(9)];
    assert FixedDigits(0, 1) == "0";
  }

  lemma Year2025()
    ensures FixedDigits(2025, 4) == "2025"
  {
    assert FixedDigits(2, 1) == "2";
    assert FixedDigits(20, 2) == FixedDigits(2, 1) + "0";
    assert FixedDigits(202, 3) == FixedDigits(20, 2) + "2";
    assert FixedDigits(2025, 4) == FixedDigits(202, 3) + "5";
  }

  /** A month suffix in lower case is labelled with its zero-padded month. */
  lemma ParsedExample(s: string)
    requires s == "sep_2025"
    ensures PeriodLabel(s) == "2025-09"
  {
    SepLabel(s[..3], s[4..]);
    assert s == s[..3] + "_" + s[4..];
  }

  /** The month name matches in any letter case. */
  lemma UpperCaseExample(s: string)
    requires s == "SEP_2025"
    ensures PeriodLabel(s) == "2025-09"
  {
    SepLabel(s[..3], s[4..]);
    assert s == s[..3] + "_" + s[4..];
  }

  lemma SepLabel(mon: string, year: string)
    requires |mon| == 3 && LowerChar(mon[0]) == 's' && LowerChar(mon[1]) == 'e' && LowerChar(mon[2]) == 'p'
    requires year == "2025"
    ensures PeriodLabel(mon + "_" + year) == "2025-09"
  {
    RenderExample();
    assert Lower(mon) == MonthAbbreviations[8];
    LabelOfMonthSuffix(mon, 2025, 9);
  }

  lemma FallbackLabel(s: string)
    requires ParseMonthYear(s).None?
    ensures PeriodLabel(s) == ReplaceAll(s, "_", "-")
  {
  }

  /** A suffix that does not parse keeps its text, with `-` for `_`. */
  lemma FallbackExample(s: string)
    requires s == "2025_09"
    ensures PeriodLabel(s) == "2025-09"
  {
    assert s == s[..4] + "_" + s[5..];
    NumericFallback(s[..4], s[5..]);
  }

  lemma NumericFallback(a: string, b: string)
    requires AllDigits(a) && AllDigits(b) && |a| == 4
    ensures PeriodLabel(a + "_" + b) == a + "-" + b
  {
    var s := a + "_" + b;
    assert s[3] == a[3] && IsDigit(a[3]);
    assert '_' !in a && '_' !in b by {
      assert forall i :: 0 <= i < |a| ==> IsDigit(a[i]);
      assert forall i :: 0 <= i < |b| ==> IsDigit(b[i]);
    }
    FallbackOfTwoParts(a, b);
  }

  /** The label of an unparsed `<a>_<b>` whose parts hold no `_`. */
  lemma FallbackOfTwoParts(a: string, b: string)
    requires '_' !in a && '_' !in b && ParseMonthYear(a + "_" + b).None?
    ensures PeriodLabel(a + "_" + b) == a + "-" + b
  {
    ReplaceAllFirst(a, '_', b, "-");
    ReplaceAllAbsent(b, "_", "-");
  }

  lemma FullMonthNameExample(s: string)
    requires s == "sept_2025"
    ensures PeriodLabel(s) == "sept-2025"
  {
    assert s == "sept" + "_" + "2025";
    FallbackOfTwoParts("sept", "2025");
  }

  /** A month pandas cannot represent as a Timestamp is not parsed, so the label keeps the text. */
  lemma OutOfRangeFallsBack(mon: string, year: nat)
    requires 1 <= year < 1677 && |mon| == 3 && '_' !in mon
    ensures PeriodLabel(mon + "_" + FixedDigits(year, 4)) == mon + "-" + FixedDigits(year, 4)
  {
    var b := FixedDigits(year, 4);
    var s := mon + "_" + b;
    assert s[3] == '_' && s[4..] == b;
    assert Pow10(4) == 10000;
    ValueOfFixedDigits(year, 4);
    assert '_' !in b by {
      assert forall i :: 0 <= i < |b| ==> IsDigit(b[i]);
    }
    FallbackOfTwoParts(mon, b);
  }
}
