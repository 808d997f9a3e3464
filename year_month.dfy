/**
 * `_ensure_yyyy_mm` in server.py: `datetime.strptime(month, "%Y-%m")` must succeed.
 * `%Y` takes exactly four digits, `%m` takes 1-9, 01-09 or 10-12, the whole string must be
 * consumed, and the year must be at least 1 (datetime has no year 0).
 */
module YearMonth {
  import opened Wrappers
  import opened Text

  const FormatMessage := "month must be in YYYY-MM format, e.g. 2025-07"

  /** What the `%m` directive accepts when nothing may follow it. */
  function MonthField(s: string): (r: Option<nat>)
    ensures r.Some? ==> 1 <= r.value <= 12
  {
    if |s| == 1 && '1' <= s[0] <= '9' then Some(DigitValue(s[0]))
    else if |s| == 2 && s[0] == '0' && '1' <= s[1] <= '9' then Some(DigitValue(s[1]))
    else if |s| == 2 && s[0] == '1' && '0' <= s[1] <= '2' then Some(10 + DigitValue(s[1]))
    else None
  }

  /** `datetime.strptime(s, "%Y-%m")`: the year and month, or None where it raises ValueError. */
  function ParseYearMonth(s: string): (r: Option<(nat, nat)>)
    ensures r.Some? ==> 1 <= r.value.0 && 1 <= r.value.1 <= 12
  {
    if |s| >= 5 && AllDigits(s[..4]) && s[4] == '-' && MonthField(s[5..]).Some? && Value(s[..4]) >= 1 then
      Some((Value(s[..4]), MonthField(s[5..]).value))
    else None
  }

  predicate IsYearMonth(s: string)
  {
    ParseYearMonth(s).Some?
  }

  /** `_ensure_yyyy_mm(month)`: returns normally, or raises ValueError with the format message. */
  function EnsureYearMonth(month: string): (r: Result<(), string>)
    ensures r.Ok? || r.error == FormatMessage
  {
    if IsYearMonth(month) then Ok(()) else Err(FormatMessage)
  }

  /** The zero-padded `YYYY-MM` text of a year and month (`strftime('%Y-%m')`). */
  function Render(year: nat, month: nat): string
  {
    FixedDigits(year, 4) + "-" + FixedDigits(month, 2)
  }

  /** The `YYYY-MM` text of the month a valid string denotes ("2025-7" gives "2025-07"). */
  function Canonical(s: string): string
    requires IsYearMonth(s)
  {
    Render(ParseYearMonth(s).value.0, ParseYearMonth(s).value.1)
  }

  lemma MonthFieldRendered(m: nat)
    requires 1 <= m <= 12
    ensures MonthField(FixedDigits(m, 2)) == Some(m)
    ensures MonthField(DecimalText(m)) == Some(m)
  {
    var two := FixedDigits(m, 2);
    assert two == FixedDigits(m / 10, 1) + [DigitChar(m % 10)];
    assert FixedDigits(m / 10, 1) == [DigitChar(m / 10)];
    if m >= 10 {
      assert DecimalText(m) == two;
    } else {
      assert DecimalText(m) == [DigitChar(m)];
    }
  }

  /** Every year 1-9999 and month 1-12 is accepted, written with one or two month digits. */
  lemma AcceptsEveryMonth(year: nat, month: nat)
    requires 1 <= year <= 9999 && 1 <= month <= 12
    ensures ParseYearMonth(Render(year, month)) == Some((year, month))
    ensures ParseYearMonth(FixedDigits(year, 4) + "-" + DecimalText(month)) == Some((year, month))
  {
    MonthFieldRendered(month);
    assert Pow10(4) == 10000;
    ValueOfFixedDigits(year, 4);
    var y := FixedDigits(year, 4);
    var a, b := Render(year, month), y + "-" + DecimalText(month);
    assert a[..4] == y && a[4] == '-' && a[5..] == FixedDigits(month, 2);
    assert b[..4] == y && b[4] == '-' && b[5..] == DecimalText(month);
  }

  /** Conversely, an accepted string is one of those two spellings of its year and month. */
  lemma AcceptsOnlyMonths(s: string)
    requires IsYearMonth(s)
    ensures var (year, month) := ParseYearMonth(s).value;
      year <= 9999 &&
      (s == Render(year, month) || s == FixedDigits(year, 4) + "-" + DecimalText(month))
  {
    var (year, month) := ParseYearMonth(s).value;
    FixedDigitsOfValue(s[..4]);
    ValueBelowPow10(s[..4]);
    assert Pow10(4) == 10000;
    var rest := s[5..];
    MonthFieldRendered(month);
    if |rest| == 1 {
      assert rest == DecimalText(month);
    } else {
      assert FixedDigits(month, 2) == FixedDigits(month / 10, 1) + [DigitChar(month % 10)];
      assert rest == FixedDigits(month, 2);
    }
    assert s == s[..4] + "-" + rest;
  }

  lemma {:induction false} ValueBelowPow10(s: string)
    requires AllDigits(s)
    ensures Value(s) < Pow10(|s|)
  {
    if s != [] {
      ValueBelowPow10(s[..|s| - 1]);
    }
  }

  /** The canonical spelling of a valid month is valid and denotes the same month. */
  lemma CanonicalIsSameMonth(s: string)
    requires IsYearMonth(s)
    ensures ParseYearMonth(Canonical(s)) == ParseYearMonth(s)
    ensures |Canonical(s)| == 7
  {
    AcceptsOnlyMonths(s);
    var (year, month) := ParseYearMonth(s).value;
    AcceptsEveryMonth(year, month);
  }

  /** A valid month already written with two month digits is its own canonical spelling. */
  lemma CanonicalOfSevenChars(s: string)
    requires IsYearMonth(s) && |s| == 7
    ensures Canonical(s) == s
  {
    AcceptsOnlyMonths(s);
    var (year, month) := ParseYearMonth(s).value;
    if month >= 10 {
      assert DecimalText(month) == FixedDigits(month, 2) by {
        assert DecimalText(month / 10) == FixedDigits(month / 10, 1);
      }
    } else {
      assert |DecimalText(month)| == 1;
    }
  }

  lemma AcceptedExamples()
    ensures IsYearMonth("2025-07") && IsYearMonth("2025-7") && IsYearMonth("2025-12")
  {
    Accepted2025("07");
    Accepted2025("7");
    Accepted2025("12");
  }

  lemma Accepted2025(m: string)
    requires MonthField(m).Some?
    ensures IsYearMonth("2025-" + m)
  {
    var s := "2025-" + m;
    assert s[..4] == "2025" && s[4] == '-' && s[5..] == m;
    assert Value("2025") == 2025 by {
      assert Value("2") == 2;
      assert "20"[..1] == "2" && "202"[..2] == "20" && "2025"[..3] == "202";
    }
  }

  lemma RejectedExamples()
    ensures !IsYearMonth("2025-13") && !IsYearMonth("2025-00") && !IsYearMonth("2025-07-01")
    ensures !IsYearMonth("0000-01") && !IsYearMonth("2025/09") && !IsYearMonth("25-07")
  {
    assert "2025-13"[5..] == "13";
    assert "2025-00"[5..] == "00";
    assert "2025-07-01"[5..] == "07-01";
    assert "0000-01"[..4] == "0000";
    ValueOfFixedDigits(0, 4);
    assert FixedDigits(0, 4) == "0000";
  }
}
