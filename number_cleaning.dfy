/**
 * The string branch of `clean_number` in mcp-data-processing/create_training_data.py:
 * delete every `"` and `,`, then read what is left as a decimal integer when it is a
 * non-empty string of digits, and as 0 otherwise.
 */
module NumberCleaning {
  import opened Wrappers
  import opened Sequences
  import opened Text

  predicate IsSeparator(c: char)
  {
    c == '"' || c == ','
  }

  predicate Kept(c: char)
  {
    !IsSeparator(c)
  }

  /** `re.sub(r'[",]', '', value)` */
  function StripSeparators(s: string): string
  {
    Filter(s, Kept)
  }

  /**
   * `clean_number(value)` for a string `value`. Only ASCII digits count as digits; see
   * CleanNumberAsWritten for what `str.isdigit` accepts beyond them.
   */
  function CleanNumber(s: string): (r: nat)
    ensures r > 0 ==> forall c :: c in s ==> IsDigit(c) || IsSeparator(c)
  {
    var t := StripSeparators(s);
    if |t| > 0 && AllDigits(t) then
      assert forall c :: c in t ==> IsDigit(c);
      Value(t)
    else 0
  }

  /** A character other than a digit, `"` or `,` (a minus sign, a space, a decimal point) forces 0. */
  lemma CleanNumberRejects(s: string, i: nat)
    requires i < |s| && !IsDigit(s[i]) && !IsSeparator(s[i])
    ensures CleanNumber(s) == 0
  {
  }

  /** A blank cell, or one holding only `"` and `,` (`""`, `","`), leaves nothing to read: 0. */
  lemma CleanNumberOfSeparators(s: string)
    requires forall i :: 0 <= i < |s| ==> IsSeparator(s[i])
    ensures CleanNumber(s) == 0
  {
    StripOnlySeparators(s);
  }

  /** When only digits and separators remain, the result is the value of the digits. */
  lemma CleanNumberReadsDigits(s: string)
    requires forall i :: 0 <= i < |s| ==> IsDigit(s[i]) || IsSeparator(s[i])
    requires exists i :: 0 <= i < |s| && IsDigit(s[i])
    ensures AllDigits(StripSeparators(s)) && CleanNumber(s) == Value(StripSeparators(s))
  {
    var t := StripSeparators(s);
    var i :| 0 <= i < |s| && IsDigit(s[i]);
    assert s[i] in t;
    forall j | 0 <= j < |t| ensures IsDigit(t[j]) {
      assert t[j] in s;
    }
  }

  /** `n` written with a comma between groups of three digits, as in "45,000". */
  function Grouped(n: nat): string
  {
    if n < 1000 then DecimalText(n) else Grouped(n / 1000) + "," + FixedDigits(n % 1000, 3)
  }

  lemma {:induction false} StripDigits(s: string)
    requires AllDigits(s)
    ensures StripSeparators(s) == s
  {
    if s != [] {
      StripDigits(s[..|s| - 1]);
      assert s == s[..|s| - 1] + [s[|s| - 1]];
    }
  }

  lemma StripAround(head: string, sep: string, tail: string)
    requires forall i :: 0 <= i < |sep| ==> IsSeparator(sep[i])
    requires AllDigits(tail)
    ensures StripSeparators(head + sep + tail) == StripSeparators(head) + tail
  {
    StripConcat3(head, sep, tail);
    StripOnlySeparators(sep);
    StripDigits(tail);
  }

  lemma {:induction false} StripOnlySeparators(s: string)
    requires forall i :: 0 <= i < |s| ==> IsSeparator(s[i])
    ensures StripSeparators(s) == []
  {
    if s != [] {
      StripOnlySeparators(s[..|s| - 1]);
    }
  }

  lemma {:induction false} StrippedGrouped(n: nat)
    ensures |StripSeparators(Grouped(n))| > 0
    ensures AllDigits(StripSeparators(Grouped(n)))
    ensures Value(StripSeparators(Grouped(n))) == n
  {
    if n < 1000 {
      StripDigits(DecimalText(n));
      ValueOfDecimalText(n);
    } else {
      var q, r := n / 1000, n % 1000;
      var head, tail := Grouped(q), FixedDigits(r, 3);
      assert Grouped(n) == head + "," + tail;
      StrippedGrouped(q);
      StripAround(head, ",", tail);
      var digits := StripSeparators(head);
      ValueAppend(digits, tail);
      ValueOfFixedDigits(r, 3);
      assert Pow10(3) == 1000;
      assert Value(digits + tail) == q * 1000 + r;
    }
  }

  lemma StripConcat3(a: string, b: string, c: string)
    ensures StripSeparators(a + b + c) == StripSeparators(a) + StripSeparators(b) + StripSeparators(c)
  {
    FilterAppend(a + b, c, Kept);
    FilterAppend(a, b, Kept);
  }

  /** A thousands-separated number, quoted or not, normalises back to itself. */
  lemma CleanNumberOfGrouped(n: nat)
    ensures CleanNumber(Grouped(n)) == n
    ensures CleanNumber("\"" + Grouped(n) + "\"") == n
  {
    StrippedGrouped(n);
    QuotesIgnored(Grouped(n), "\"");
  }

  /** Surrounding a text with separators does not change what is left of it. */
  lemma QuotesIgnored(g: string, quote: string)
    requires forall i :: 0 <= i < |quote| ==> IsSeparator(quote[i])
    ensures StripSeparators(quote + g + quote) == StripSeparators(g)
  {
    StripConcat3(quote, g, quote);
    StripOnlySeparators(quote);
  }

  /** The plain decimal rendering of a count normalises back to the count. */
  lemma CleanNumberOfDecimalText(n: nat)
    ensures CleanNumber(DecimalText(n)) == n
  {
    StripDigits(DecimalText(n));
    ValueOfDecimalText(n);
  }

  // ---- clean_number as written -------------------------------------------------------

  /**
   * Characters that Python's `str.isdigit` accepts but `int` refuses: superscript one, two
   * and three (the model lists only these).
   */
  predicate IsSuperscriptDigit(c: char)
  {
    c == '\U{00B9}' || c == '\U{00B2}' || c == '\U{00B3}'
  }

  /** `str.isdigit`, as far as the model's character classes go. */
  predicate IsDigitLike(c: char)
  {
    IsDigit(c) || IsSuperscriptDigit(c)
  }

  /**
   * `clean_number` as written: `value.isdigit()` guards `int(value)`, so a string that
   * passes the guard but holds a superscript digit makes `int` raise (None).
   */
  function CleanNumberAsWritten(s: string): Option<nat>
  {
    var t := StripSeparators(s);
    if |t| > 0 && (forall i :: 0 <= i < |t| ==> IsDigitLike(t[i])) then
      (if AllDigits(t) then Some(Value(t)) else None)
    else Some(0)
  }

  lemma SuperscriptRaises()
    ensures CleanNumberAsWritten("\U{00B2}") == None
    ensures CleanNumber("\U{00B2}") == 0
  {
    assert StripSeparators("\U{00B2}") == "\U{00B2}" by {
      assert "\U{00B2}"[..0] == [];
    }
  }

  /** On text without superscript digits the code as written and the corrected one agree. */
  lemma AsWrittenAgrees(s: string)
    requires forall i :: 0 <= i < |s| ==> !IsSuperscriptDigit(s[i])
    ensures CleanNumberAsWritten(s) == Some(CleanNumber(s))
  {
    var t := StripSeparators(s);
    forall i | 0 <= i < |t| ensures !IsSuperscriptDigit(t[i]) {
      assert t[i] in s;
    }
  }
}
