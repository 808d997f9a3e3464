/**
 * Text primitives the modelled code takes from Python: ASCII decimal digits and their value,
 * decimal rendering (`str(n)`, `strftime` zero padding), `str.startswith`, `str.replace`,
 * and ASCII lower-casing.
 */
module Text {

  predicate IsDigit(c: char)
  {
    '0' <= c <= '9'
  }

  predicate AllDigits(s: string)
  {
    forall i :: 0 <= i < |s| ==> IsDigit(s[i])
  }

  function DigitValue(c: char): nat
    requires IsDigit(c)
  {
    c as int - '0' as int
  }

  function DigitChar(d: nat): (c: char)
    requires d < 10
    ensures IsDigit(c) && DigitValue(c) == d
  {
    ('0' as int + d) as char
  }

  function Pow10(k: nat): (r: nat)
    ensures r >= 1
  {
    if k == 0 then 1 else 10 * Pow10(k - 1)
  }

  /** The value of a string of decimal digits, most significant first (`int(s)`). */
  function Value(s: string): nat
    requires AllDigits(s)
  {
    if s == [] then 0 else 10 * Value(s[..|s| - 1]) + DigitValue(s[|s| - 1])
  }

  /** `str(n)` for a natural number: no leading zeros. */
  function DecimalText(n: nat): (r: string)
    ensures |r| > 0 && AllDigits(r)
  {
    if n < 10 then [DigitChar(n)] else DecimalText(n / 10) + [DigitChar(n % 10)]
  }

  /** The last `width` decimal digits of `n`, zero-padded on the left (`%04d`, `%02d`). */
  function FixedDigits(n: nat, width: nat): (r: string)
    ensures |r| == width && AllDigits(r)
  {
    if width == 0 then [] else FixedDigits(n / 10, width - 1) + [DigitChar(n % 10)]
  }

  /** `str(i)` for a Python `int`, with a minus sign for negatives. */
  function IntText(i: int): string
  {
    if i < 0 then "-" + DecimalText(-i) else DecimalText(i)
  }

  lemma {:induction false} ValueOfDecimalText(n: nat)
    ensures Value(DecimalText(n)) == n
  {
    if n >= 10 {
      var t := DecimalText(n);
      assert t[..|t| - 1] == DecimalText(n / 10);
      ValueOfDecimalText(n / 10);
    }
  }

  lemma {:induction false} ValueOfFixedDigits(n: nat, width: nat)
    requires n < Pow10(width)
    ensures Value(FixedDigits(n, width)) == n
  {
    if width > 0 {
      var t := FixedDigits(n, width);
      assert t[..|t| - 1] == FixedDigits(n / 10, width - 1);
      ValueOfFixedDigits(n / 10, width - 1);
    }
  }

  /** A digit string is the zero-padded rendering of its own value at its own width. */
  lemma {:induction false} FixedDigitsOfValue(s: string)
    requires AllDigits(s)
    ensures FixedDigits(Value(s), |s|) == s
  {
    if s != [] {
      var init := s[..|s| - 1];
      FixedDigitsOfValue(init);
      var v := Value(s);
      assert v / 10 == Value(init) && v % 10 == DigitValue(s[|s| - 1]);
      assert s == init + [s[|s| - 1]];
    }
  }

  lemma {:induction false} ValueAppend(a: string, b: string)
    requires AllDigits(a) && AllDigits(b)
    ensures AllDigits(a + b) && Value(a + b) == Value(a) * Pow10(|b|) + Value(b)
    decreases |b|
  {
    assert AllDigits(a + b) by {
      forall i | 0 <= i < |a + b| ensures IsDigit((a + b)[i]) {
        if i < |a| { assert (a + b)[i] == a[i]; } else { assert (a + b)[i] == b[i - |a|]; }
      }
    }
    if b == [] {
      assert a + b == a;
    } else {
      var b' := b[..|b| - 1];
      assert (a + b)[..|a + b| - 1] == a + b';
      ValueAppend(a, b');
      var va, vb, p, d := Value(a), Value(b'), Pow10(|b'|), DigitValue(b[|b| - 1]);
      assert Value(a + b) == 10 * (va * p + vb) + d;
      assert Pow10(|b|) == 10 * p;
      assert Value(b) == 10 * vb + d;
      MulAssoc10(va, p);
    }
  }

  lemma MulAssoc10(x: nat, y: nat)
    ensures 10 * (x * y) == x * (10 * y)
  {
  }

  predicate StartsWith(s: string, prefix: string)
  {
    |prefix| <= |s| && s[..|prefix|] == prefix
  }

  /**
   * Python's `s.replace(pattern, replacement)`: every non-overlapping occurrence of `pattern`,
   * scanning from the left, is replaced.
   */
  function ReplaceAll(s: string, pattern: string, replacement: string): string
    requires |pattern| > 0
    decreases |s|
  {
    if |s| < |pattern| then s
    else if s[..|pattern|] == pattern then replacement + ReplaceAll(s[|pattern|..], pattern, replacement)
    else [s[0]] + ReplaceAll(s[1..], pattern, replacement)
  }

  /** Replacing a one-character pattern by text that does not contain it removes it everywhere. */
  lemma {:induction false} ReplaceAllRemoves(s: string, c: char, replacement: string)
    requires c !in replacement
    ensures c !in ReplaceAll(s, [c], replacement)
    decreases |s|
  {
    if |s| >= 1 {
      if s[..1] == [c] {
        ReplaceAllRemoves(s[1..], c, replacement);
      } else {
        assert s[0] != c by { assert s[..1] == [s[0]]; }
        ReplaceAllRemoves(s[1..], c, replacement);
      }
    }
  }

  /** Text in which the pattern's first character never occurs is left as it is. */
  lemma {:induction false} ReplaceAllAbsent(s: string, pattern: string, replacement: string)
    requires |pattern| > 0 && pattern[0] !in s
    ensures ReplaceAll(s, pattern, replacement) == s
    decreases |s|
  {
    if |s| >= |pattern| {
      assert s[..|pattern|][0] == s[0];
      ReplaceAllAbsent(s[1..], pattern, replacement);
      assert s == [s[0]] + s[1..];
    }
  }

  /** A string that starts with the pattern has it replaced there, and the scan goes on after it. */
  lemma ReplaceAllAtStart(pattern: string, rest: string, replacement: string)
    requires |pattern| > 0
    ensures ReplaceAll(pattern + rest, pattern, replacement) == replacement + ReplaceAll(rest, pattern, replacement)
  {
    var s := pattern + rest;
    assert s[..|pattern|] == pattern && s[|pattern|..] == rest;
  }

  /** The first occurrence of a one-character pattern is the first one replaced. */
  lemma {:induction false} ReplaceAllFirst(a: string, c: char, b: string, replacement: string)
    requires c !in a
    ensures ReplaceAll(a + [c] + b, [c], replacement) == a + replacement + ReplaceAll(b, [c], replacement)
    decreases |a|
  {
    var s := a + [c] + b;
    if a == [] {
      assert s[..1] == [c] && s[1..] == b;
    } else {
      var t := a[1..] + [c] + b;
      assert a[0] != c;
      assert s[..1] == [a[0]] && s[..1] != [c] && s[1..] == t;
      assert ReplaceAll(s, [c], replacement) == [a[0]] + ReplaceAll(t, [c], replacement);
      ReplaceAllFirst(a[1..], c, b, replacement);
      assert a == [a[0]] + a[1..];
    }
  }

  /** A string that starts with the pattern starts with the replacement afterwards. */
  lemma ReplaceAllKeepsPrefix(s: string, pattern: string, replacement: string)
    requires |pattern| > 0 && StartsWith(s, pattern)
    ensures StartsWith(ReplaceAll(s, pattern, replacement), replacement)
  {
  }

  function LowerChar(c: char): char
  {
    if 'A' <= c <= 'Z' then (c as int + 32) as char else c
  }

  /** ASCII case folding, as a case-insensitive regular expression applies it to English month names. */
  function Lower(s: string): (r: string)
    ensures |r| == |s| && forall i :: 0 <= i < |s| ==> r[i] == LowerChar(s[i])
  {
    if s == [] then [] else [LowerChar(s[0])] + Lower(s[1..])
  }
}
