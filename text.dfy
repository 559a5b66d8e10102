/** Character and string helpers: decimal digits, Python 2's `int()` on a
    string, `str()` of an integer, and `','.join` / `str.split(',')`. */
module Text {
  import opened Wrappers

  predicate IsDigit(c: char) {
    '0' <= c <= '9'
  }

  function DigitValue(c: char): (d: int)
    requires IsDigit(c)
    ensures 0 <= d <= 9
  {
    c as int - '0' as int
  }

  function DigitChar(d: int): (c: char)
    requires 0 <= d <= 9
    ensures IsDigit(c) && DigitValue(c) == d
  {
    ('0' as int + d) as char
  }

  /** C's `isspace`: space, tab, newline, vertical tab, form feed, return. */
  predicate IsSpace(c: char) {
    c == ' ' || 9 <= c as int <= 13
  }

  predicate AllDigits(s: string) {
    forall i | 0 <= i < |s| :: IsDigit(s[i])
  }

  /** The number a string of decimal digits denotes. */
  function DigitsValue(s: string): nat
    requires AllDigits(s)
  {
    if s == [] then 0 else 10 * DigitsValue(s[..|s| - 1]) + DigitValue(s[|s| - 1])
  }

  /** The shortest decimal digits of `n`. */
  function NatDigits(n: nat): (s: string)
    ensures |s| > 0 && AllDigits(s)
  {
    if n < 10 then [DigitChar(n)] else NatDigits(n / 10) + [DigitChar(n % 10)]
  }

  lemma {:induction false} NatDigitsValue(n: nat)
    ensures DigitsValue(NatDigits(n)) == n
  {
    var s := NatDigits(n);
    if n >= 10 {
      NatDigitsValue(n / 10);
      assert s[..|s| - 1] == NatDigits(n / 10);
    }
  }

  /** Python's `str(i)` for an integer. */
  function FormatInt(i: int): string {
    if i < 0 then "-" + NatDigits(-i) else NatDigits(i)
  }

  function TrimLeft(s: string): (r: string)
    ensures |r| <= |s| && (r != [] ==> !IsSpace(r[0]))
    ensures r == s[|s| - |r|..]
  {
    if s != [] && IsSpace(s[0]) then TrimLeft(s[1..]) else s
  }

  function TrimRight(s: string): (r: string)
    ensures |r| <= |s| && (r != [] ==> !IsSpace(r[|r| - 1]))
    ensures r == s[..|r|]
  {
    if s != [] && IsSpace(s[|s| - 1]) then TrimRight(s[..|s| - 1]) else s
  }

  /** Python 2's `int(s)` in base 10: surrounding whitespace is ignored,
      then an optional sign and one or more decimal digits; anything else
      raises ValueError (here: None). */
  function ParseDecimal(s: string): Option<int> {
    ParseStripped(TrimRight(TrimLeft(s)))
  }

  /** `int()` on text whose surrounding whitespace is already gone. */
  function ParseStripped(t: string): Option<int> {
    if |t| > 0 && (t[0] == '-' || t[0] == '+') then
      var d := t[1..];
      if |d| > 0 && AllDigits(d) then
        var v: int := DigitsValue(d);
        Some(if t[0] == '-' then -v else v)
      else None
    else if |t| > 0 && AllDigits(t) then Some(DigitsValue(t))
    else None
  }

  /** Text with no whitespace at either end is left alone by `strip()`. */
  lemma TrimNothing(s: string)
    requires s != [] && !IsSpace(s[0]) && !IsSpace(s[|s| - 1])
    ensures TrimLeft(s) == s && TrimRight(s) == s
  {
  }

  /** `int()` depends only on the stripped text. */
  lemma ParseDecimalTrimmed(s: string, t: string)
    requires TrimRight(TrimLeft(s)) == TrimRight(TrimLeft(t))
    ensures ParseDecimal(s) == ParseDecimal(t)
  {
  }

  lemma ParseDigits(d: string)
    requires |d| > 0 && AllDigits(d)
    ensures ParseDecimal(d) == Some(DigitsValue(d))
  {
    assert IsDigit(d[0]) && IsDigit(d[|d| - 1]);
    TrimNothing(d);
  }

  lemma ParseNegative(d: string)
    requires |d| > 0 && AllDigits(d)
    ensures ParseDecimal("-" + d) == Some(-(DigitsValue(d) as int))
  {
    var t := "-" + d;
    assert t[0] == '-' && t[1..] == d && t[|t| - 1] == d[|d| - 1];
    assert IsDigit(d[|d| - 1]);
    TrimNothing(t);
    SignedDigits(t, d);
  }

  lemma SignedDigits(t: string, d: string)
    requires TrimRight(TrimLeft(t)) == t && |t| > 0 && t[0] == '-' && t[1..] == d
    requires |d| > 0 && AllDigits(d)
    ensures ParseDecimal(t) == Some(-(DigitsValue(d) as int))
  {
    assert ParseDecimal(t) == ParseStripped(t);
    assert ParseStripped(t) == Some(-(DigitsValue(d) as int));
  }

  /** `int(str(i)) == i`. */
  lemma ParseFormatInt(i: int)
    ensures ParseDecimal(FormatInt(i)) == Some(i)
  {
    if i < 0 {
      ParseFormatNegative(i);
    } else {
      ParseFormatNatural(i);
    }
  }

  lemma ParseFormatNegative(i: int)
    requires i < 0
    ensures ParseDecimal(FormatInt(i)) == Some(i)
  {
    var d := NatDigits(-i);
    NatDigitsValue(-i);
    ParseNegative(d);
    NegatedValue(i, DigitsValue(d));
    assert FormatInt(i) == "-" + d;
  }

  lemma NegatedValue(i: int, n: nat)
    requires n == -i
    ensures -(n as int) == i
  {
  }

  lemma ParseFormatNatural(i: int)
    requires i >= 0
    ensures ParseDecimal(FormatInt(i)) == Some(i)
  {
    var d := NatDigits(i);
    assert FormatInt(i) == d;
    NatDigitsValue(i);
    ParseDigits(d);
  }

  predicate AllSpace(s: string) {
    forall i | 0 <= i < |s| :: IsSpace(s[i])
  }

  /** Surrounding whitespace does not change what `int()` reads. */
  lemma ParseDecimalPadded(i: int, a: string, b: string)
    requires AllSpace(a) && AllSpace(b)
    ensures ParseDecimal(a + FormatInt(i) + b) == Some(i)
  {
    var s := FormatInt(i);
    FormatIntEnds(i);
    PaddedTrim(a, s, b);
    TrimNothing(s);
    ParseDecimalTrimmed(a + s + b, s);
    ParseFormatInt(i);
  }

  /** `str(i)` starts with a sign or a digit and ends with a digit. */
  lemma FormatIntEnds(i: int)
    ensures var s := FormatInt(i); s != [] && !IsSpace(s[0]) && !IsSpace(s[|s| - 1])
  {
    var s := FormatInt(i);
    if i < 0 {
      assert s[0] == '-';
    } else {
      assert IsDigit(s[0]);
    }
    assert IsDigit(s[|s| - 1]);
  }

  lemma PaddedTrim(a: string, s: string, b: string)
    requires AllSpace(a) && AllSpace(b)
    requires s != [] && !IsSpace(s[0]) && !IsSpace(s[|s| - 1])
    ensures TrimRight(TrimLeft(a + s + b)) == s
  {
    PaddedLeft(a, s, b);
    TrimRightSpaces(s, b);
    TrimNothing(s);
  }

  lemma PaddedLeft(a: string, s: string, b: string)
    requires AllSpace(a) && s != [] && !IsSpace(s[0])
    ensures TrimLeft(a + s + b) == s + b
  {
    var q := s + b;
    assert a + s + b == a + q;
    TrimLeftSpaces(a, q);
    assert q[0] == s[0];
    TrimLeftNoSpace(q);
  }

  lemma TrimLeftNoSpace(q: string)
    requires q != [] && !IsSpace(q[0])
    ensures TrimLeft(q) == q
  {
  }

  /** Leading whitespace is dropped by `TrimLeft`. */
  lemma {:induction false} TrimLeftSpaces(a: string, q: string)
    requires AllSpace(a)
    ensures TrimLeft(a + q) == TrimLeft(q)
  {
    if a == [] {
      assert a + q == q;
    } else {
      assert (a + q)[0] == a[0] && (a + q)[1..] == a[1..] + q;
      assert AllSpace(a[1..]) by {
        forall k | 0 <= k < |a| - 1 ensures IsSpace(a[1..][k]) {
          assert a[1..][k] == a[k + 1];
        }
      }
      TrimLeftSpaces(a[1..], q);
    }
  }

  /** Trailing whitespace is dropped by `TrimRight`. */
  lemma {:induction false} TrimRightSpaces(q: string, b: string)
    requires AllSpace(b)
    ensures TrimRight(q + b) == TrimRight(q)
  {
    if b == [] {
      assert q + b == q;
    } else {
      var n := q + b;
      var b' := b[..|b| - 1];
      assert n[|n| - 1] == b[|b| - 1] && n[..|n| - 1] == q + b';
      assert AllSpace(b') by {
        forall k | 0 <= k < |b'| ensures IsSpace(b'[k]) {
          assert b'[k] == b[k];
        }
      }
      TrimRightSpaces(q, b');
    }
  }

  /** `sep.join(xs)`. */
  function Join(xs: seq<string>, sep: char): string {
    if |xs| == 0 then ""
    else if |xs| == 1 then xs[0]
    else xs[0] + [sep] + Join(xs[1..], sep)
  }

  /** `s.split(sep)`: the pieces between occurrences of `sep`; never empty. */
  function Split(s: string, sep: char): (r: seq<string>)
    ensures |r| > 0
  {
    if s == [] then [""]
    else
      var tail := Split(s[1..], sep);
      if s[0] == sep then [""] + tail else [[s[0]] + tail[0]] + tail[1..]
  }

  lemma {:induction false} SplitNoSep(x: string, rest: string, sep: char)
    requires sep !in x
    ensures Split(x + rest, sep) == [x + Split(rest, sep)[0]] + Split(rest, sep)[1..]
  {
    var r := Split(rest, sep);
    if x == [] {
      assert x + rest == rest;
      assert x + r[0] == r[0];
      assert r == [r[0]] + r[1..];
    } else {
      assert (x + rest)[1..] == x[1..] + rest;
      SplitNoSep(x[1..], rest, sep);
      assert [x[0]] + (x[1..] + Split(rest, sep)[0]) == x + Split(rest, sep)[0];
    }
  }

  /** Splitting a join gives back the pieces, provided none of them
      contains the separator and there is at least one. */
  lemma {:induction false} SplitJoin(xs: seq<string>, sep: char)
    requires |xs| > 0
    requires forall i | 0 <= i < |xs| :: sep !in xs[i]
    ensures Split(Join(xs, sep), sep) == xs
  {
    if |xs| == 1 {
      SplitNoSep(xs[0], "", sep);
      assert xs[0] + "" == xs[0];
    } else {
      var rest := [sep] + Join(xs[1..], sep);
      assert Join(xs, sep) == xs[0] + rest;
      SplitNoSep(xs[0], rest, sep);
      assert rest[1..] == Join(xs[1..], sep);
      SplitJoin(xs[1..], sep);
      assert Split(rest, sep) == [""] + xs[1..];
      assert Split(rest, sep)[0] == "" && Split(rest, sep)[1..] == xs[1..];
      assert xs[0] + "" == xs[0];
      assert xs == [xs[0]] + xs[1..];
    }
  }
}
