/**
  Text as the C++ iostreams of the runtime produce it: integers written in
  decimal by `operator<<(int)`, plus the small parsing functions that are used to
  state that what was written can be read back.
 */
module Text {

  datatype Option<+T> = None | Some(value: T)

  predicate IsDigit(c: char) {
    '0' <= c <= '9'
  }

  predicate AllDigits(s: string) {
    forall i :: 0 <= i < |s| ==> IsDigit(s[i])
  }

  predicate StartsWith(s: string, prefix: string) {
    |prefix| <= |s| && s[..|prefix|] == prefix
  }

  predicate EndsWith(s: string, suffix: string) {
    |suffix| <= |s| && s[|s| - |suffix|..] == suffix
  }

  function DigitChar(d: nat): (c: char)
    requires d < 10
    ensures IsDigit(c)
  {
    ('0' as int + d) as char
  }

  function DigitValue(c: char): (d: nat)
    requires IsDigit(c)
    ensures d < 10 && DigitChar(d) == c
  {
    c as int - '0' as int
  }

  /** The decimal text of a non-negative integer: digits only, no leading zero. */
  function Decimal(n: nat): (s: string)
    ensures |s| > 0 && AllDigits(s)
    ensures |s| > 1 ==> s[0] != '0'
  {
    if n < 10 then [DigitChar(n)] else Decimal(n / 10) + [DigitChar(n % 10)]
  }

  /** Reads a non-empty run of decimal digits, most significant first. */
  function ParseDecimal(s: string): nat
    requires |s| > 0 && AllDigits(s)
  {
    if |s| == 1 then DigitValue(s[0])
    else 10 * ParseDecimal(s[..|s| - 1]) + DigitValue(s[|s| - 1])
  }

  lemma {:induction false} DecimalRoundTrip(n: nat)
    ensures ParseDecimal(Decimal(n)) == n
  {
    if n >= 10 {
      var s := Decimal(n);
      assert s[..|s| - 1] == Decimal(n / 10);
      assert s[|s| - 1] == DigitChar(n % 10);
      DecimalRoundTrip(n / 10);
    }
  }

  lemma DecimalInjective(m: nat, n: nat)
    ensures Decimal(m) == Decimal(n) ==> m == n
  {
    DecimalRoundTrip(m);
    DecimalRoundTrip(n);
  }

  /** The text `operator<<(int)` writes: the magnitude in decimal, after a '-' when negative. */
  function IntText(i: int): (s: string)
    ensures |s| > 0
    ensures forall k :: 0 <= k < |s| ==> IsDigit(s[k]) || (k == 0 && s[k] == '-')
  {
    if i < 0 then "-" + Decimal(-i) else Decimal(i)
  }

  function ParseInt(s: string): Option<int> {
    if |s| > 0 && AllDigits(s) then Some(ParseDecimal(s))
    else if |s| > 1 && s[0] == '-' && AllDigits(s[1..]) then Some(-(ParseDecimal(s[1..]) as int))
    else None
  }

  lemma IntRoundTrip(i: int)
    ensures ParseInt(IntText(i)) == Some(i)
  {
    if i < 0 {
      var s := IntText(i);
      assert s[1..] == Decimal(-i);
      assert !IsDigit(s[0]);
      DecimalRoundTrip(-i);
    } else {
      DecimalRoundTrip(i);
    }
  }

  /** Splits `s` just before the first occurrence of `c`, if there is one. */
  function SplitAtFirst(s: string, c: char): (r: Option<(string, string)>)
    ensures r.Some? ==> r.value.0 + r.value.1 == s && c !in r.value.0
                        && |r.value.1| > 0 && r.value.1[0] == c
    ensures r.None? ==> c !in s
  {
    if |s| == 0 then None
    else if s[0] == c then Some(([], s))
    else
      match SplitAtFirst(s[1..], c)
      case None => None
      case Some((before, from)) => Some(([s[0]] + before, from))
  }

  lemma {:induction false} SplitAtFirstOf(before: string, from: string, c: char)
    requires c !in before && |from| > 0 && from[0] == c
    ensures SplitAtFirst(before + from, c) == Some((before, from))
  {
    var s := before + from;
    if |before| > 0 {
      assert s[0] == before[0] != c;
      assert s[1..] == before[1..] + from;
      SplitAtFirstOf(before[1..], from, c);
      assert [before[0]] + before[1..] == before;
    } else {
      assert s == from;
    }
  }

  /** Splits `s` around the last occurrence of `c`, if there is one, dropping that `c`. */
  function SplitAtLast(s: string, c: char): (r: Option<(string, string)>)
    ensures r.Some? ==> r.value.0 + [c] + r.value.1 == s && c !in r.value.1
    ensures r.None? ==> c !in s
  {
    if |s| == 0 then None
    else if s[|s| - 1] == c then Some((s[..|s| - 1], []))
    else
      match SplitAtLast(s[..|s| - 1], c)
      case None => None
      case Some((before, after)) => Some((before, after + [s[|s| - 1]]))
  }

  lemma {:induction false} SplitAtLastOf(before: string, c: char, after: string)
    requires c !in after
    ensures SplitAtLast(before + [c] + after, c) == Some((before, after))
  {
    var s := before + [c] + after;
    if |after| == 0 {
      assert s[..|s| - 1] == before;
    } else {
      var last := after[|after| - 1];
      assert s[|s| - 1] == last != c;
      assert s[..|s| - 1] == before + [c] + after[..|after| - 1];
      SplitAtLastOf(before, c, after[..|after| - 1]);
      assert after[..|after| - 1] + [last] == after;
    }
  }

  /** The text between a known prefix and a known suffix of `s`. */
  function Between(s: string, prefix: string, suffix: string): (r: Option<string>)
    ensures r.Some? ==> prefix + r.value + suffix == s
    ensures r.None? ==> forall m :: prefix + m + suffix != s
  {
    if |prefix| + |suffix| <= |s| && s[..|prefix|] == prefix && s[|s| - |suffix|..] == suffix then
      var m := s[|prefix|..|s| - |suffix|];
      assert prefix + m + suffix == s;
      Some(m)
    else
      None
  }

  lemma BetweenOf(prefix: string, m: string, suffix: string)
    ensures Between(prefix + m + suffix, prefix, suffix) == Some(m)
  {
    var r := Between(prefix + m + suffix, prefix, suffix);
    assert |r.value| == |m|;
    assert r.value == (prefix + r.value + suffix)[|prefix|..|prefix| + |m|];
    assert m == (prefix + m + suffix)[|prefix|..|prefix| + |m|];
  }
}
