/**
 * The pieces of Kotlin and Java text formatting the app uses: decimal
 * rendering of an `Int` (`toString`, string templates), Java's `%d` and
 * `%02d` as they render under a locale with ASCII digits, and
 * `String.split` on one character. The decoders `ParseNat` and
 * `ParseInt` are reference inverses used to state round trips.
 */
module Text {
  import opened Wrappers

  predicate IsDigit(c: char) { '0' <= c <= '9' }

  predicate AllDigits(s: string) { forall i :: 0 <= i < |s| ==> IsDigit(s[i]) }

  /** A non-empty run of decimal digits. */
  predicate IsDigits(s: string) { |s| > 0 && AllDigits(s) }

  function DigitChar(d: int): (c: char)
    requires 0 <= d < 10
    ensures IsDigit(c)
  {
    ('0' as int + d) as char
  }

  function DigitValue(c: char): (d: int)
    requires IsDigit(c)
    ensures 0 <= d < 10
  {
    c as int - '0' as int
  }

  /** Decimal rendering of a non-negative number, most significant digit first, no leading zero. */
  function NatToString(n: nat): (r: string)
    ensures IsDigits(r)
    ensures n < 10 <==> |r| == 1
    ensures r[0] != '0' || n == 0
    decreases n
  {
    if n < 10 then [DigitChar(n)] else NatToString(n / 10) + [DigitChar(n % 10)]
  }

  /** Kotlin's rendering of an `Int`: a minus sign before the digits of a negative number. */
  function IntToString(i: int): (r: string)
    ensures i >= 0 ==> IsDigits(r)
    ensures i < 0 ==> |r| >= 2 && r[0] == '-' && IsDigits(r[1..])
  {
    if i < 0 then "-" + NatToString(-i) else NatToString(i)
  }

  /** Java's `%02d` with ASCII digits: width two, padded with a zero; a negative number already has width two. */
  function PadTwo(i: int): (r: string)
    ensures |r| >= 2
    ensures i >= 0 ==> IsDigits(r)
    ensures 0 <= i < 100 ==> |r| == 2
  {
    if 0 <= i < 10 then "0" + NatToString(i) else IntToString(i)
  }

  /** The value of a run of digits, leading zeros allowed. */
  function DigitsValue(s: string): nat
    requires AllDigits(s)
  {
    if s == [] then 0 else DigitsValue(s[..|s| - 1]) * 10 + DigitValue(s[|s| - 1])
  }

  function ParseNat(s: string): (r: Option<nat>)
    ensures r.Some? <==> IsDigits(s)
  {
    if IsDigits(s) then Some(DigitsValue(s)) else None
  }

  function ParseInt(s: string): Option<int> {
    if |s| > 0 && s[0] == '-' then
      match ParseNat(s[1..])
      case Some(n) => var v: int := n; Some(-v)
      case None => None
    else
      match ParseNat(s)
      case Some(n) => Some(n)
      case None => None
  }

  /**
   * Kotlin's `s.split(sep)`: the pieces between consecutive separators, so a
   * string with k separators gives k + 1 pieces.
   */
  function Split(s: string, sep: char): (r: seq<string>)
    ensures |r| >= 1
    ensures forall k :: 0 <= k < |r| ==> sep !in r[k]
    decreases |s|
  {
    if |s| == 0 then [""]
    else
      var rest := Split(s[1..], sep);
      if s[0] == sep then [""] + rest else [[s[0]] + rest[0]] + rest[1..]
  }

  lemma DigitsHaveNo(s: string, c: char)
    requires AllDigits(s) && !IsDigit(c)
    ensures c !in s
  {
  }

  /** A rendered `Int` holds only digits and a leading minus sign. */
  lemma IntHasNo(i: int, c: char)
    requires !IsDigit(c) && c != '-'
    ensures c !in IntToString(i)
  {
    if i < 0 {
      DigitsHaveNo(NatToString(-i), c);
    } else {
      DigitsHaveNo(NatToString(i), c);
    }
  }

  lemma {:induction false} LastDigit(p: string, d: int)
    requires AllDigits(p) && 0 <= d < 10
    ensures AllDigits(p + [DigitChar(d)])
    ensures DigitsValue(p + [DigitChar(d)]) == DigitsValue(p) * 10 + d
  {
    var s := p + [DigitChar(d)];
    assert s[..|s| - 1] == p;
  }

  lemma {:induction false} NatToStringRoundTrip(n: nat)
    ensures ParseNat(NatToString(n)) == Some(n)
    decreases n
  {
    if n < 10 {
      LastDigit([], n);
      assert [] + [DigitChar(n)] == NatToString(n);
    } else {
      NatToStringRoundTrip(n / 10);
      LastDigit(NatToString(n / 10), n % 10);
    }
  }

  lemma {:induction false} IntToStringRoundTrip(i: int)
    ensures ParseInt(IntToString(i)) == Some(i)
  {
    var s := IntToString(i);
    if i < 0 {
      NatToStringRoundTrip(-i);
      assert s[0] == '-' && s[1..] == NatToString(-i);
      assert ParseNat(s[1..]) == Some(-i);
    } else {
      NatToStringRoundTrip(i);
      assert s == NatToString(i) && IsDigit(s[0]);
    }
  }

  /** A leading zero does not change the value of a run of digits. */
  lemma {:induction false} LeadingZero(s: string)
    requires AllDigits(s)
    ensures AllDigits("0" + s) && DigitsValue("0" + s) == DigitsValue(s)
    decreases |s|
  {
    if s != [] {
      var p := s[..|s| - 1];
      LeadingZero(p);
      assert ("0" + s)[..|"0" + s| - 1] == "0" + p;
    }
  }

  lemma {:induction false} PadTwoRoundTrip(i: int)
    requires i >= 0
    ensures ParseNat(PadTwo(i)) == Some(i)
  {
    NatToStringRoundTrip(i);
    if i < 10 {
      LeadingZero(NatToString(i));
    }
  }

  /** A string without the separator is one piece. */
  lemma {:induction false} SplitWhole(a: string, sep: char)
    requires sep !in a
    ensures Split(a, sep) == [a]
    decreases |a|
  {
    if |a| > 0 {
      SplitWhole(a[1..], sep);
      assert [a[0]] + a[1..] == a;
    }
  }

  /** Splitting at the first separator. */
  lemma {:induction false} SplitFirst(a: string, b: string, sep: char)
    requires sep !in a
    ensures Split(a + [sep] + b, sep) == [a] + Split(b, sep)
    decreases |a|
  {
    var s := a + [sep] + b;
    if |a| == 0 {
      assert s[1..] == b;
    } else {
      assert s[1..] == a[1..] + [sep] + b;
      SplitFirst(a[1..], b, sep);
      assert [a[0]] + a[1..] == a;
    }
  }

  /** Three pieces joined by the separator split back into those pieces. */
  lemma {:induction false} SplitThree(a: string, b: string, c: string, sep: char)
    requires sep !in a && sep !in b && sep !in c
    ensures Split(a + [sep] + (b + [sep] + c), sep) == [a, b, c]
  {
    SplitFirst(a, b + [sep] + c, sep);
    SplitFirst(b, c, sep);
    SplitWhole(c, sep);
  }

  /** Reference decoder for a "minutes:seconds" clock text: the number of seconds it denotes. */
  function DecodeClock(text: string): Option<int> {
    var parts := Split(text, ':');
    if |parts| != 2 then None
    else
      match (ParseNat(parts[0]), ParseNat(parts[1]))
      case (Some(m), Some(s)) => if s < 60 then Some(m * 60 + s) else None
      case _ => None
  }

  lemma {:induction false} DecodeClockOf(mText: string, sText: string, m: nat, s: nat)
    requires ParseNat(mText) == Some(m) && ParseNat(sText) == Some(s) && s < 60
    ensures DecodeClock(mText + ":" + sText) == Some(m * 60 + s)
  {
    DigitsHaveNo(mText, ':');
    DigitsHaveNo(sText, ':');
    SplitWhole(sText, ':');
    SplitFirst(mText, sText, ':');
  }
}
