/**
 * The date formatting helpers of the client: zero padding by slicing the last
 * digits off a zero-prefixed number, the day-first and year-first date strings,
 * the database date string and the dotted label of a numeric report date. The
 * calendar fields a Date yields for a parsed string are given as numbers.
 */
module Dates {
  import opened Text

  /** String.prototype.slice(-k): the last k characters, or the whole string when it is shorter. */
  function SliceLast(s: string, k: nat): (r: string)
    ensures |r| == if |s| <= k then |s| else k
    ensures r == s[|s| - |r|..]
  {
    if |s| <= k then s else s[|s| - k..]
  }

  /**
   * String.prototype.slice(start, end) for non-negative bounds: both are clamped
   * to the length, and an end before the start gives the empty string.
   */
  function Slice(s: string, start: nat, end: nat): (r: string)
    ensures start <= end <= |s| ==> r == s[start..end]
    ensures |s| <= start ==> r == []
  {
    var a := if start < |s| then start else |s|;
    var b := if end < |s| then end else |s|;
    if b <= a then [] else s[a..b]
  }

  function Zeros(k: nat): (r: string)
    ensures |r| == k && forall i :: 0 <= i < k ==> r[i] == '0'
  {
    if k == 0 then [] else Zeros(k - 1) + ['0']
  }

  function Pow10(k: nat): (r: nat)
    ensures r >= 1
  {
    if k == 0 then 1 else 10 * Pow10(k - 1)
  }

  /** ("00" + n).slice(-2) and ("0000" + n).slice(-4): n padded with zeros to w digits, keeping its last w digits. */
  function Pad(n: nat, w: nat): string
  {
    SliceLast(Zeros(w) + NatToString(n), w)
  }

  predicate AllDigits(s: string)
  {
    forall i :: 0 <= i < |s| ==> IsDigit(s[i])
  }

  /** Leading zeros do not change the value of a digit string. */
  lemma {:induction false} ZerosPrefixValue(k: nat, s: string)
    requires AllDigits(s)
    ensures AllDigits(Zeros(k) + s)
    ensures DigitsValue(Zeros(k) + s) == DigitsValue(s)
    decreases |s|
  {
    var z := Zeros(k);
    if |s| == 0 {
      assert z + s == z;
      ZerosValue(k);
    } else {
      var t := s[..|s| - 1];
      assert (z + s)[..|z + s| - 1] == z + t;
      ZerosPrefixValue(k, t);
    }
  }

  lemma {:induction false} ZerosValue(k: nat)
    ensures AllDigits(Zeros(k)) && DigitsValue(Zeros(k)) == 0
  {
    if k > 0 {
      ZerosValue(k - 1);
      assert Zeros(k)[..k - 1] == Zeros(k - 1);
    }
  }

  /** A positive multiple of m is at least m, and its negation at most -m. */
  lemma {:induction false} MulAtLeast(k: int, m: int)
    requires k >= 1 && m >= 0
    ensures k * m >= m && (-k) * m <= -m
    decreases k
  {
    if k > 1 {
      MulAtLeast(k - 1, m);
      assert k * m == (k - 1) * m + m;
      assert (-k) * m == (-(k - 1)) * m - m;
    }
  }

  /** The only multiple of m strictly between -m and m is zero. */
  lemma MulBetween(k: int, m: int)
    requires m > 0 && -m < k * m < m
    ensures k == 0
  {
    if k >= 1 {
      MulAtLeast(k, m);
    } else if k <= -1 {
      MulAtLeast(-k, m);
    }
  }

  /** Division by m leaves remainder r when x is q * m + r with 0 <= r < m. */
  lemma ModOfSplit(x: int, m: int, q: int, r: int)
    requires m > 0 && x == q * m + r && 0 <= r < m
    ensures x % m == r
  {
    var q', r' := x / m, x % m;
    assert x == q' * m + r';
    assert (q - q') * m == r' - r by {
      assert (q - q') * m == q * m - q' * m;
    }
    MulBetween(q - q', m);
  }

  /** The last w digits of a digit string are its value modulo 10^w, in quotient-and-remainder form. */
  lemma {:induction false} LastDigitsSplit(s: string, w: nat) returns (p: nat)
    requires AllDigits(s) && w <= |s|
    ensures AllDigits(s[|s| - w..])
    ensures DigitsValue(s) == p * Pow10(w) + DigitsValue(s[|s| - w..])
    ensures DigitsValue(s[|s| - w..]) < Pow10(w)
    decreases w
  {
    if w == 0 {
      assert s[|s|..] == [];
      p := DigitsValue(s);
    } else {
      var t := s[..|s| - 1];
      var d := DigitValue(s[|s| - 1]);
      p := LastDigitsSplit(t, w - 1);
      var tail := s[|s| - w..];
      assert tail[..|tail| - 1] == t[|t| - (w - 1)..];
      var r := DigitsValue(t[|t| - (w - 1)..]);
      assert DigitsValue(tail) == r * 10 + d;
      ShiftDigit(DigitsValue(t), p, Pow10(w - 1), r, d);
    }
  }

  /** Appending digit d to a number a = p * P + r (r < P) gives p * 10P + (10r + d), with 10r + d < 10P. */
  lemma ShiftDigit(a: nat, p: nat, P: nat, r: nat, d: nat)
    requires a == p * P + r && r < P && d < 10
    ensures a * 10 + d == p * (P * 10) + (r * 10 + d) && r * 10 + d < P * 10
  {
    assert a * 10 == p * (P * 10) + r * 10 by {
      assert (p * P + r) * 10 == p * P * 10 + r * 10;
    }
  }

  /** The last w digits of a digit string read as the string's value modulo 10^w. */
  lemma LastDigitsValue(s: string, w: nat)
    requires AllDigits(s) && w <= |s|
    ensures AllDigits(s[|s| - w..])
    ensures DigitsValue(s[|s| - w..]) == DigitsValue(s) % Pow10(w)
  {
    var p := LastDigitsSplit(s, w);
    ModOfSplit(DigitsValue(s), Pow10(w), p, DigitsValue(s[|s| - w..]));
  }

  /**
   * The padded number is exactly w digits long and reads as n modulo 10^w: the
   * numbers below 10^w keep their value, larger ones keep their last w digits.
   */
  lemma PadMeaning(n: nat, w: nat)
    ensures |Pad(n, w)| == w && AllDigits(Pad(n, w))
    ensures DigitsValue(Pad(n, w)) == n % Pow10(w)
  {
    NatToStringRoundTrip(n);
    var s := Zeros(w) + NatToString(n);
    ZerosPrefixValue(w, NatToString(n));
    LastDigitsValue(s, w);
  }

  /** Two padded numbers are equal exactly when the numbers agree in their last w digits. */
  lemma PadInjective(m: nat, n: nat, w: nat)
    ensures Pad(m, w) == Pad(n, w) <==> m % Pow10(w) == n % Pow10(w)
  {
    PadMeaning(m, w);
    PadMeaning(n, w);
    if m % Pow10(w) == n % Pow10(w) {
      DigitsDetermine(Pad(m, w), Pad(n, w));
    }
  }

  /** Digit strings of the same length with the same value are equal. */
  lemma {:induction false} DigitsDetermine(s: string, t: string)
    requires AllDigits(s) && AllDigits(t) && |s| == |t| && DigitsValue(s) == DigitsValue(t)
    ensures s == t
    decreases |s|
  {
    if |s| > 0 {
      var n := |s| - 1;
      var a, b := DigitsValue(s[..n]), DigitsValue(t[..n]);
      var c, d := DigitValue(s[n]), DigitValue(t[n]);
      ModOfSplit(a * 10 + c, 10, a, c);
      ModOfSplit(b * 10 + d, 10, b, d);
      DigitsDetermine(s[..n], t[..n]);
      DigitCharsDistinct(s[n], t[n]);
      assert s == s[..n] + [s[n]] && t == t[..n] + [t[n]];
    }
  }

  lemma DigitCharsDistinct(c: char, d: char)
    requires IsDigit(c) && IsDigit(d) && DigitValue(c) == DigitValue(d)
    ensures c == d
  {
  }

  /** toDateString: "DD-MM-YYYY", the year as it is; month is getMonth(), counted from 0. */
  function ToDateString(day: nat, month: nat, year: nat): string
  {
    Pad(day, 2) + "-" + Pad(month + 1, 2) + "-" + NatToString(year)
  }

  /** toDateStringDe: "DD.MM.YYYY". */
  function ToDateStringDe(day: nat, month: nat, year: nat): string
  {
    Pad(day, 2) + "." + Pad(month + 1, 2) + "." + NatToString(year)
  }

  /** toDateTimeString: the day-first date, a blank and "hh:mm:ss". */
  function ToDateTimeString(day: nat, month: nat, year: nat, hours: nat, minutes: nat, seconds: nat): string
  {
    ToDateString(day, month, year) + " " + Pad(hours, 2) + ":" + Pad(minutes, 2) + ":" + Pad(seconds, 2)
  }

  /**
   * The date-time string is the day-first date followed by a blank and an
   * eight-character time whose groups read as the hours, minutes and seconds
   * (each modulo 100) with colons at 2 and 5.
   */
  lemma DateTimeStringShape(day: nat, month: nat, year: nat, hours: nat, minutes: nat, seconds: nat)
    ensures var r, d := ToDateTimeString(day, month, year, hours, minutes, seconds), ToDateString(day, month, year);
      |r| == |d| + 9 && r[..|d|] == d && r[|d|] == ' '
      && var t := r[|d| + 1..];
      t[2] == ':' && t[5] == ':'
      && AllDigits(t[..2]) && AllDigits(t[3..5]) && AllDigits(t[6..])
      && DigitsValue(t[..2]) == hours % 100 && DigitsValue(t[3..5]) == minutes % 100
      && DigitsValue(t[6..]) == seconds % 100
  {
    PadMeaning(hours, 2);
    PadMeaning(minutes, 2);
    PadMeaning(seconds, 2);
    assert Pow10(2) == 100;
    var r, d := ToDateTimeString(day, month, year, hours, minutes, seconds), ToDateString(day, month, year);
    var t := Pad(hours, 2) + ":" + Pad(minutes, 2) + ":" + Pad(seconds, 2);
    assert r == d + " " + t;
    assert r[|d| + 1..] == t;
    assert t[..2] == Pad(hours, 2) && t[3..5] == Pad(minutes, 2) && t[6..] == Pad(seconds, 2);
  }

  /** toDateStringY: "YYYY-MM-DD" with the year padded to four digits. */
  function ToDateStringY(day: nat, month: nat, year: nat): string
  {
    Pad(year, 4) + "-" + Pad(month + 1, 2) + "-" + Pad(day, 2)
  }

  /** toDbDateString: the year-first date at midnight. */
  function ToDbDateString(day: nat, month: nat, year: nat): (r: string)
    ensures |r| == 19 && r[..10] == ToDateStringY(day, month, year) && r[10..] == "T00:00:00"
  {
    PadMeaning(year, 4);
    PadMeaning(month + 1, 2);
    PadMeaning(day, 2);
    ToDateStringY(day, month, year) + "T00:00:00"
  }

  /** The two day-first formats differ only in their two separators. */
  lemma DayFirstFormatsAgree(day: nat, month: nat, year: nat)
    ensures var a, b := ToDateString(day, month, year), ToDateStringDe(day, month, year);
      |a| == |b| && a[2] == '-' && a[5] == '-' && b[2] == '.' && b[5] == '.'
      && forall i | 0 <= i < |a| && i != 2 && i != 5 :: a[i] == b[i]
  {
    PadMeaning(day, 2);
    PadMeaning(month + 1, 2);
  }

  /**
   * The year-first date reads back as its parts: ten characters, dashes at 4
   * and 7, and digit groups giving the year modulo 10000, the month counted
   * from 1 and the day, each modulo the width of its group.
   */
  lemma DateStringYRoundTrip(day: nat, month: nat, year: nat)
    ensures var r := ToDateStringY(day, month, year);
      |r| == 10 && r[4] == '-' && r[7] == '-'
      && AllDigits(r[..4]) && AllDigits(r[5..7]) && AllDigits(r[8..])
      && DigitsValue(r[..4]) == year % 10000
      && DigitsValue(r[5..7]) == (month + 1) % 100
      && DigitsValue(r[8..]) == day % 100
  {
    PadMeaning(year, 4);
    PadMeaning(month + 1, 2);
    PadMeaning(day, 2);
    var r := ToDateStringY(day, month, year);
    assert r[..4] == Pad(year, 4);
    assert r[5..7] == Pad(month + 1, 2);
    assert r[8..] == Pad(day, 2);
    assert Pow10(4) == 10000 && Pow10(2) == 100;
  }

  /** getLabelFromReportDate: the number's digits with '.' after the 4th and the 6th. */
  function ReportDateLabel(date: nat): string
  {
    var s := NatToString(date);
    Slice(s, 0, 4) + "." + Slice(s, 4, 6) + "." + Slice(s, 6, |s|)
  }

  function WithoutDots(s: string): (r: string)
  {
    if |s| == 0 then [] else WithoutDots(s[..|s| - 1]) + (if s[|s| - 1] == '.' then [] else [s[|s| - 1]])
  }

  lemma {:induction false} WithoutDotsAppend(s: string, t: string)
    ensures WithoutDots(s + t) == WithoutDots(s) + WithoutDots(t)
    decreases |t|
  {
    if |t| == 0 {
      assert s + t == s;
    } else {
      assert (s + t)[..|s + t| - 1] == s + t[..|t| - 1];
      WithoutDotsAppend(s, t[..|t| - 1]);
    }
  }

  lemma {:induction false} WithoutDotsOfDigits(s: string)
    requires AllDigits(s)
    ensures WithoutDots(s) == s
    decreases |s|
  {
    if |s| > 0 {
      WithoutDotsOfDigits(s[..|s| - 1]);
      assert s == s[..|s| - 1] + [s[|s| - 1]];
    }
  }

  /** Removing the dots of three digit groups joined by dots gives the groups run together. */
  lemma WithoutDotsOfDotted(a: string, b: string, c: string)
    requires AllDigits(a) && AllDigits(b) && AllDigits(c)
    ensures WithoutDots(a + "." + b + "." + c) == a + b + c
  {
    assert WithoutDots(".") == [] by {
      assert "."[..0] == [];
    }
    WithoutDotsOfDigits(a);
    WithoutDotsOfDigits(b);
    WithoutDotsOfDigits(c);
    var x := a + ".";
    WithoutDotsAppend(a, ".");
    assert WithoutDots(x) == a;
    var y := x + b;
    WithoutDotsAppend(x, b);
    assert WithoutDots(y) == a + b;
    var z := y + ".";
    WithoutDotsAppend(y, ".");
    assert WithoutDots(z) == a + b;
    WithoutDotsAppend(z, c);
    assert WithoutDots(z + c) == a + b + c;
  }

  /** A number from 10^k up to below 10^(k+1) has k + 1 digits. */
  lemma {:induction false} NatToStringLength(n: nat, k: nat)
    requires Pow10(k) <= n < Pow10(k + 1)
    ensures |NatToString(n)| == k + 1
    decreases k
  {
    if k > 0 {
      var P := Pow10(k - 1);
      assert Pow10(k + 1) == P * 100;
      assert P <= n / 10 < P * 10;
      NatToStringLength(n / 10, k - 1);
    }
  }

  /**
   * The label is the date's digits with two dots added: removing the dots gives
   * the digits back, for every number; an eight-digit date such as 20240131
   * reads "2024.01.31".
   */
  lemma ReportDateLabelMeaning(date: nat)
    ensures WithoutDots(ReportDateLabel(date)) == NatToString(date)
    ensures |ReportDateLabel(date)| == |NatToString(date)| + 2
    ensures 10000000 <= date < 100000000 ==>
      var s := NatToString(date);
      |s| == 8 && ReportDateLabel(date) == s[..4] + "." + s[4..6] + "." + s[6..]
  {
    var s := NatToString(date);
    NatToStringRoundTrip(date);
    var a, b, c := Slice(s, 0, 4), Slice(s, 4, 6), Slice(s, 6, |s|);
    SliceThree(s);
    WithoutDotsOfDotted(a, b, c);
    if 10000000 <= date < 100000000 {
      assert Pow10(7) == 10000000 && Pow10(8) == 100000000;
      NatToStringLength(date, 7);
    }
  }

  /** Slicing at 4 and 6 with clamping splits any string into three digit groups that run together to it. */
  lemma SliceThree(s: string)
    requires AllDigits(s)
    ensures Slice(s, 0, 4) + Slice(s, 4, 6) + Slice(s, 6, |s|) == s
    ensures AllDigits(Slice(s, 0, 4)) && AllDigits(Slice(s, 4, 6)) && AllDigits(Slice(s, 6, |s|))
  {
    if |s| <= 4 {
      assert Slice(s, 0, 4) == s;
    } else if |s| <= 6 {
      assert Slice(s, 4, 6) == s[4..];
      assert s == s[..4] + s[4..];
    } else {
      assert s == s[..4] + s[4..6] + s[6..];
    }
  }
}
