/**
 * String helpers shared by the backend and the frontend models: joining with a
 * separator, splitting at a character, decimal rendering of natural numbers and
 * the character classes the source relies on.
 */
module Text {

  /** Joins `parts` with `sep` between neighbours (String.join / StringUtils.join / Array.join). */
  function Join(parts: seq<string>, sep: string): string
  {
    if |parts| == 0 then ""
    else if |parts| == 1 then parts[0]
    else parts[0] + sep + Join(parts[1..], sep)
  }

  lemma {:induction false} JoinAppend(parts: seq<string>, last: string, sep: string)
    ensures Join(parts + [last], sep) == if parts == [] then last else Join(parts, sep) + sep + last
  {
    if |parts| > 1 {
      assert (parts + [last])[1..] == parts[1..] + [last];
      JoinAppend(parts[1..], last, sep);
    } else if |parts| == 1 {
      assert (parts + [last])[1..] == [last];
    }
  }

  /** Joining two non-empty lists of parts joins the two joined strings with one more separator. */
  lemma {:induction false} JoinConcat(a: seq<string>, b: seq<string>, sep: string)
    requires |a| > 0 && |b| > 0
    ensures Join(a + b, sep) == Join(a, sep) + sep + Join(b, sep)
  {
    if |a| > 1 {
      assert (a + b)[1..] == a[1..] + b;
      JoinConcat(a[1..], b, sep);
    } else {
      assert (a + b)[0] == a[0] && (a + b)[1..] == b;
    }
  }

  /** Every separator-free part shows up, in order, between the separators of the joined string. */
  lemma {:induction false} JoinLength(parts: seq<string>, sep: string)
    ensures |Join(parts, sep)| == SumLengths(parts) + (if |parts| == 0 then 0 else (|parts| - 1) * |sep|)
  {
    if |parts| > 1 {
      JoinLength(parts[1..], sep);
    }
  }

  function SumLengths(parts: seq<string>): nat
  {
    if parts == [] then 0 else |parts[0]| + SumLengths(parts[1..])
  }

  /** All segments of `s` between occurrences of `c`, empty ones included. */
  function Split(s: string, c: char): (r: seq<string>)
    ensures |r| >= 1
    ensures forall i :: 0 <= i < |r| ==> c !in r[i]
    decreases |s|
  {
    if |s| == 0 then [""]
    else if s[0] == c then [""] + Split(s[1..], c)
    else
      var t := Split(s[1..], c);
      [[s[0]] + t[0]] + t[1..]
  }

  /** Splitting and re-joining with the same character gives the original string back. */
  lemma {:induction false} SplitJoin(s: string, c: char)
    ensures Join(Split(s, c), [c]) == s
    decreases |s|
  {
    if |s| == 0 {
    } else if s[0] == c {
      SplitJoin(s[1..], c);
      var t := Split(s[1..], c);
      assert Split(s, c) == [""] + t;
      assert ([""] + t)[1..] == t;
      assert s == [c] + s[1..];
    } else {
      SplitJoin(s[1..], c);
      var t := Split(s[1..], c);
      assert Split(s, c) == [[s[0]] + t[0]] + t[1..];
      if |t| == 1 {
        assert s == [s[0]] + s[1..];
      } else {
        assert ([[s[0]] + t[0]] + t[1..])[1..] == t[1..];
        assert Join(t, [c]) == t[0] + [c] + Join(t[1..], [c]);
        assert s == [s[0]] + s[1..];
      }
    }
  }

  /** A string without the separator is a single segment. */
  lemma {:induction false} SplitWithout(s: string, c: char)
    requires c !in s
    ensures Split(s, c) == [s]
    decreases |s|
  {
    if |s| > 0 {
      SplitWithout(s[1..], c);
      assert s == [s[0]] + s[1..];
    }
  }

  predicate IsDigit(ch: char) { '0' <= ch <= '9' }

  function DigitChar(d: nat): (ch: char)
    requires d < 10
    ensures IsDigit(ch)
  {
    ['0', '1', '2', '3', '4', '5', '6', '7', '8', '9'][d]
  }

  function DigitValue(ch: char): nat
    requires IsDigit(ch)
  {
    (ch as int - '0' as int) as nat
  }

  /** Decimal rendering of a natural number, as Java's and JavaScript's toString give it. */
  function NatToString(n: nat): (r: string)
    decreases n
  {
    if n < 10 then [DigitChar(n)] else NatToString(n / 10) + [DigitChar(n % 10)]
  }

  /** The value of a string of decimal digits. */
  function DigitsValue(s: string): nat
    requires forall i :: 0 <= i < |s| ==> IsDigit(s[i])
  {
    if |s| == 0 then 0 else DigitsValue(s[..|s| - 1]) * 10 + DigitValue(s[|s| - 1])
  }

  /** NatToString yields digits only, with no leading zero, and reads back as the number. */
  lemma {:induction false} NatToStringRoundTrip(n: nat)
    ensures |NatToString(n)| >= 1
    ensures forall i :: 0 <= i < |NatToString(n)| ==> IsDigit(NatToString(n)[i])
    ensures NatToString(n)[0] == '0' ==> n == 0
    ensures DigitsValue(NatToString(n)) == n
    decreases n
  {
    var d := DigitChar(n % 10);
    assert DigitValue(d) == n % 10 by {
      assert d == ['0', '1', '2', '3', '4', '5', '6', '7', '8', '9'][n % 10];
    }
    if n >= 10 {
      NatToStringRoundTrip(n / 10);
      var p := NatToString(n / 10);
      assert NatToString(n) == p + [d];
      assert (p + [d])[..|p + [d]| - 1] == p;
    }
  }

  /** Rendering is injective: different numbers have different decimal strings. */
  lemma NatToStringInjective(m: nat, n: nat)
    requires NatToString(m) == NatToString(n)
    ensures m == n
  {
    NatToStringRoundTrip(m);
    NatToStringRoundTrip(n);
  }

  /** Character.isWhitespace (Java) restricted to the ASCII range. */
  predicate IsJavaWhitespace(ch: char)
  {
    IsJsWhitespace(ch) || '\U{1C}' <= ch <= '\U{1F}'
  }

  /** The ASCII white-space characters JavaScript's String.prototype.trim removes. */
  predicate IsJsWhitespace(ch: char)
  {
    ch == ' ' || ch == '\t' || ch == '\n' || ch == '\r' || ch == '\U{B}' || ch == '\U{C}'
  }

  /** StringUtils.isBlank: null, empty or white space only. */
  predicate IsBlank(s: string)
  {
    forall i :: 0 <= i < |s| ==> IsJavaWhitespace(s[i])
  }

  /** JavaScript String.prototype.trim restricted to the ASCII range. */
  function Trim(s: string): (r: string)
    decreases |s|
  {
    if |s| > 0 && IsJsWhitespace(s[0]) then Trim(s[1..])
    else if |s| > 0 && IsJsWhitespace(s[|s| - 1]) then Trim(s[..|s| - 1])
    else s
  }

  lemma {:induction false} TrimShape(s: string)
    ensures |Trim(s)| <= |s|
    ensures |Trim(s)| > 0 ==> !IsJsWhitespace(Trim(s)[0]) && !IsJsWhitespace(Trim(s)[|Trim(s)| - 1])
    ensures (forall i :: 0 <= i < |s| ==> !IsJsWhitespace(s[i])) ==> Trim(s) == s
    decreases |s|
  {
    if |s| > 0 && IsJsWhitespace(s[0]) {
      TrimShape(s[1..]);
    } else if |s| > 0 && IsJsWhitespace(s[|s| - 1]) {
      TrimShape(s[..|s| - 1]);
    }
  }

  /** Trimming removes a white-space character added at either end, and trimming twice changes nothing. */
  lemma {:induction false} TrimPadding(s: string, c: char)
    requires IsJsWhitespace(c)
    ensures Trim([c] + s) == Trim(s)
    ensures Trim(s + [c]) == Trim(s)
    ensures Trim(Trim(s)) == Trim(s)
    decreases |s|
  {
    assert ([c] + s)[1..] == s;
    if |s| > 0 && IsJsWhitespace(s[0]) {
      assert (s + [c])[1..] == s[1..] + [c];
      TrimPadding(s[1..], c);
    } else if |s| > 0 {
      assert (s + [c])[..|s|] == s;
    } else {
      assert [c][..0] == s;
    }
    TrimShape(s);
  }

  /** Upper-casing of ASCII letters (String.toUpperCase on ASCII input). */
  function ToUpperAscii(s: string): (r: string)
    ensures |r| == |s|
    ensures forall i :: 0 <= i < |s| ==> r[i] == (if 'a' <= s[i] <= 'z' then (s[i] as int - 32) as char else s[i])
  {
    if |s| == 0 then "" else [if 'a' <= s[0] <= 'z' then (s[0] as int - 32) as char else s[0]] + ToUpperAscii(s[1..])
  }

  /** Whether `s` ends with `suffix`. */
  predicate EndsWith(s: string, suffix: string)
  {
    |suffix| <= |s| && s[|s| - |suffix|..] == suffix
  }
}
