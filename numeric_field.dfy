/**
 * The numeric input field's acceptance rule: the regular expression
 * ^-?([0-9]+[,.])?[0-9]*$ built from two flags (both set in the field), and the
 * change handler, which passes an accepted input on with its first ',' turned
 * into '.', and ignores any other input.
 */
module NumericField {
  import opened Common
  import opened Text

  predicate AllDigits(s: string)
  {
    forall i :: 0 <= i < |s| ==> IsDigit(s[i])
  }

  predicate IsSeparator(c: char)
  {
    c == ',' || c == '.'
  }

  /**
   * What the pattern after the optional sign matches: digits only, or (with
   * decimals allowed) at least one digit, one separator and digits.
   */
  ghost predicate NumberPart(t: string, allowDecimal: bool)
  {
    AllDigits(t)
    || (allowDecimal && exists i :: 0 < i < |t| && AllDigits(t[..i]) && IsSeparator(t[i]) && AllDigits(t[i + 1..]))
  }

  /** The language of getNumberRegex(allowNegativeValues, allowDecimal). */
  ghost predicate InNumberLanguage(s: string, allowNegativeValues: bool, allowDecimal: bool)
  {
    NumberPart(s, allowDecimal)
    || (allowNegativeValues && |s| > 0 && s[0] == '-' && NumberPart(s[1..], allowDecimal))
  }

  /** The number of leading digits. */
  function LeadingDigits(s: string): (k: nat)
    ensures k <= |s| && AllDigits(s[..k]) && (k < |s| ==> !IsDigit(s[k]))
  {
    if |s| == 0 || !IsDigit(s[0]) then 0
    else
      var k := 1 + LeadingDigits(s[1..]);
      assert s[..k] == [s[0]] + s[1..][..k - 1];
      k
  }

  /** regex.test(value): skip one '-', then digits, then at most one separator followed by digits only. */
  function NumberTest(s: string, allowNegativeValues: bool, allowDecimal: bool): bool
  {
    var t := if allowNegativeValues && |s| > 0 && s[0] == '-' then s[1..] else s;
    var k := LeadingDigits(t);
    k == |t| || (allowDecimal && k > 0 && IsSeparator(t[k]) && AllDigits(t[k + 1..]))
  }

  lemma NumberPartTest(t: string, allowDecimal: bool)
    ensures NumberPart(t, allowDecimal) <==>
      var k := LeadingDigits(t);
      k == |t| || (allowDecimal && k > 0 && IsSeparator(t[k]) && AllDigits(t[k + 1..]))
  {
    var k := LeadingDigits(t);
    if k == |t| {
      assert t[..k] == t;
    } else if allowDecimal && k > 0 && IsSeparator(t[k]) && AllDigits(t[k + 1..]) {
      assert 0 < k < |t| && AllDigits(t[..k]) && IsSeparator(t[k]) && AllDigits(t[k + 1..]);
    } else {
      forall i | 0 < i < |t| && AllDigits(t[..i]) && IsSeparator(t[i])
        ensures i == k
      {
        SeparatorEndsDigits(t, i);
      }
    }
  }

  /** A separator right after a run of digits is where the leading digits end. */
  lemma SeparatorEndsDigits(t: string, i: nat)
    requires 0 < i < |t| && AllDigits(t[..i]) && IsSeparator(t[i])
    ensures i == LeadingDigits(t)
  {
    var k := LeadingDigits(t);
    forall j | 0 <= j < i
      ensures IsDigit(t[j])
    {
      assert t[..i][j] == t[j];
    }
    forall j | 0 <= j < k
      ensures IsDigit(t[j])
    {
      assert t[..k][j] == t[j];
    }
  }

  /** The scanner accepts exactly the strings of the pattern's language, for every choice of the two flags. */
  lemma NumberTestMeaning(s: string, allowNegativeValues: bool, allowDecimal: bool)
    ensures NumberTest(s, allowNegativeValues, allowDecimal) <==> InNumberLanguage(s, allowNegativeValues, allowDecimal)
  {
    NumberPartTest(s, allowDecimal);
    if |s| > 0 {
      NumberPartTest(s[1..], allowDecimal);
      if s[0] == '-' {
        SignedIsNoNumberPart(s, allowDecimal);
      }
    }
  }

  /** A string starting with '-' is not matched by the pattern after the sign. */
  lemma SignedIsNoNumberPart(s: string, allowDecimal: bool)
    requires |s| > 0 && s[0] == '-'
    ensures !NumberPart(s, allowDecimal)
  {
    forall i | 0 < i < |s|
      ensures !AllDigits(s[..i])
    {
      assert s[..i][0] == '-';
    }
  }

  /** Examples the field relies on: "" and "-" pass, "1,5" and "-12.0" pass, ",5", "1,2,3" and "1.5." do not. */
  lemma NumberTestExamples()
    ensures NumberTest("", true, true) && NumberTest("-", true, true)
    ensures NumberTest("1,5", true, true) && NumberTest("-12.0", true, true)
    ensures !NumberTest(",5", true, true) && !NumberTest("1,2,3", true, true) && !NumberTest("1.5.", true, true)
  {
    assert LeadingDigits("1,5") == 1 by { assert "1,5"[1..] == ",5"; }
    assert LeadingDigits("12.0") == 2 by { assert "12.0"[1..] == "2.0"; assert "2.0"[1..] == ".0"; }
    assert "-12.0"[1..] == "12.0";
    assert LeadingDigits("1,2,3") == 1 by { assert "1,2,3"[1..] == ",2,3"; }
    assert "1,2,3"[2..] == "2,3";
    assert LeadingDigits("1.5.") == 1 by { assert "1.5."[1..] == ".5."; }
    assert "1.5."[2..] == "5.";
    assert "1.5."[2..][1] == '.';
    assert "1,2,3"[2..][1] == ',';
    assert "-"[1..] == "";
  }

  /** String.prototype.replace(",", "."): the first ',' only becomes '.'. */
  function ReplaceFirstComma(s: string): (r: string)
    ensures |r| == |s|
  {
    if |s| == 0 then s
    else if s[0] == ',' then ['.'] + s[1..]
    else [s[0]] + ReplaceFirstComma(s[1..])
  }

  /** Text without ',' passes the replacement unchanged, and a prefix without ',' is kept in front of the replaced rest. */
  lemma {:induction false} ReplaceAfterCommaFree(a: string, b: string)
    requires ',' !in a
    ensures ReplaceFirstComma(a + b) == a + ReplaceFirstComma(b)
    ensures ReplaceFirstComma(a) == a
  {
    if |a| > 0 {
      assert (a + b)[1..] == a[1..] + b;
      assert ',' !in a[1..];
      ReplaceAfterCommaFree(a[1..], b);
    } else {
      assert a + b == b;
    }
  }

  /** The replacement changes the first ',' into '.' and nothing else. */
  lemma ReplaceFirstCommaMeaning(s: string, i: nat)
    requires i < |s| && s[i] == ',' && ',' !in s[..i]
    ensures ReplaceFirstComma(s) == s[..i] + "." + s[i + 1..]
  {
    assert s == s[..i] + s[i..];
    ReplaceAfterCommaFree(s[..i], s[i..]);
    assert s[i..][1..] == s[i + 1..];
  }

  /** handleOnChange: the value passed to onChange, or None when the input is ignored. */
  function HandleOnChange(value: string, allowNegativeValues: bool, allowDecimal: bool): Option<string>
  {
    if NumberTest(value, allowNegativeValues, allowDecimal) then Some(ReplaceFirstComma(value)) else None
  }

  /**
   * With the field's flags, an input is passed on exactly when it matches the
   * pattern, and what is passed on is the input with '.' as its only possible
   * separator: no ',' is left, since an accepted input has at most one.
   */
  lemma HandleOnChangeMeaning(value: string)
    ensures HandleOnChange(value, true, true).Some? <==> InNumberLanguage(value, true, true)
    ensures HandleOnChange(value, true, true).Some? ==>
      ',' !in HandleOnChange(value, true, true).value && |HandleOnChange(value, true, true).value| == |value|
  {
    NumberTestMeaning(value, true, true);
    if NumberTest(value, true, true) {
      AcceptedHasOneSeparator(value);
    }
  }

  lemma NoCommaInDigits(s: string)
    requires AllDigits(s)
    ensures ',' !in s
  {
    forall j | 0 <= j < |s|
      ensures s[j] != ','
    {
      assert IsDigit(s[j]);
    }
  }

  /** A separator followed by digits only loses its ',' in the replacement. */
  lemma SeparatorRest(u: string)
    requires |u| > 0 && IsSeparator(u[0]) && AllDigits(u[1..])
    ensures ',' !in ReplaceFirstComma(u)
  {
    NoCommaInDigits(u[1..]);
    if u[0] != ',' {
      ReplaceAfterCommaFree(u[1..], []);
      assert u[1..] + [] == u[1..];
    }
  }

  /** An accepted input holds at most one ',' and no other after it, so the replacement removes every ','. */
  lemma AcceptedHasOneSeparator(value: string)
    requires NumberTest(value, true, true)
    ensures ',' !in ReplaceFirstComma(value)
  {
    var off := if |value| > 0 && value[0] == '-' then 1 else 0;
    var t := value[off..];
    var k := LeadingDigits(t);
    NoCommaInDigits(t[..k]);
    assert ',' !in value[..off];
    var head := value[..off] + t[..k];
    assert ',' !in head;
    assert value == head + t[k..];
    ReplaceAfterCommaFree(head, t[k..]);
    if k == |t| {
      assert t[k..] == [];
    } else {
      assert t[k..][1..] == t[k + 1..];
      SeparatorRest(t[k..]);
    }
  }
}
