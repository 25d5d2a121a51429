/**
 * StringUtils: the "not found" message, joining of non-null parts, trimming to a
 * maximal length with an ellipsis, and the zero-to-O replacement.
 */
module StringUtils {
  import opened Common
  import opened Text
  import Exceptions

  const Ellipsis := "..."

  /** generateNotFoundString: "<Name> with UUID '<uuid>' not found!", a trailing "Entity" cut off the class name. */
  function NotFoundString(simpleName: string, uuid: Uuid): (r: string)
  {
    var name := if EndsWith(simpleName, "Entity") then simpleName[..|simpleName| - 6] else simpleName;
    name + " with UUID '" + uuid + "' not found!"
  }

  /** The message starts with the class name less its "Entity" suffix and ends with the quoted UUID. */
  lemma NotFoundStringShape(simpleName: string, uuid: Uuid)
    ensures var r := NotFoundString(simpleName, uuid);
      var name := if EndsWith(simpleName, "Entity") then simpleName[..|simpleName| - 6] else simpleName;
      r[..|name|] == name
      && r[|name|..] == " with UUID '" + uuid + "' not found!"
      && (!EndsWith(simpleName, "Entity") ==> r[..|simpleName|] == simpleName)
  {
  }

  /** The non-null elements of `parts`, in order. */
  function NonNulls(parts: seq<Option<string>>): (r: seq<string>)
    ensures |r| <= |parts|
    ensures forall x :: x in r <==> Some(x) in parts
  {
    if |parts| == 0 then []
    else if parts[0].None? then NonNulls(parts[1..])
    else [parts[0].value] + NonNulls(parts[1..])
  }

  /** joinNonNulls: the non-null parts joined with the separator. */
  function JoinNonNulls(sep: string, parts: seq<Option<string>>): (r: string)
  {
    Join(NonNulls(parts), sep)
  }

  /** Null parts leave no trace: no separator is written for them, so all-null parts give "". */
  lemma JoinNonNullsSkipsNulls(sep: string, parts: seq<Option<string>>, a: string, b: string)
    ensures JoinNonNulls(sep, parts + [None]) == JoinNonNulls(sep, parts)
    ensures JoinNonNulls(sep, [None] + parts) == JoinNonNulls(sep, parts)
    ensures JoinNonNulls(sep, [Some(a), None, Some(b)]) == a + sep + b
    ensures (forall i :: 0 <= i < |parts| ==> parts[i].None?) ==> JoinNonNulls(sep, parts) == ""
  {
    NonNullsAppendNone(parts);
    assert ([None] + parts)[1..] == parts;
    NonNullsPair(Some(a), Some(b), true);
    assert [a] + [b] == [a, b];
    assert [a, b][1..] == [b];
    assert NonNulls([Some(a), None, Some(b)]) == [a, b];
    assert Join([a, b], sep) == a + sep + Join([b], sep);
    if forall i :: 0 <= i < |parts| ==> parts[i].None? {
      if NonNulls(parts) != [] {
        assert NonNulls(parts)[0] in NonNulls(parts);
      }
    }
  }

  /** The non-null parts of [x, null, y] or of [x, y]. */
  lemma NonNullsPair(x: Option<string>, y: Option<string>, gap: bool)
    ensures NonNulls(if gap then [x, None, y] else [x, y])
            == (if x.Some? then [x.value] else []) + (if y.Some? then [y.value] else [])
  {
    var parts := if gap then [x, None, y] else [x, y];
    var tail := if gap then [None, y] else [y];
    assert parts[1..] == tail;
    var ys := if y.Some? then [y.value] else [];
    assert [y][1..] == [];
    assert NonNulls([y]) == ys;
    if gap {
      assert tail[1..] == [y];
      assert NonNulls(tail) == ys;
    }
    assert NonNulls(tail) == ys;
  }

  lemma {:induction false} NonNullsAppendNone(parts: seq<Option<string>>)
    ensures NonNulls(parts + [None]) == NonNulls(parts)
  {
    if |parts| == 0 {
      assert NonNulls([None]) == NonNulls([None][1..]);
    } else {
      assert (parts + [None])[1..] == parts[1..] + [None];
      NonNullsAppendNone(parts[1..]);
    }
  }

  /**
   * trimToLength: a null or short enough text is returned as it is; a longer one
   * is cut to maxLength - 3 characters followed by "...". A maxLength below 3 makes
   * substring throw for a text that is too long.
   */
  function TrimToLength(text: Option<string>, maxLength: int): (r: Result<Option<string>, Exceptions.Exception>)
  {
    if text.None? || |text.value| <= maxLength then Ok(text)
    else if maxLength < |Ellipsis| then
      Err(Exceptions.Exception(Exceptions.OtherEx, "StringIndexOutOfBoundsException", None, Some("begin 0, end " + IntText(maxLength - 3) + ", length " + NatToString(|text.value|))))
    else Ok(Some(text.value[..maxLength - |Ellipsis|] + Ellipsis))
  }

  function IntText(n: int): string
  {
    if n < 0 then "-" + NatToString(-n) else NatToString(n)
  }

  /**
   * The trimmed text never exceeds maxLength, is the text itself when it fits, and
   * otherwise keeps the text's prefix and ends with the ellipsis; trimming twice
   * changes nothing more. It fails exactly for a too long text and a maxLength below 3.
   */
  lemma TrimToLengthSpec(text: Option<string>, maxLength: int)
    ensures var r := TrimToLength(text, maxLength);
      (r.Err? <==> text.Some? && |text.value| > maxLength && maxLength < 3)
      && (r.Ok? ==>
            (r.value.None? <==> text.None?)
            && (text.Some? && |text.value| <= maxLength ==> r.value == text)
            && (text.Some? && |text.value| > maxLength ==>
                  |r.value.value| == maxLength
                  && r.value.value[..maxLength - 3] == text.value[..maxLength - 3]
                  && EndsWith(r.value.value, Ellipsis))
            && TrimToLength(r.value, maxLength) == r)
  {
  }

  /** String.replace('0', 'O'): every '0' becomes 'O', every other character stays. */
  function ReplaceZeros(s: string): (r: string)
    ensures |r| == |s|
    ensures forall i :: 0 <= i < |s| ==> r[i] == (if s[i] == '0' then 'O' else s[i])
    ensures '0' !in r
  {
    if |s| == 0 then "" else [if s[0] == '0' then 'O' else s[0]] + ReplaceZeros(s[1..])
  }

  /** replaceZeroWithO: a null text throws a NullPointerException; otherwise every '0' becomes 'O'. */
  function ReplaceZeroWithO(s: Option<string>): (r: Result<string, Exceptions.Exception>)
    ensures r.Err? <==> s.None?
    ensures r.Err? ==> r.error.kind == Exceptions.OtherEx && r.error.simpleName == "NullPointerException"
    ensures r.Ok? ==> |r.value| == |s.value| && '0' !in r.value
    ensures r.Ok? ==> forall i :: 0 <= i < |s.value| ==> r.value[i] == (if s.value[i] == '0' then 'O' else s.value[i])
  {
    if s.None? then Err(Exceptions.Exception(Exceptions.OtherEx, "NullPointerException", None, None))
    else Ok(ReplaceZeros(s.value))
  }
}
