/**
 * ComplexFieldsModelMapper: the parsing of semicolon separated collections. The
 * converters it registers (dates, URLs, UUIDs) are part of the mapping oracle of
 * the patch operation.
 */
module ComplexFieldsModelMapper {
  import opened Common
  import opened Text

  /** The non-empty elements of `parts`, in order. */
  function NonEmpty(parts: seq<string>): (r: seq<string>)
    ensures forall x :: x in r <==> x in parts && x != ""
  {
    if |parts| == 0 then []
    else if parts[0] == "" then NonEmpty(parts[1..])
    else [parts[0]] + NonEmpty(parts[1..])
  }

  /** parseSemicolonSeparatedCollection(String): the segments between semicolons, empty ones dropped; null gives none. */
  function ParseSemicolonSeparated(value: Option<string>): (r: seq<string>)
    ensures forall i :: 0 <= i < |r| ==> r[i] != "" && ';' !in r[i]
  {
    if value.None? then []
    else
      var parts := Split(value.value, ';');
      var r := NonEmpty(parts);
      assert forall i :: 0 <= i < |r| ==> r[i] in parts;
      r
  }

  /** Concatenation of the parts, with nothing in between. */
  function Concat(parts: seq<string>): string
  {
    if |parts| == 0 then "" else parts[0] + Concat(parts[1..])
  }

  /** The string with every occurrence of `c` removed. */
  function Without(s: string, c: char): string
  {
    if |s| == 0 then "" else (if s[0] == c then "" else [s[0]]) + Without(s[1..], c)
  }

  /** No character is lost or invented: the segments, put together, are the input without its semicolons. */
  lemma {:induction false} ParseKeepsCharacters(s: string)
    ensures Concat(ParseSemicolonSeparated(Some(s))) == Without(s, ';')
    decreases |s|
  {
    SplitConcat(s, ';');
  }

  lemma {:induction false} SplitConcat(s: string, c: char)
    ensures Concat(NonEmpty(Split(s, c))) == Without(s, c)
    decreases |s|
  {
    if |s| == 0 {
    } else if s[0] == c {
      SplitConcat(s[1..], c);
      assert Split(s, c) == [""] + Split(s[1..], c);
      assert ([""] + Split(s[1..], c))[1..] == Split(s[1..], c);
    } else {
      SplitConcat(s[1..], c);
      var t := Split(s[1..], c);
      var head := [s[0]] + t[0];
      assert Split(s, c) == [head] + t[1..];
      assert ([head] + t[1..])[1..] == t[1..];
      assert NonEmpty(Split(s, c)) == [head] + NonEmpty(t[1..]);
      assert Concat(NonEmpty(t)) == t[0] + Concat(NonEmpty(t[1..]));
      assert Concat([head] + NonEmpty(t[1..])) == head + Concat(NonEmpty(t[1..]));
    }
  }

  /** A non-empty value without semicolons is one segment, itself; a value of semicolons only gives none. */
  lemma ParseSingleAndEmpty(s: string)
    ensures ';' !in s && s != "" ==> ParseSemicolonSeparated(Some(s)) == [s]
    ensures (forall i :: 0 <= i < |s| ==> s[i] == ';') ==> ParseSemicolonSeparated(Some(s)) == []
  {
    if ';' !in s && s != "" {
      SplitWithout(s, ';');
      assert NonEmpty([s]) == [s] + NonEmpty([]);
    }
    if forall i :: 0 <= i < |s| ==> s[i] == ';' {
      var r := ParseSemicolonSeparated(Some(s));
      if r != [] {
        assert r[0] in r;
        var j :| 0 <= j < |Split(s, ';')| && Split(s, ';')[j] == r[0];
        AllSeparatorsSplit(s, ';');
      }
    }
  }

  lemma {:induction false} AllSeparatorsSplit(s: string, c: char)
    requires forall i :: 0 <= i < |s| ==> s[i] == c
    ensures forall j :: 0 <= j < |Split(s, c)| ==> Split(s, c)[j] == ""
    decreases |s|
  {
    if |s| > 0 {
      AllSeparatorsSplit(s[1..], c);
    }
  }

  /** The collectors the mapper uses: a list (Collectors.toList) or a set (Collectors.toSet). */
  datatype CollectorKind = ToList | ToSet
  datatype Collected = ListOf(items: seq<string>) | SetOf(elems: set<string>)

  /** parseSemicolonSeparatedCollection(String, Collector): the parsed segments collected as asked. */
  function ParseSemicolonSeparatedCollection(value: Option<string>, collector: CollectorKind): (r: Collected)
    ensures collector == ToList <==> r.ListOf?
    ensures r.ListOf? ==> r.items == ParseSemicolonSeparated(value)
    ensures r.SetOf? ==> forall x :: x in r.elems <==> x in ParseSemicolonSeparated(value)
  {
    var segments := ParseSemicolonSeparated(value);
    if collector == ToList then ListOf(segments) else SetOf(set x | x in segments)
  }
}
