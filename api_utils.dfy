/**
 * The client's URL builders: entity paths with an optional uuid, the search
 * path, the API base path, the query string made of the request parameters and
 * the request URL, which drops the '?' that stands alone. encodeURIComponent and
 * the rendering of numbers are given as functions.
 */
module ApiUtils {
  import opened Text
  import opened Common

  /** A parameter value: undefined, a string, a number, a boolean or an array of strings. */
  datatype ParamValue =
    | Undefined
    | QStr(s: string)
    | QNum(n: int)
    | QBool(b: bool)
    | QArr(values: seq<string>)

  /** A parameter object: its keys in the order Object.keys lists them. */
  type Params = seq<(string, ParamValue)>

  /** How the request layer turns values into text: encodeURIComponent and Number.prototype.toString. */
  datatype Codec = Codec(encode: string -> string, numberText: int -> string)

  /** getAPIPath: the path, followed by "/uuid" when a non-empty uuid is given. */
  function ApiPath(path: string, uuid: Option<string>): (r: string)
    ensures uuid.Some? && uuid.value != "" ==> r == path + "/" + uuid.value
    ensures uuid.None? || uuid.value == "" ==> r == path
  {
    if uuid.Some? && uuid.value != "" then path + "/" + uuid.value else path
  }

  /** getSearchAPIPath: the path followed by "/search". */
  function SearchApiPath(path: string): (r: string)
    ensures |r| == |path| + 7 && r[..|path|] == path && r[|path|..] == "/search"
  {
    path + "/search"
  }

  /** getApiBasePath: the API base URL, a slash and the path. */
  function ApiBasePath(apiBaseUrl: string, path: string): (r: string)
    ensures |r| == |apiBaseUrl| + 1 + |path|
    ensures r[..|apiBaseUrl|] == apiBaseUrl && r[|apiBaseUrl|] == '/' && r[|apiBaseUrl| + 1..] == path
  {
    apiBaseUrl + "/" + path
  }

  /** The text a scalar value stands for in a template string. */
  function ScalarText(v: ParamValue, codec: Codec): string
    requires !v.QArr? && !v.Undefined?
  {
    match v
    case QStr(s) => s
    case QNum(n) => codec.numberText(n)
    case QBool(b) => if b then "true" else "false"
  }

  /** One query pair: key=encodeURIComponent(value). */
  function Pair(key: string, text: string, codec: Codec): string
  {
    key + "=" + codec.encode(text)
  }

  function ArrayPairs(key: string, values: seq<string>, codec: Codec): (r: seq<string>)
    ensures |r| == |values|
    ensures forall i :: 0 <= i < |values| ==> r[i] == Pair(key, values[i], codec)
  {
    if |values| == 0 then [] else [Pair(key, values[0], codec)] + ArrayPairs(key, values[1..], codec)
  }

  /**
   * What the map step of stringifyParams yields for one key: null for an
   * undefined value and for an empty array, the pairs of an array joined by
   * '&', and one pair for a scalar.
   */
  function Piece(key: string, v: ParamValue, codec: Codec): Option<string>
  {
    match v
    case Undefined => None
    case QArr(values) => if |values| == 0 then None else Some(Join(ArrayPairs(key, values, codec), "&"))
    case _ => Some(Pair(key, ScalarText(v, codec), codec))
  }

  /** The pieces left after filtering out the nulls, in key order. */
  function Pieces(params: Params, codec: Codec): seq<string>
  {
    if |params| == 0 then []
    else
      var p := Piece(params[0].0, params[0].1, codec);
      (if p.Some? then [p.value] else []) + Pieces(params[1..], codec)
  }

  /** stringifyParams: the pieces joined by '&'. */
  function StringifyParams(params: Params, codec: Codec): string
  {
    Join(Pieces(params, codec), "&")
  }

  /** The reference reading: one pair per scalar and per array element, in key order and then element order. */
  function AllPairs(params: Params, codec: Codec): seq<string>
  {
    if |params| == 0 then []
    else
      var (key, v) := params[0];
      (match v
       case Undefined => []
       case QArr(values) => ArrayPairs(key, values, codec)
       case _ => [Pair(key, ScalarText(v, codec), codec)])
      + AllPairs(params[1..], codec)
  }

  /**
   * The query string is every pair joined by '&': undefined values and empty
   * arrays leave no trace (not even a separator), and an array gives one pair
   * per element.
   */
  lemma {:induction false} StringifyIsAllPairs(params: Params, codec: Codec)
    ensures StringifyParams(params, codec) == Join(AllPairs(params, codec), "&")
    ensures |Pieces(params, codec)| == 0 <==> |AllPairs(params, codec)| == 0
  {
    if |params| > 0 {
      var (key, v) := params[0];
      var rest := params[1..];
      StringifyIsAllPairs(rest, codec);
      match v
      case Undefined =>
        assert AllPairs(params, codec) == AllPairs(rest, codec);
        assert Pieces(params, codec) == Pieces(rest, codec);
      case QArr(values) =>
        var group := ArrayPairs(key, values, codec);
        assert AllPairs(params, codec) == group + AllPairs(rest, codec);
        if |values| > 0 {
          assert Pieces(params, codec) == [Join(group, "&")] + Pieces(rest, codec);
          GroupThenRest(group, Pieces(rest, codec), AllPairs(rest, codec));
        } else {
          assert group == [];
          assert AllPairs(params, codec) == AllPairs(rest, codec);
          assert Pieces(params, codec) == Pieces(rest, codec);
        }
      case _ =>
        GroupThenRest([Pair(key, ScalarText(v, codec), codec)], Pieces(rest, codec), AllPairs(rest, codec));
    }
  }

  /** A non-empty group of pairs joined in front of the remaining pieces reads as the group and the remaining pairs joined. */
  lemma GroupThenRest(group: seq<string>, restPieces: seq<string>, restPairs: seq<string>)
    requires |group| > 0
    requires Join(restPieces, "&") == Join(restPairs, "&")
    requires |restPieces| == 0 <==> |restPairs| == 0
    ensures Join([Join(group, "&")] + restPieces, "&") == Join(group + restPairs, "&")
  {
    if |restPairs| > 0 {
      JoinConcat(group, restPairs, "&");
      JoinConcat([Join(group, "&")], restPieces, "&");
    } else {
      assert group + restPairs == group;
      assert [Join(group, "&")] + restPieces == [Join(group, "&")];
    }
  }

  /** buildUrl: the path, a '?' and the query string, even when that is empty. */
  function BuildUrl(pathname: string, params: Params, codec: Codec): string
  {
    pathname + "?" + StringifyParams(params, codec)
  }

  /** The URL makeRequest sends: buildUrl's result with one trailing '?' sliced off. */
  function RequestUrl(path: string, params: Params, codec: Codec): string
  {
    var url := BuildUrl(path, params, codec);
    if url[|url| - 1] == '?' then url[..|url| - 1] else url
  }

  /** No parameter sets anything: every value is undefined or an empty array. */
  predicate NothingSet(params: Params)
  {
    forall i :: 0 <= i < |params| ==> params[i].1 == Undefined || params[i].1 == QArr([])
  }

  predicate EndsInQuestion(s: string)
  {
    |s| > 0 && s[|s| - 1] == '?'
  }

  /** encodeURIComponent escapes '?', so no encoded text ends in one. */
  ghost predicate EscapesQuestion(codec: Codec)
  {
    forall s :: !EndsInQuestion(codec.encode(s))
  }

  /**
   * The request URL is the bare path exactly when no parameter yields a pair;
   * otherwise it is the path, '?' and the query string, as long as the
   * encoder escapes '?'.
   */
  lemma RequestUrlMeaning(path: string, params: Params, codec: Codec)
    requires EscapesQuestion(codec)
    ensures |AllPairs(params, codec)| == 0 ==> RequestUrl(path, params, codec) == path
    ensures |AllPairs(params, codec)| > 0 ==> RequestUrl(path, params, codec) == path + "?" + StringifyParams(params, codec)
    ensures NothingSet(params) ==> RequestUrl(path, params, codec) == path
  {
    StringifyIsAllPairs(params, codec);
    var pairs := AllPairs(params, codec);
    var q := StringifyParams(params, codec);
    if |pairs| == 0 {
      assert path + "?" + q == path + "?";
    } else {
      PairsEndWell(params, codec);
      JoinEndsWell(pairs);
      assert (path + "?" + q)[|path + "?" + q| - 1] == q[|q| - 1];
    }
    if NothingSet(params) {
      NothingSetNoPairs(params, codec);
    }
  }

  /** A '&'-join of non-empty strings none of which ends in '?' is non-empty and does not end in '?'. */
  lemma {:induction false} JoinEndsWell(parts: seq<string>)
    requires |parts| > 0
    requires forall i :: 0 <= i < |parts| ==> |parts[i]| > 0 && !EndsInQuestion(parts[i])
    ensures |Join(parts, "&")| > 0 && !EndsInQuestion(Join(parts, "&"))
  {
    var n := |parts| - 1;
    JoinAppend(parts[..n], parts[n], "&");
    assert parts[..n] + [parts[n]] == parts;
  }

  /** A pair ends as the encoded value ends, or in '=' when that is empty. */
  lemma PairEndsWell(key: string, text: string, codec: Codec)
    requires EscapesQuestion(codec)
    ensures |Pair(key, text, codec)| > 0 && !EndsInQuestion(Pair(key, text, codec))
  {
    assert !EndsInQuestion(codec.encode(text));
  }

  lemma {:induction false} PairsEndWell(params: Params, codec: Codec)
    requires EscapesQuestion(codec)
    ensures forall i :: 0 <= i < |AllPairs(params, codec)| ==>
      |AllPairs(params, codec)[i]| > 0 && !EndsInQuestion(AllPairs(params, codec)[i])
  {
    if |params| > 0 {
      var (key, v) := params[0];
      PairsEndWell(params[1..], codec);
      match v
      case Undefined =>
      case QArr(values) =>
        forall i | 0 <= i < |values|
          ensures |ArrayPairs(key, values, codec)[i]| > 0 && !EndsInQuestion(ArrayPairs(key, values, codec)[i])
        {
          PairEndsWell(key, values[i], codec);
        }
      case _ =>
        PairEndsWell(key, ScalarText(v, codec), codec);
    }
  }

  lemma {:induction false} NothingSetNoPairs(params: Params, codec: Codec)
    requires NothingSet(params)
    ensures AllPairs(params, codec) == []
  {
    if |params| > 0 {
      NothingSetNoPairs(params[1..], codec);
    }
  }
}
