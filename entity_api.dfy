/**
 * The generic entity API of the client: which method and which path each
 * operation requests, and the parameters of the paged search. The API base URL
 * comes from the environment and is a parameter here.
 */
module EntityApi {
  import opened Common
  import opened ApiUtils

  datatype Verb = GET | POST | PATCH | DELETE

  /** A request as the helpers hand it to makeRequest: HTTP method, path and URL parameters (undefined is None). */
  datatype Request = Request(verb: Verb, path: string, urlParams: Option<Params>)

  /** fetchEntity: GET on the entity's API path and uuid. */
  function FetchEntity(apiBase: string, path: string, uuid: string, urlParams: Option<Params>): Request
  {
    Request(GET, ApiBasePath(apiBase, path) + "/" + uuid, urlParams)
  }

  /** createEntity: POST on the entity's API path. */
  function CreateEntity(apiBase: string, path: string, urlParams: Option<Params>): Request
  {
    Request(POST, ApiBasePath(apiBase, path), urlParams)
  }

  /** patchEntity: PATCH on the entity's API path and uuid. */
  function PatchEntity(apiBase: string, path: string, uuid: string, urlParams: Option<Params>): Request
  {
    Request(PATCH, ApiBasePath(apiBase, path) + "/" + uuid, urlParams)
  }

  /** removeEntity: DELETE on the entity's API path and uuid. */
  function RemoveEntity(apiBase: string, path: string, uuid: string, urlParams: Option<Params>): Request
  {
    Request(DELETE, ApiBasePath(apiBase, path) + "/" + uuid, urlParams)
  }

  /** fetchEntityList: GET on the entity's API path. */
  function FetchEntityList(apiBase: string, path: string, urlParams: Option<Params>): Request
  {
    Request(GET, ApiBasePath(apiBase, path), urlParams)
  }

  /** A sort entry of the grid: the field and its direction as the template string renders it. */
  datatype SortItem = SortItem(field: string, direction: string)

  /** The parameters of a paged search; an absent property is None. */
  datatype PagedParams = PagedParams(
    urlParams: Option<Params>,
    filter: Option<string>,
    page: Option<int>,
    size: Option<int>,
    sort: Option<seq<SortItem>>)

  /** The sort parameter: "field,direction" of the first entry, or "" when there is none. */
  function SortParam(sort: Option<seq<SortItem>>): string
  {
    if sort.Some? && |sort.value| > 0 then sort.value[0].field + "," + sort.value[0].direction else ""
  }

  /** The keys of a parameter object. */
  function Keys(params: Params): seq<string>
  {
    if |params| == 0 then [] else [params[0].0] + Keys(params[1..])
  }

  /**
   * One property of an object literal after a spread: an existing key keeps its
   * place and takes the new value, a new key goes last.
   */
  function SetParam(params: Params, key: string, v: ParamValue): (r: Params)
  {
    if |params| == 0 then [(key, v)]
    else if params[0].0 == key then [(key, v)] + params[1..]
    else [params[0]] + SetParam(params[1..], key, v)
  }

  /** The value of a key: its first entry's, undefined when it has none. */
  function Lookup(params: Params, key: string): ParamValue
  {
    if |params| == 0 then Undefined
    else if params[0].0 == key then params[0].1
    else Lookup(params[1..], key)
  }

  function OptStr(s: Option<string>): ParamValue
  {
    if s.Some? then QStr(s.value) else Undefined
  }

  function OptNum(n: Option<int>): ParamValue
  {
    if n.Some? then QNum(n.value) else Undefined
  }

  /**
   * The URL parameters of fetchPagedEntityList: {} without params; otherwise
   * the caller's parameters spread first, then filter, page, size and sort,
   * each overwriting a parameter of the same name even when it is undefined.
   */
  function PagedUrlParams(params: Option<PagedParams>): Params
  {
    if params.None? then []
    else
      var p := params.value;
      var base := if p.urlParams.Some? then p.urlParams.value else [];
      var a := SetParam(base, "filter", OptStr(p.filter));
      var b := SetParam(a, "page", OptNum(p.page));
      var c := SetParam(b, "size", OptNum(p.size));
      SetParam(c, "sort", QStr(SortParam(p.sort)))
  }

  /** fetchPagedEntityList: GET on the search path, without the API base. */
  function FetchPagedEntityList(path: string, params: Option<PagedParams>): Request
  {
    Request(GET, SearchApiPath(path), Some(PagedUrlParams(params)))
  }

  /** Setting a key gives it the new value and leaves every other key's value alone. */
  lemma {:induction false} SetParamLookup(params: Params, key: string, v: ParamValue, other: string)
    ensures Lookup(SetParam(params, key, v), key) == v
    ensures other != key ==> Lookup(SetParam(params, key, v), other) == Lookup(params, other)
  {
    if |params| > 0 && params[0].0 != key {
      SetParamLookup(params[1..], key, v, other);
    }
  }

  /** Setting a key keeps the existing keys in place and adds the key at the end only when it is new. */
  lemma {:induction false} SetParamKeys(params: Params, key: string, v: ParamValue)
    ensures key in Keys(params) ==> Keys(SetParam(params, key, v)) == Keys(params)
    ensures key !in Keys(params) ==> Keys(SetParam(params, key, v)) == Keys(params) + [key]
  {
    if |params| > 0 && params[0].0 != key {
      SetParamKeys(params[1..], key, v);
    }
  }

  /**
   * The paged search sends filter, page, size and sort as given (sort as its
   * first entry or ""), and every other parameter of the caller unchanged;
   * without params it sends none.
   */
  lemma PagedUrlParamsMeaning(params: Option<PagedParams>, key: string)
    ensures params.None? ==> PagedUrlParams(params) == []
    ensures params.Some? ==>
      var p := params.value;
      var r := PagedUrlParams(params);
      Lookup(r, "filter") == OptStr(p.filter) && Lookup(r, "page") == OptNum(p.page)
      && Lookup(r, "size") == OptNum(p.size) && Lookup(r, "sort") == QStr(SortParam(p.sort))
      && (key !in {"filter", "page", "size", "sort"} ==>
            Lookup(r, key) == Lookup(if p.urlParams.Some? then p.urlParams.value else [], key))
  {
    if params.Some? {
      var p := params.value;
      var base := if p.urlParams.Some? then p.urlParams.value else [];
      var a := SetParam(base, "filter", OptStr(p.filter));
      var b := SetParam(a, "page", OptNum(p.page));
      var c := SetParam(b, "size", OptNum(p.size));
      SetParamLookup(base, "filter", OptStr(p.filter), key);
      SetParamLookup(a, "page", OptNum(p.page), key);
      SetParamLookup(b, "size", OptNum(p.size), key);
      SetParamLookup(c, "sort", QStr(SortParam(p.sort)), key);
      SetParamLookup(a, "page", OptNum(p.page), "filter");
      SetParamLookup(b, "size", OptNum(p.size), "filter");
      SetParamLookup(c, "sort", QStr(SortParam(p.sort)), "filter");
      SetParamLookup(b, "size", OptNum(p.size), "page");
      SetParamLookup(c, "sort", QStr(SortParam(p.sort)), "page");
      SetParamLookup(c, "sort", QStr(SortParam(p.sort)), "size");
    }
  }

  /** The sort parameter names the first entry's field and direction, and is empty exactly when there is no entry. */
  lemma SortParamMeaning(sort: Option<seq<SortItem>>)
    ensures SortParam(sort) == "" <==> sort.None? || |sort.value| == 0
    ensures sort.Some? && |sort.value| > 0 ==>
      SortParam(sort)[..|sort.value[0].field|] == sort.value[0].field
      && SortParam(sort)[|sort.value[0].field|] == ','
      && SortParam(sort)[|sort.value[0].field| + 1..] == sort.value[0].direction
  {
  }

  /** The operations of EntityAPI(path). */
  datatype Operation =
    | Fetch(uuid: string, urlParams: Option<Params>)
    | Create(urlParams: Option<Params>)
    | Patch(uuid: string, urlParams: Option<Params>)
    | Remove(uuid: string, urlParams: Option<Params>)
    | FetchList(urlParams: Option<Params>)
    | FetchPagedList(params: PagedParams)

  /** EntityAPI(path): each operation goes to its helper with the API's path. */
  function EntityApiRequest(apiBase: string, path: string, op: Operation): Request
  {
    match op
    case Fetch(uuid, urlParams) => FetchEntity(apiBase, path, uuid, urlParams)
    case Create(urlParams) => CreateEntity(apiBase, path, urlParams)
    case Patch(uuid, urlParams) => PatchEntity(apiBase, path, uuid, urlParams)
    case Remove(uuid, urlParams) => RemoveEntity(apiBase, path, uuid, urlParams)
    case FetchList(urlParams) => FetchEntityList(apiBase, path, urlParams)
    case FetchPagedList(params) => FetchPagedEntityList(path, Some(params))
  }

  /**
   * The single-entity operations address "base/path/uuid", the list and create
   * operations "base/path", and the paged list "path/search" without the base;
   * the HTTP method is the one the operation names, and the caller's URL parameters
   * pass through.
   */
  lemma EntityApiPaths(apiBase: string, path: string, op: Operation)
    ensures var r := EntityApiRequest(apiBase, path, op);
      (op.Fetch? || op.Patch? || op.Remove? ==>
        r.path == apiBase + "/" + path + "/" + op.uuid && r.urlParams == op.urlParams)
      && (op.Create? || op.FetchList? ==> r.path == apiBase + "/" + path && r.urlParams == op.urlParams)
      && (op.FetchPagedList? ==> r.path == path + "/search")
      && (r.verb == GET <==> op.Fetch? || op.FetchList? || op.FetchPagedList?)
      && (r.verb == POST <==> op.Create?)
      && (r.verb == PATCH <==> op.Patch?)
      && (r.verb == DELETE <==> op.Remove?)
  {
  }
}
