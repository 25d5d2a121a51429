/**
 * The client-side route strings: the search route of an entity type and the
 * base, search, create and detail routes of an entity path.
 */
module Routes {
  import opened Common

  const Search := "/search"

  /**
   * getSearchRoute: "/search/<type>", or "/search" when no type is given (an
   * empty type is falsy as well).
   */
  function SearchRoute(entityType: Option<string>): (r: string)
    ensures entityType.None? || entityType.value == [] ==> r == Search
    ensures entityType.Some? && entityType.value != [] ==> r == Search + "/" + entityType.value && |r| > |Search| + 1
  {
    if entityType.Some? && entityType.value != [] then Search + "/" + entityType.value else Search
  }

  /** The routes createEntityRoutes builds for one entity path. */
  datatype EntityRoutes = EntityRoutes(base: string, search: string, create: string, detail: string)
  {
    /** getDetail: the detail route of one entity. */
    function GetDetail(uuid: string): string
    {
      base + "/" + uuid
    }
  }

  function CreateEntityRoutes(path: string): (r: EntityRoutes)
    ensures r.base == "/" + path
    ensures r.create == r.base + "/create" && r.detail == r.base + "/:uuid"
  {
    EntityRoutes("/" + path, "/search/" + path, "/" + path + "/create", "/" + path + "/:uuid")
  }

  /**
   * The detail route of an entity is the detail pattern with its ":uuid"
   * placeholder replaced by the uuid, and the search route of a path is the
   * search route of the type of that name.
   */
  lemma EntityRoutesAgree(path: string, uuid: string)
    ensures var r := CreateEntityRoutes(path);
      |r.detail| >= 5 && r.detail[|r.detail| - 5..] == ":uuid"
      && r.GetDetail(uuid) == r.detail[..|r.detail| - 5] + uuid
      && (path != [] ==> r.search == SearchRoute(Some(path)))
  {
    var r := CreateEntityRoutes(path);
    assert r.detail == r.detail[..|r.detail| - 5] + ":uuid";
  }

  /** Different entity paths get different routes, and different uuids different detail routes. */
  lemma RoutesInjective(p: string, q: string, u: string, v: string)
    ensures CreateEntityRoutes(p).base == CreateEntityRoutes(q).base ==> p == q
    ensures CreateEntityRoutes(p).GetDetail(u) == CreateEntityRoutes(p).GetDetail(v) ==> u == v
  {
    var b := CreateEntityRoutes(p).base;
    if CreateEntityRoutes(p).base == CreateEntityRoutes(q).base {
      assert p == b[1..];
    }
    if CreateEntityRoutes(p).GetDetail(u) == CreateEntityRoutes(p).GetDetail(v) {
      var d := CreateEntityRoutes(p).GetDetail(u);
      assert u == d[|b| + 1..];
    }
  }
}
