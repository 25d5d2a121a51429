/**
 * The persistence context as the backend sees it: a JPQL query with named
 * parameters returns a list of entity states. What the database holds and how it
 * evaluates a query are not modelled; the query is an oracle.
 */
module Persistence {
  import opened Common

  /** A bound query parameter: a single value or a collection of UUIDs. */
  datatype QueryParam = Scalar(v: Value) | UuidSet(uuids: set<Uuid>)

  /** EntityManager.createQuery(jpql).setParameter(...).getResultList(). */
  datatype Db = Db(query: (string, map<string, QueryParam>) -> seq<EntityState>)
}
