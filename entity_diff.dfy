/** EntityDiff: a state diff of an entity together with its class and the request data that caused it. */
module EntityDiff {
  import opened Common
  import opened Exceptions
  import StateDiff

  datatype EntityDiff = EntityDiff(entityClass: ClassInfo, diff: StateDiff.StateDiff, data: map<string, Value>)

  /** The constructor: the state diff's checks apply, and a null data map becomes an empty one. */
  function NewEntityDiff(entityClass: ClassInfo, previous: Option<EntityState>, current: Option<EntityState>,
                         data: Option<map<string, Value>>): (r: Result<EntityDiff, Exception>)
    ensures r.Ok? <==> StateDiff.NewStateDiff(previous, current).Ok?
    ensures r.Ok? ==> r.value.entityClass == entityClass
                      && r.value.diff == StateDiff.StateDiff(previous, current)
                      && r.value.data == (if data.Some? then data.value else map[])
    ensures r.Err? ==> r.error == StateDiff.NewStateDiff(previous, current).error
  {
    var d := StateDiff.NewStateDiff(previous, current);
    if d.Err? then Err(d.error)
    else Ok(EntityDiff(entityClass, d.value, if data.Some? then data.value else map[]))
  }
}
