/**
 * StateDiff: the previous and the current state of an object. A create has only
 * a current state, a delete only a previous one, an update both, with the same UUID.
 */
module StateDiff {
  import opened Common
  import opened Exceptions
  import opened EventType

  datatype StateDiff = StateDiff(previous: Option<EntityState>, current: Option<EntityState>)

  function IllegalArgument(message: string): Exception
  {
    Exception(IllegalArgumentEx, "IllegalArgumentException", None, Some(message))
  }

  /** UUID.toString, or "null" for a missing UUID, as string concatenation renders it. */
  function UuidText(u: Option<Uuid>): string
  {
    if u.None? then "null" else u.value
  }

  /** The constructor: IllegalArgumentException when both states are null or their UUIDs differ. */
  function NewStateDiff(previous: Option<EntityState>, current: Option<EntityState>): (r: Result<StateDiff, Exception>)
  {
    if previous.None? && current.None? then
      Err(IllegalArgument("null for both states is not allowed"))
    else if previous.Some? && current.Some? && previous.value.Uuid() != current.value.Uuid() then
      Err(IllegalArgument("uuid " + UuidText(previous.value.Uuid()) + " does not match uuid " + UuidText(current.value.Uuid())))
    else
      Ok(StateDiff(previous, current))
  }

  /** getEventType: no previous state is a create, no current state a delete, both an update. */
  function EventTypeOf(d: StateDiff): (r: EventType)
  {
    if d.previous.None? then CREATE
    else if d.current.None? then DELETE
    else UPDATE
  }

  /**
   * A diff is built exactly when some state is given and two given states share
   * their UUID; its event type then tells which of the two states exist.
   */
  lemma DiffClassification(previous: Option<EntityState>, current: Option<EntityState>)
    ensures var r := NewStateDiff(previous, current);
      (r.Ok? <==> (previous.Some? || current.Some?)
                  && (previous.Some? && current.Some? ==> previous.value.Uuid() == current.value.Uuid()))
      && (r.Ok? ==>
            r.value == StateDiff(previous, current)
            && (EventTypeOf(r.value) == CREATE <==> previous.None? && current.Some?)
            && (EventTypeOf(r.value) == DELETE <==> previous.Some? && current.None?)
            && (EventTypeOf(r.value) == UPDATE <==> previous.Some? && current.Some?))
      && (r.Err? ==> r.error.kind == IllegalArgumentEx)
  {
  }
}
