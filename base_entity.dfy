/**
 * BaseEntity: the root of all persisted entities. Its fields uuid, version,
 * active and deleted are declared once here; a new instance starts unpersisted,
 * active and not deleted.
 */
module BaseEntity {
  import opened Common

  /** The fields BaseEntity declares, with their initial values. */
  const BaseEntityFields: seq<PropertyDecl> := [
    PropertyDecl("uuid", ScalarKind("UUID"), None, true, true, false, Some(ColumnAnn("", true, false, 36)), None),
    PropertyDecl("version", ScalarKind("Long"), None, true, true, false, None, None),
    PropertyDecl("active", Primitive("boolean"), Some(Bool(true)), true, true, false, None, None),
    PropertyDecl("deleted", Primitive("boolean"), Some(Bool(false)), true, true, false, None, None)
  ]

  /** The class inherits BaseEntity's fields and does not hide them. */
  predicate ExtendsBaseEntity(info: ClassInfo)
  {
    forall i :: 0 <= i < |BaseEntityFields| ==> info.Property(BaseEntityFields[i].name) == Some(BaseEntityFields[i])
  }

  /** The Java default of a field without an initializer. */
  function DefaultValue(k: Kind): Value
  {
    match k
    case Primitive(p) => if p == "boolean" then Bool(false) else if p == "double" || p == "float" then Real(0.0) else Int(0)
    case _ => Null
  }

  /** The state of `getConstructor().newInstance()`: every field holds its initializer or its default. */
  function NewInstance(info: ClassInfo): (r: EntityState)
    ensures r.info == info
    ensures forall i :: 0 <= i < |info.fields| ==> info.fields[i].name in r.props
  {
    var names := set i | 0 <= i < |info.fields| :: info.fields[i].name;
    EntityState(info, map n | n in names :: InitialOf(info.Property(n).value))
  }

  function InitialOf(d: PropertyDecl): Value
  {
    if d.initial.Some? then d.initial.value else DefaultValue(d.kind)
  }

  /** A new entity is not persisted (no UUID, no version), active and not deleted. */
  lemma NewInstanceDefaults(info: ClassInfo)
    requires ExtendsBaseEntity(info)
    ensures var e := NewInstance(info);
      e.Uuid() == None && e.Get("version") == Null && e.Get("active") == Bool(true) && e.Get("deleted") == Bool(false)
  {
    var e := NewInstance(info);
    var names := set i | 0 <= i < |info.fields| :: info.fields[i].name;
    forall i | 0 <= i < |BaseEntityFields|
      ensures BaseEntityFields[i].name in names && e.Get(BaseEntityFields[i].name) == InitialOf(BaseEntityFields[i])
    {
      var d := info.Property(BaseEntityFields[i].name).value;
      assert d in info.fields;
      var j :| 0 <= j < |info.fields| && info.fields[j] == d;
    }
    assert BaseEntityFields[0].name == "uuid" && BaseEntityFields[1].name == "version";
    assert BaseEntityFields[2].name == "active" && BaseEntityFields[3].name == "deleted";
  }

  /** toString: the simple class name followed by the UUID, or by "not persisted". */
  function ToString(e: EntityState): string
  {
    e.info.simpleName + (if e.Uuid().None? then ": not persisted" else ": " + e.Uuid().value)
  }

  /** Two persisted entities of one class print alike only when their UUIDs are equal. */
  lemma ToStringTellsUuids(a: EntityState, b: EntityState)
    requires a.info.simpleName == b.info.simpleName
    requires a.Uuid().Some? && b.Uuid().Some?
    requires ToString(a) == ToString(b)
    ensures a.Uuid() == b.Uuid()
  {
    var n := |a.info.simpleName| + 2;
    assert ToString(a)[n..] == a.Uuid().value;
    assert ToString(b)[n..] == b.Uuid().value;
  }

  /** equalsByUuid: the other object is present and has the same UUID (two unpersisted entities are equal). */
  predicate EqualsByUuid(self: EntityState, other: Option<EntityState>)
  {
    other.Some? && self.Uuid() == other.value.Uuid()
  }

  /** equalsByUuid is reflexive and symmetric on present objects and never holds for null. */
  lemma EqualsByUuidLaws(a: EntityState, b: EntityState)
    ensures EqualsByUuid(a, Some(a))
    ensures EqualsByUuid(a, Some(b)) <==> EqualsByUuid(b, Some(a))
    ensures !EqualsByUuid(a, None)
    ensures a.Uuid().None? && b.Uuid().None? ==> EqualsByUuid(a, Some(b))
  {
  }
}
