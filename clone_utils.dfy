/**
 * CloneUtils: copies of entities made through their bean accessors. A shallow
 * bean copy takes every property that has a getter and a setter; a base-entity
 * clone leaves out the identity and audit properties (and any named ones),
 * starts Set and Map properties empty and skips other collections; an audit copy
 * is a shallow copy with the identity and audit properties cleared. A duplication
 * is validated on such a clone as if it were being created.
 */
module CloneUtils {
  import opened Common
  import opened ErrorRegistry
  import opened Exceptions
  import opened EntityObject
  import opened BaseEntity
  import ServiceUtils

  /** The properties cloneBaseEntity never copies. */
  const StandardExcludes: set<string> := {"uuid", "createdBy", "createdDate", "lastModifiedBy", "lastModifiedDate", "version"}

  /** The property names of a class: PropertyUtils lists one descriptor per name. */
  function Names(fields: seq<PropertyDecl>): set<string>
  {
    set i | 0 <= i < |fields| :: fields[i].name
  }

  /** A property with both a read and a write method. */
  predicate Copyable(info: ClassInfo, n: string)
  {
    info.Property(n).Some? && info.Property(n).value.readable && info.Property(n).value.writable
  }

  // ---------------------------------------------------------------------------
  // shallowBeanCopy and shallowAuditBaseCopy

  /** The values BeanUtils.copyProperties takes over: those of every copyable property. */
  function BeanCopyWrites(s: EntityState): map<string, Value>
  {
    map n | n in Names(s.info.fields) && Copyable(s.info, n) :: s.Get(n)
  }

  /** shallowBeanCopy: a new instance of the class with the copyable properties taken over. */
  function ShallowCopyOf(s: EntityState): EntityState
  {
    EntityState(s.info, NewInstance(s.info).props + BeanCopyWrites(s))
  }

  /**
   * A shallow copy agrees with its source on every copyable property (the very
   * same referenced objects) and holds the new instance's value elsewhere.
   */
  lemma ShallowCopyMeaning(s: EntityState, n: string)
    requires n in Names(s.info.fields)
    ensures Copyable(s.info, n) ==> ShallowCopyOf(s).Get(n) == s.Get(n)
    ensures !Copyable(s.info, n) ==> ShallowCopyOf(s).Get(n) == NewInstance(s.info).Get(n)
  {
  }

  /** The shallow copy of a base entity keeps its UUID, since uuid has a getter and a setter. */
  lemma ShallowCopyKeepsUuid(s: EntityState)
    requires ExtendsBaseEntity(s.info)
    ensures ShallowCopyOf(s).Uuid() == s.Uuid()
  {
    assert s.info.Property(BaseEntityFields[0].name) == Some(BaseEntityFields[0]);
    assert s.info.Property("uuid").value in s.info.fields;
    var j :| 0 <= j < |s.info.fields| && s.info.fields[j] == s.info.Property("uuid").value;
    assert "uuid" in Names(s.info.fields);
    ShallowCopyMeaning(s, "uuid");
  }

  method ShallowBeanCopy(source: Entity) returns (copy: Entity)
    ensures fresh(copy) && copy.State() == ShallowCopyOf(source.State())
  {
    copy := new Entity(ShallowCopyOf(source.State()));
  }

  /** shallowAuditBaseCopy: a shallow copy whose identity and audit properties are set to null. */
  function AuditCopyOf(s: EntityState): EntityState
  {
    var c := ShallowCopyOf(s);
    EntityState(s.info, c.props["uuid" := Null]["createdBy" := Null]["createdDate" := Null]
                                ["lastModifiedBy" := Null]["lastModifiedDate" := Null]["version" := Null])
  }

  /** The audit copy holds null in exactly the six standard properties and is the shallow copy elsewhere. */
  lemma AuditCopyMeaning(s: EntityState, n: string)
    ensures n in StandardExcludes ==> AuditCopyOf(s).Get(n) == Null
    ensures n !in StandardExcludes ==> AuditCopyOf(s).Get(n) == ShallowCopyOf(s).Get(n)
    ensures AuditCopyOf(s).Uuid().None?
  {
  }

  method ShallowAuditBaseCopy(source: Entity) returns (copy: Entity)
    ensures fresh(copy) && copy.State() == AuditCopyOf(source.State())
  {
    copy := ShallowBeanCopy(source);
    copy.SetProperty("uuid", Null);
    copy.SetProperty("createdBy", Null);
    copy.SetProperty("createdDate", Null);
    copy.SetProperty("lastModifiedBy", Null);
    copy.SetProperty("lastModifiedDate", Null);
    copy.SetProperty("version", Null);
  }

  // ---------------------------------------------------------------------------
  // cloneBaseEntity

  /** copyValue: the value written onto the clone, or None when the property is skipped. */
  function CopiedValue(d: PropertyDecl, v: Value): Option<Value>
  {
    match d.kind
    case CollectionKind(exactSet, _) => if exactSet then Some(Coll([])) else None
    case MapKind(exactMap) => if exactMap then Some(Dict(map[])) else Some(v)
    case _ => Some(v)
  }

  /** Whether cloneBaseEntity writes the property at all. */
  predicate Cloned(s: EntityState, excludes: set<string>, n: string)
  {
    Copyable(s.info, n) && n !in excludes && CopiedValue(s.info.Property(n).value, s.Get(n)).Some?
  }

  /** The writes of the clone loop for the properties named in ns. */
  function CloneWrites(s: EntityState, excludes: set<string>, ns: set<string>): map<string, Value>
  {
    map n | n in ns && Cloned(s, excludes, n) :: CopiedValue(s.info.Property(n).value, s.Get(n)).value
  }

  function Excludes(propertiesToIgnore: seq<string>): set<string>
  {
    StandardExcludes + set x | x in propertiesToIgnore
  }

  /** cloneBaseEntity: a new instance of the class carrying the clone writes. */
  function CloneOf(s: EntityState, propertiesToIgnore: seq<string>): EntityState
  {
    EntityState(s.info, NewInstance(s.info).props + CloneWrites(s, Excludes(propertiesToIgnore), Names(s.info.fields)))
  }

  /**
   * Each property of a clone: an excluded, inaccessible or skipped-collection
   * property keeps the new instance's value, a Set property is a new empty set,
   * a Map property a new empty map, any other the source's value (shared, not copied).
   */
  lemma CloneMeaning(s: EntityState, propertiesToIgnore: seq<string>, n: string)
    requires n in Names(s.info.fields)
    ensures var c := CloneOf(s, propertiesToIgnore);
      var d := s.info.Property(n).value;
      (n in StandardExcludes || n in propertiesToIgnore || !Copyable(s.info, n) ==> c.Get(n) == NewInstance(s.info).Get(n))
      && (n !in Excludes(propertiesToIgnore) && Copyable(s.info, n) ==>
            match d.kind
            case CollectionKind(exactSet, _) => c.Get(n) == if exactSet then Coll([]) else NewInstance(s.info).Get(n)
            case MapKind(exactMap) => c.Get(n) == if exactMap then Dict(map[]) else s.Get(n)
            case _ => c.Get(n) == s.Get(n))
  {
  }

  /** A clone of a base entity is not persisted: it has no UUID and no version, whatever the source had. */
  lemma CloneIsUnpersisted(s: EntityState, propertiesToIgnore: seq<string>)
    requires ExtendsBaseEntity(s.info)
    ensures CloneOf(s, propertiesToIgnore).Uuid().None? && CloneOf(s, propertiesToIgnore).Get("version") == Null
  {
    NewInstanceDefaults(s.info);
  }

  /** Writing one more property (or skipping it) extends the clone writes over base by that property. */
  lemma CloneWritesApplied(s: EntityState, excludes: set<string>, base: map<string, Value>, ns: set<string>, n: string)
    requires s.info.Property(n).Some?
    ensures var props := base + CloneWrites(s, excludes, ns);
      (if Cloned(s, excludes, n) then props[n := CopiedValue(s.info.Property(n).value, s.Get(n)).value] else props)
      == base + CloneWrites(s, excludes, ns + {n})
  {
    if Cloned(s, excludes, n) {
      assert CloneWrites(s, excludes, ns + {n}) == CloneWrites(s, excludes, ns)[n := CopiedValue(s.info.Property(n).value, s.Get(n)).value];
    } else {
      assert CloneWrites(s, excludes, ns + {n}) == CloneWrites(s, excludes, ns);
    }
  }

  method CloneBaseEntity(source: Entity, propertiesToIgnore: seq<string>) returns (target: Entity)
    ensures fresh(target) && target.State() == CloneOf(source.State(), propertiesToIgnore)
  {
    var excludes := Excludes(propertiesToIgnore);
    var s := source.State();
    target := new Entity(NewInstance(s.info));
    var fields := s.info.fields;
    var i := 0;
    while i < |fields|
      invariant 0 <= i <= |fields|
      invariant fresh(target) && target.info == s.info
      invariant target.props == NewInstance(s.info).props + CloneWrites(s, excludes, Names(fields[..i]))
    {
      CopyValue(s, excludes, i, target, NewInstance(s.info).props);
      i := i + 1;
    }
    assert fields[..i] == fields;
  }

  /** copyValue for the i-th declared property, unless it is excluded or lacks an accessor. */
  method CopyValue(s: EntityState, excludes: set<string>, i: nat, target: Entity, ghost base: map<string, Value>)
    requires i < |s.info.fields|
    requires target.props == base + CloneWrites(s, excludes, Names(s.info.fields[..i]))
    modifies target
    ensures target.props == base + CloneWrites(s, excludes, Names(s.info.fields[..i + 1]))
  {
    var fields := s.info.fields;
    var n := fields[i].name;
    var d := s.info.Property(n).value;
    CloneWritesApplied(s, excludes, base, Names(fields[..i]), n);
    if d.readable && d.writable && n !in excludes {
      var v := CopiedValue(d, s.Get(n));
      if v.Some? {
        target.SetProperty(n, v.value);
      }
    }
    assert Names(fields[..i + 1]) == Names(fields[..i]) + {n} by {
      assert forall j :: 0 <= j < i + 1 ==> fields[..i + 1][j] == fields[j];
    }
  }

  // ---------------------------------------------------------------------------
  // validateDuplication

  /** The temporary object's properties and the payload after the initializer has run. */
  datatype Initialized = Initialized(props: map<string, Value>, data: map<string, Value>)

  /** The initializer: it may change the temporary clone and fills the (initially empty) payload map. */
  type Initializer = (EntityState, map<string, Value>) -> Initialized

  /** The clone the duplication is validated on, after the initializer, and its payload. */
  function Duplicate(s: EntityState, initializer: Initializer): (EntityState, map<string, Value>)
  {
    var clone := CloneOf(s, []);
    var init := initializer(clone, map[]);
    (EntityState(s.info, init.props), init.data)
  }

  /**
   * validateDuplication: the validator sees the initialized clone with no
   * previous state and a fresh registry; a ValidationException carrying that
   * registry is thrown exactly when it reported an error.
   */
  method ValidateDuplication(source: Entity, validator: ServiceUtils.Validator, initializer: Initializer)
    returns (thrown: Option<Exception>)
    ensures var (temp, data) := Duplicate(source.State(), initializer);
      var errors := validator(temp, None, data, NoErrors);
      (thrown.Some? <==> !errors.IsEmpty()) && (thrown.Some? ==> thrown.value.kind == ValidationEx(errors))
  {
    var errors := new ValidationErrors();
    var tempEntity := CloneBaseEntity(source, []);
    var init := initializer(tempEntity.State(), map[]);
    tempEntity.props := init.props;
    var reported := validator(tempEntity.State(), None, init.data, errors.Snapshot());
    errors.global, errors.fields := reported.global, reported.fields;
    if !errors.IsEmpty() {
      thrown := Some(NewValidationException(errors.Snapshot()));
    } else {
      thrown := None;
    }
  }

  /** Validating a duplication is the validation performValidation does when the clone is created. */
  lemma DuplicationIsCreation(s: EntityState, validator: ServiceUtils.Validator, initializer: Initializer)
    ensures var (temp, data) := Duplicate(s, initializer);
      var r := ServiceUtils.PerformValidation(data, temp, true, None, Some(validator));
      var errors := validator(temp, None, data, NoErrors);
      (r.Some? <==> !errors.IsEmpty()) && (r.Some? ==> r.value.kind == ValidationEx(errors))
  {
  }
}
