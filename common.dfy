/**
 * The data model shared by the backend modules: property values, message
 * parameters, the annotation and type information that reflection reads from an
 * entity class, and the state of an entity as a map from property name to value.
 */
module Common {

  datatype Option<T> = None | Some(value: T)

  /** The outcome of an operation that may throw. */
  datatype Result<T, E> = Ok(value: T) | Err(error: E)

  /** A UUID in its canonical textual form (what UUID.toString yields). */
  type Uuid = string

  /** A parameter of a validation error or a translatable message (a Serializable). */
  datatype Param = PStr(s: string) | PInt(i: int) | PReal(r: real)

  /**
   * A property value or a payload value: Java null, the JSON scalar types, enum
   * constants, UUIDs, references to persisted entities, collections, maps and any
   * other object (identified by its class name and an identity token).
   */
  datatype Value =
    | Null
    | Str(s: string)
    | Int(i: int)
    | Real(r: real)
    | Bool(b: bool)
    | EnumConst(enumType: string, name: string)
    | Id(uuid: Uuid)
    | Ref(target: string, ref: Uuid)
    | Coll(items: seq<Value>)
    | Dict(entries: map<string, Value>)
    | Obj(cls: string, token: nat)

  /** The simple name of the runtime class of a non-null value. */
  function ClassOf(v: Value): string
  {
    match v
    case Null => "null"
    case Str(_) => "String"
    case Int(_) => "Integer"
    case Real(_) => "Double"
    case Bool(_) => "Boolean"
    case EnumConst(t, _) => t
    case Id(_) => "UUID"
    case Ref(t, _) => t
    case Coll(_) => "ArrayList"
    case Dict(_) => "LinkedHashMap"
    case Obj(c, _) => c
  }

  /** The declared type of a field or bean property, as far as the validation and mapping code looks at it. */
  datatype Kind =
    | Primitive(primName: string)
    | StringKind
    | EnumKind(enumType: string, constants: seq<string>)
    | EntityRefKind(target: string, entityName: string)
    | IdentifiableKind(cls: string)
    | CollectionKind(exactSet: bool, elemIsString: bool)
    | MapKind(exactMap: bool)
    | ScalarKind(cls: string)
  {
    /** UuidIdentifiable.class.isAssignableFrom(type): entity references and other identifiable types. */
    predicate IsUuidIdentifiable() { EntityRefKind? || IdentifiableKind? }

    /** Collection.class.isAssignableFrom(type). */
    predicate IsCollection() { CollectionKind? }
  }

  /** The attributes of a @Column annotation the code reads (name() is "" when not given). */
  datatype ColumnAnn = ColumnAnn(name: string, nullable: bool, unique: bool, length: int)

  /**
   * A field of an entity class together with its bean accessors: the field's name,
   * declared type and initial value (None: the Java default for the type), whether
   * a getter and a setter exist, and its @NotNull, @Column and @JoinColumn annotations.
   */
  datatype PropertyDecl = PropertyDecl(
    name: string,
    kind: Kind,
    initial: Option<Value>,
    readable: bool,
    writable: bool,
    notNull: bool,
    column: Option<ColumnAnn>,
    joinColumn: Option<string>)

  /**
   * An entity class: its simple name, the name given in @Entity, all fields of the
   * class and its parents in the order FieldUtils.getAllFieldsList lists them, and
   * the column-name lists of the unique constraints in @Table (empty without @Table).
   */
  datatype ClassInfo = ClassInfo(
    simpleName: string,
    entityName: string,
    fields: seq<PropertyDecl>,
    uniqueConstraints: seq<seq<string>>)
  {
    /** The declaration of the named property, if the class has one (the first one listed). */
    function Property(name: string): (r: Option<PropertyDecl>)
      ensures r.Some? ==> r.value in fields && r.value.name == name
      ensures r.None? ==> forall i :: 0 <= i < |fields| ==> fields[i].name != name
    {
      FirstNamed(fields, name)
    }
  }

  function FirstNamed(fs: seq<PropertyDecl>, name: string): (r: Option<PropertyDecl>)
    ensures r.Some? ==> r.value in fs && r.value.name == name
    ensures r.None? ==> forall i :: 0 <= i < |fs| ==> fs[i].name != name
  {
    if |fs| == 0 then None
    else if fs[0].name == name then Some(fs[0])
    else FirstNamed(fs[1..], name)
  }

  /** The state of an entity object: its class and the value of each property ("uuid" included). */
  datatype EntityState = EntityState(info: ClassInfo, props: map<string, Value>)
  {
    /** PropertyUtils.getProperty: the value of a property, null when unset. */
    function Get(name: string): Value
    {
      if name in props then props[name] else Null
    }

    /** The entity's UUID, when it has one. */
    function Uuid(): Option<Uuid>
    {
      if Get("uuid").Id? then Some(Get("uuid").uuid) else None
    }
  }

  /** The value a map holds for a key, null when absent (Map.get). */
  function Lookup(m: map<string, Value>, k: string): Value
  {
    if k in m then m[k] else Null
  }
}
