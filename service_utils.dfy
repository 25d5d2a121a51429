/**
 * ServiceUtils: applying a create or PATCH payload (a map from property name to
 * value) to an entity, and running a validator over the result.
 *
 * A patch has two stages. The simple stage writes every plain property and
 * collects the type errors, throwing them together as one ValidationException.
 * The reference stage turns single references, sent as UUID strings, into
 * entities: one query per target class, and any malformed or unknown UUID makes
 * the whole stage fail with an InvalidReferenceException before anything is written.
 */
module ServiceUtils {
  import opened Common
  import opened ErrorRegistry
  import opened Exceptions
  import opened Persistence
  import opened EntityObject

  /** ModelMapper.map(value, type): the converted value, or None when the mapper throws a MappingException. */
  type Converter = (Value, Kind) -> Option<Value>

  /**
   * What a patch consults besides the payload: the model mapper, UUID.fromString
   * (None when it throws), Object.toString, the entity name the metamodel gives a
   * class, and the entity manager.
   */
  datatype PatchEnv = PatchEnv(
    convert: Converter,
    parseUuid: string -> Option<Uuid>,
    render: Value -> string,
    entityNameOf: string -> string,
    em: Db)

  // ---------------------------------------------------------------------------
  // Simple properties

  /** What mapSimpleFields does with one payload entry. */
  datatype SimpleOutcome = Ignored | Written(v: Value) | Rejected(e: ValidationError)

  /** validateEnum: null passes, a string must name a constant, any other value must be of exactly the enum class. */
  function ValidateEnum(kind: Kind, value: Value): bool
    requires kind.EnumKind?
  {
    if value == Null then true
    else if value.Str? then value.s in kind.constants
    else ClassOf(value) == kind.enumType
  }

  /** The bean property has a descriptor: a getter or a setter. */
  predicate Accessible(info: ClassInfo, property: string)
  {
    var d := info.Property(property);
    d.Some? && (d.value.readable || d.value.writable)
  }

  predicate Writable(info: ClassInfo, property: string)
  {
    var d := info.Property(property);
    d.Some? && d.value.writable
  }

  /**
   * One iteration of mapSimpleFields: nested keys, inaccessible properties and
   * references are skipped; "" counts as null; null for a primitive is required;
   * an enum value must pass validateEnum; anything else goes through the mapper,
   * whose failure is an invalid value, and is written when there is a setter.
   */
  function SimpleOutcomeOf(info: ClassInfo, convert: Converter, property: string, payloadValue: Value): SimpleOutcome
  {
    if '.' in property then Ignored
    else
      var value := if payloadValue == Str("") then Null else payloadValue;
      if !Accessible(info, property) || info.Property(property).value.kind.IsUuidIdentifiable() then Ignored
      else
        var kind := info.Property(property).value.kind;
        if kind.Primitive? && value == Null then Rejected(RequiredError)
        else if kind.EnumKind? && !ValidateEnum(kind, value) then Rejected(InvalidValueError)
        else MapperOutcome(info, convert, property, value)
  }

  /** The mapper branch: null is written as is, anything else converted first. */
  function MapperOutcome(info: ClassInfo, convert: Converter, property: string, value: Value): SimpleOutcome
    requires info.Property(property).Some?
  {
    var dest := if value == Null then Some(Null) else convert(value, info.Property(property).value.kind);
    if dest.None? then Rejected(InvalidValueError)
    else if Writable(info, property) then Written(dest.value)
    else Ignored
  }

  /** The writes of the entries named in ns. */
  function Writes(info: ClassInfo, convert: Converter, payload: map<string, Value>, ns: set<string>): map<string, Value>
  {
    map k | k in ns && k in payload && SimpleOutcomeOf(info, convert, k, payload[k]).Written?
      :: SimpleOutcomeOf(info, convert, k, payload[k]).v
  }

  /** The type errors of the entries named in ns, one per rejected property. */
  function Rejections(info: ClassInfo, convert: Converter, payload: map<string, Value>, ns: set<string>): map<string, set<ValidationError>>
  {
    map k | k in ns && k in payload && SimpleOutcomeOf(info, convert, k, payload[k]).Rejected?
      :: {SimpleOutcomeOf(info, convert, k, payload[k]).e}
  }

  /** The exception mapSimpleFields throws, if any: all type errors together. */
  function TypeErrorException(typeErrors: map<string, set<ValidationError>>): Option<Exception>
  {
    if typeErrors == map[] then None else Some(NewValidationException(ErrorSet({}, typeErrors)))
  }

  /**
   * For every property name: it ends up holding the converted value exactly when
   * its payload entry is written, keeps its old value otherwise, and has a type
   * error exactly when its entry is rejected; the exception carries all of them.
   */
  lemma {:induction false} SimpleFieldsMeaning(info: ClassInfo, convert: Converter, props: map<string, Value>,
                                              payload: map<string, Value>, k: string)
    ensures var mapped := props + Writes(info, convert, payload, payload.Keys);
      var rejected := Rejections(info, convert, payload, payload.Keys);
      var out := if k in payload then SimpleOutcomeOf(info, convert, k, payload[k]) else Ignored;
      (out.Written? ==> k in mapped && mapped[k] == out.v)
      && (!out.Written? ==> (k in mapped <==> k in props) && (k in props ==> mapped[k] == props[k]))
      && (k in rejected <==> out.Rejected?)
      && (out.Rejected? ==> rejected[k] == {out.e})
      && (TypeErrorException(rejected).Some? <==> exists j :: j in payload && SimpleOutcomeOf(info, convert, j, payload[j]).Rejected?)
  {
    var rejected := Rejections(info, convert, payload, payload.Keys);
    if exists j :: j in payload && SimpleOutcomeOf(info, convert, j, payload[j]).Rejected? {
      var j :| j in payload && SimpleOutcomeOf(info, convert, j, payload[j]).Rejected?;
      assert j in rejected;
    }
  }

  /** Keys naming a nested property, inaccessible properties and references are never written and never rejected. */
  lemma SkippedEntries(info: ClassInfo, convert: Converter, k: string, v: Value)
    requires '.' in k || !Accessible(info, k) || info.Property(k).value.kind.IsUuidIdentifiable()
    ensures SimpleOutcomeOf(info, convert, k, v) == Ignored
  {
  }

  /** An empty string is null: a primitive gets the required error, any other property is written null when it can be. */
  lemma EmptyStringIsNull(info: ClassInfo, convert: Converter, k: string)
    requires '.' !in k && Accessible(info, k) && !info.Property(k).value.kind.IsUuidIdentifiable()
    ensures SimpleOutcomeOf(info, convert, k, Str("")) == SimpleOutcomeOf(info, convert, k, Null)
    ensures info.Property(k).value.kind.Primitive? ==> SimpleOutcomeOf(info, convert, k, Null) == Rejected(RequiredError)
    ensures !info.Property(k).value.kind.Primitive? ==>
              SimpleOutcomeOf(info, convert, k, Null) == (if Writable(info, k) then Written(Null) else Ignored)
  {
  }

  /**
   * An enum property takes null, the name of one of its constants (as a string)
   * or a value of exactly its class; any other value is an invalid value, whatever the mapper would do.
   */
  lemma EnumRule(info: ClassInfo, convert: Converter, k: string, v: Value)
    requires '.' !in k && Accessible(info, k) && info.Property(k).value.kind.EnumKind?
    requires v != Str("")
    ensures var kind := info.Property(k).value.kind;
      var accepted := v == Null || (v.Str? && v.s in kind.constants) || (!v.Str? && ClassOf(v) == kind.enumType);
      (!accepted ==> SimpleOutcomeOf(info, convert, k, v) == Rejected(InvalidValueError))
      && (accepted ==> SimpleOutcomeOf(info, convert, k, v) == MapperOutcome(info, convert, k, v))
  {
  }

  lemma WritesStep(info: ClassInfo, convert: Converter, payload: map<string, Value>, ns: set<string>, k: string)
    requires k in payload && k !in ns
    ensures var out := SimpleOutcomeOf(info, convert, k, payload[k]);
      Writes(info, convert, payload, ns + {k})
        == (if out.Written? then Writes(info, convert, payload, ns)[k := out.v] else Writes(info, convert, payload, ns))
      && Rejections(info, convert, payload, ns + {k})
        == (if out.Rejected? then Rejections(info, convert, payload, ns)[k := {out.e}] else Rejections(info, convert, payload, ns))
  {
  }

  /** Applying one more entry to a target that already holds the writes of ns gives the writes of ns and that entry. */
  lemma WritesApplied(info: ClassInfo, convert: Converter, base: map<string, Value>, payload: map<string, Value>, ns: set<string>, k: string)
    requires k in payload && k !in ns
    ensures var out := SimpleOutcomeOf(info, convert, k, payload[k]);
      var props := base + Writes(info, convert, payload, ns);
      (if out.Written? then props[k := out.v] else props) == base + Writes(info, convert, payload, ns + {k})
  {
    WritesStep(info, convert, payload, ns, k);
  }

  /** Registering a rejected entry's error in the registry of the earlier type errors gives the type errors with it. */
  lemma RejectionsRegistered(info: ClassInfo, convert: Converter, payload: map<string, Value>, ns: set<string>, k: string)
    requires k in payload && k !in ns
    ensures var out := SimpleOutcomeOf(info, convert, k, payload[k]);
      var before := ErrorSet({}, Rejections(info, convert, payload, ns));
      ErrorSet({}, Rejections(info, convert, payload, ns + {k}))
        == (if out.Rejected? then before.AddField(k, out.e) else before)
  {
    var out := SimpleOutcomeOf(info, convert, k, payload[k]);
    var rs := Rejections(info, convert, payload, ns);
    WritesStep(info, convert, payload, ns, k);
    if out.Rejected? {
      assert k !in rs;
      assert ErrorSet({}, rs).AddField(k, out.e) == ErrorSet({}, rs[k := {} + {out.e}]);
      assert {} + {out.e} == {out.e};
    }
  }

  /** One payload entry of mapSimpleFields. */
  method MapSimpleField(property: string, payloadValue: Value, target: Entity, typeErrors: ValidationErrors, convert: Converter)
    requires property !in typeErrors.fields
    modifies target, typeErrors
    ensures var out := SimpleOutcomeOf(target.info, convert, property, payloadValue);
      target.props == (if out.Written? then old(target.props)[property := out.v] else old(target.props))
      && typeErrors.Snapshot() == (if out.Rejected? then old(typeErrors.Snapshot()).AddField(property, out.e) else old(typeErrors.Snapshot()))
  {
    if '.' in property {
      return;
    }
    var value := payloadValue;
    if value == Str("") {
      value := Null;
    }
    var error := false;
    var decl := target.info.Property(property);
    if decl.None? || !(decl.value.readable || decl.value.writable) || decl.value.kind.IsUuidIdentifiable() {
      return;
    }
    var kind := decl.value.kind;
    if kind.Primitive? && value == Null {
      typeErrors.AddFieldError(property, RequiredError);
    } else if kind.EnumKind? && !ValidateEnum(kind, value) {
      error := true;
    } else {
      var destValue := if value == Null then Some(Null) else convert(value, kind);
      if destValue.None? {
        error := true;
      } else if decl.value.writable {
        target.SetProperty(property, destValue.value);
      }
    }
    if error {
      typeErrors.AddFieldError(property, InvalidValueError);
    }
  }

  /**
   * mapSimpleFields: every entry is handled, accepted ones are written, and the
   * type errors are thrown together afterwards (the accepted writes stay).
   */
  method MapSimpleFields(payload: map<string, Value>, target: Entity, convert: Converter) returns (thrown: Option<Exception>)
    modifies target
    ensures target.props == old(target.props) + Writes(target.info, convert, payload, payload.Keys)
    ensures thrown == TypeErrorException(Rejections(target.info, convert, payload, payload.Keys))
  {
    var typeErrors := new ValidationErrors();
    var todo := payload.Keys;
    ghost var done: set<string> := {};
    while todo != {}
      invariant todo <= payload.Keys && done == payload.Keys - todo
      invariant target.props == old(target.props) + Writes(target.info, convert, payload, done)
      invariant typeErrors.Snapshot() == ErrorSet({}, Rejections(target.info, convert, payload, done))
      decreases todo
    {
      var property :| property in todo;
      WritesApplied(target.info, convert, old(target.props), payload, done, property);
      RejectionsRegistered(target.info, convert, payload, done, property);
      MapSimpleField(property, payload[property], target, typeErrors, convert);
      done := done + {property};
      todo := todo - {property};
    }
    assert done == payload.Keys;
    assert typeErrors.fields == Rejections(target.info, convert, payload, payload.Keys);
    if !typeErrors.IsEmpty() {
      thrown := Some(NewValidationException(typeErrors.Snapshot()));
    } else {
      thrown := None;
    }
  }

  // ---------------------------------------------------------------------------
  // Single references

  /**
   * EntityUUIDs: the UUIDs collected for one target class, with the class's
   * entity name. Its set of (property, UUID) pairs holds each property at most
   * once, so it is kept as a map from property to UUID.
   */
  datatype EntityUuids = EntityUuids(entityName: string, entityClass: string, uuids: map<string, Uuid>)

  /** The attribute is a single (non-collection) reference to a BaseEntity. */
  predicate IsReference(info: ClassInfo, property: string)
  {
    var d := info.Property(property);
    d.Some? && d.value.kind.EntityRefKind?
  }

  /** The class a reference attribute points to. */
  function TargetOf(info: ClassInfo, property: string): string
    requires IsReference(info, property)
  {
    info.Property(property).value.kind.target
  }

  /** The payload sends this reference as a string UUID.fromString accepts. */
  predicate WellFormed(env: PatchEnv, payload: map<string, Value>, k: string)
  {
    k in payload && payload[k].Str? && env.parseUuid(payload[k].s).Some?
  }

  function UuidOf(env: PatchEnv, payload: map<string, Value>, k: string): Uuid
    requires WellFormed(env, payload, k)
  {
    env.parseUuid(payload[k].s).value
  }

  /** The referenced attributes the payload names. */
  function ReferenceNames(info: ClassInfo, payload: map<string, Value>): set<string>
  {
    set k | k in payload && IsReference(info, k)
  }

  /** The references of ns the payload sets to null. */
  function NullRefs(info: ClassInfo, payload: map<string, Value>, ns: set<string>): set<string>
  {
    set k | k in ns && k in payload && IsReference(info, k) && payload[k] == Null
  }

  /** The invalid property reference of a value that is neither null nor a UUID string: property and toString(). */
  function MalformedRef(env: PatchEnv, k: string, v: Value): InvalidPropertyReference
  {
    InvalidPropertyReference(k, if v.Str? then v.s else env.render(v))
  }

  function MalformedRefs(info: ClassInfo, env: PatchEnv, payload: map<string, Value>, ns: set<string>): set<InvalidPropertyReference>
  {
    set k | k in ns && k in payload && IsReference(info, k) && payload[k] != Null && !WellFormed(env, payload, k)
      :: MalformedRef(env, k, payload[k])
  }

  /** The references of ns that go into a batch. */
  predicate Batched(info: ClassInfo, env: PatchEnv, payload: map<string, Value>, ns: set<string>, k: string)
  {
    k in ns && IsReference(info, k) && WellFormed(env, payload, k)
  }

  function BatchClasses(info: ClassInfo, env: PatchEnv, payload: map<string, Value>, ns: set<string>): set<string>
  {
    set k | k in ns && IsReference(info, k) && WellFormed(env, payload, k) :: TargetOf(info, k)
  }

  function BatchOf(info: ClassInfo, env: PatchEnv, payload: map<string, Value>, ns: set<string>, c: string): map<string, Uuid>
  {
    map k | k in ns && IsReference(info, k) && WellFormed(env, payload, k) && TargetOf(info, k) == c :: UuidOf(env, payload, k)
  }

  /** The entityUuids map: one batch per target class, holding the property UUIDs aimed at that class. */
  function Batches(info: ClassInfo, env: PatchEnv, payload: map<string, Value>, ns: set<string>): map<string, EntityUuids>
  {
    map c | c in BatchClasses(info, env, payload, ns) :: EntityUuids(env.entityNameOf(c), c, BatchOf(info, env, payload, ns, c))
  }

  /** Adding one batched reference adds its class, and its UUID to that class's batch only. */
  lemma BatchesStep(info: ClassInfo, env: PatchEnv, payload: map<string, Value>, ns: set<string>, k: string)
    requires Batched(info, env, payload, {k}, k) && k !in ns
    ensures var c := TargetOf(info, k);
      var b := Batches(info, env, payload, ns);
      Batches(info, env, payload, ns + {k})
        == b[c := EntityUuids(env.entityNameOf(c), c, (if c in b then b[c].uuids else map[])[k := UuidOf(env, payload, k)])]
  {
    var c := TargetOf(info, k);
    var b := Batches(info, env, payload, ns);
    var after := Batches(info, env, payload, ns + {k});
    var expected := b[c := EntityUuids(env.entityNameOf(c), c, (if c in b then b[c].uuids else map[])[k := UuidOf(env, payload, k)])];
    assert BatchClasses(info, env, payload, ns + {k}) == BatchClasses(info, env, payload, ns) + {c};
    forall c' | c' in after
      ensures c' in expected && after[c'] == expected[c']
    {
      BatchOfStep(info, env, payload, ns, k, c');
    }
    SameEntries(after, expected);
  }

  lemma BatchOfStep(info: ClassInfo, env: PatchEnv, payload: map<string, Value>, ns: set<string>, k: string, c: string)
    requires Batched(info, env, payload, {k}, k) && k !in ns
    ensures BatchOf(info, env, payload, ns + {k}, c)
         == if c == TargetOf(info, k) then BatchOf(info, env, payload, ns, c)[k := UuidOf(env, payload, k)]
            else BatchOf(info, env, payload, ns, c)
    ensures c !in BatchClasses(info, env, payload, ns) ==> BatchOf(info, env, payload, ns, c) == map[]
  {
  }

  /** A reference that is not batched leaves the batches as they are. */
  lemma BatchesUnchanged(info: ClassInfo, env: PatchEnv, payload: map<string, Value>, ns: set<string>, k: string)
    requires !Batched(info, env, payload, {k}, k)
    ensures Batches(info, env, payload, ns + {k}) == Batches(info, env, payload, ns)
  {
    assert BatchClasses(info, env, payload, ns + {k}) == BatchClasses(info, env, payload, ns);
    forall c ensures BatchOf(info, env, payload, ns + {k}, c) == BatchOf(info, env, payload, ns, c) {
    }
  }

  /** The query of resolveReferencedEntities for one batch. */
  function BatchQuery(b: EntityUuids): string
  {
    "select e from " + b.entityName + " e where e.uuid in (:uuids)"
  }

  function BatchRows(b: EntityUuids, em: Db): seq<EntityState>
  {
    em.query(BatchQuery(b), map["uuids" := UuidSet(b.uuids.Values)])
  }

  /** One of the entities rows holds this UUID. */
  predicate FoundIn(rows: seq<EntityState>, u: Uuid)
  {
    exists r :: r in rows && r.Uuid() == Some(u)
  }

  /** The pairs whose UUID one of the rows holds, each mapped to a reference to its entity. */
  function FoundPairs(uuids: map<string, Uuid>, cls: string, rows: seq<EntityState>): map<string, Value>
  {
    map p | p in uuids && FoundIn(rows, uuids[p]) :: Ref(cls, uuids[p])
  }

  /** The pairs whose UUID none of the rows holds. */
  function MissingPairs(uuids: map<string, Uuid>, rows: seq<EntityState>): map<string, Uuid>
  {
    map p | p in uuids && !FoundIn(rows, uuids[p]) :: uuids[p]
  }

  /** The entities a batch resolves: property to entity, for each UUID its query returned. */
  function BatchData(b: EntityUuids, em: Db): map<string, Value>
  {
    FoundPairs(b.uuids, b.entityClass, BatchRows(b, em))
  }

  /** The pairs of a batch its query did not return. */
  function BatchUnresolved(b: EntityUuids, em: Db): map<string, Uuid>
  {
    MissingPairs(b.uuids, BatchRows(b, em))
  }

  /**
   * One batch: no query when it is empty; otherwise each entity the query
   * returns resolves the pairs with its UUID, and the others remain unresolved.
   */
  method ResolveBatch(b: EntityUuids, em: Db) returns (data: map<string, Value>, unresolved: map<string, Uuid>)
    ensures data == BatchData(b, em) && unresolved == BatchUnresolved(b, em)
  {
    data := map[];
    unresolved := b.uuids;
    if b.uuids == map[] {
      return;
    }
    var rows := em.query(BatchQuery(b), map["uuids" := UuidSet(b.uuids.Values)]);
    var i := 0;
    assert rows[..0] == [];
    while i < |rows|
      invariant 0 <= i <= |rows|
      invariant unresolved == MissingPairs(b.uuids, rows[..i])
      invariant data == FoundPairs(b.uuids, b.entityClass, rows[..i])
    {
      var matching := set p | p in b.uuids && Some(b.uuids[p]) == rows[i].Uuid();
      RowStep(rows, i, b.uuids, b.entityClass, matching);
      unresolved := unresolved - matching;
      data := data + map p | p in matching :: Ref(b.entityClass, b.uuids[p]);
      i := i + 1;
    }
    assert rows[..i] == rows;
  }

  /** One more row: the pairs holding its UUID move from the missing ones to the found ones. */
  lemma RowStep(rows: seq<EntityState>, i: nat, uuids: map<string, Uuid>, cls: string, matching: set<string>)
    requires i < |rows| && matching == set p | p in uuids && Some(uuids[p]) == rows[i].Uuid()
    ensures MissingPairs(uuids, rows[..i]) - matching == MissingPairs(uuids, rows[..i + 1])
    ensures FoundPairs(uuids, cls, rows[..i]) + (map p | p in matching :: Ref(cls, uuids[p])) == FoundPairs(uuids, cls, rows[..i + 1])
  {
    FoundInStep(rows, i, uuids);
  }

  lemma FoundInStep(rows: seq<EntityState>, i: nat, uuids: map<string, Uuid>)
    requires i < |rows|
    ensures forall p :: p in uuids ==>
      (FoundIn(rows[..i + 1], uuids[p]) <==> FoundIn(rows[..i], uuids[p]) || Some(uuids[p]) == rows[i].Uuid())
  {
    assert rows[..i + 1] == rows[..i] + [rows[i]];
    forall p | p in uuids
      ensures FoundIn(rows[..i + 1], uuids[p]) <==> FoundIn(rows[..i], uuids[p]) || Some(uuids[p]) == rows[i].Uuid()
    {
      if FoundIn(rows[..i + 1], uuids[p]) {
        var r :| r in rows[..i + 1] && r.Uuid() == Some(uuids[p]);
        if r != rows[i] {
          assert r in rows[..i];
        }
      }
      if Some(uuids[p]) == rows[i].Uuid() {
        assert rows[i] in rows[..i + 1];
      }
    }
  }

  /** A batched reference is resolved when its class's query returned its UUID. */
  predicate Resolved(info: ClassInfo, env: PatchEnv, payload: map<string, Value>, batches: map<string, EntityUuids>, k: string)
    requires IsReference(info, k) && WellFormed(env, payload, k)
  {
    TargetOf(info, k) in batches && FoundIn(BatchRows(batches[TargetOf(info, k)], env.em), UuidOf(env, payload, k))
  }

  /** The resolved data of the batches of the classes in cs: each resolved reference to its entity. */
  function ResolvedData(info: ClassInfo, env: PatchEnv, payload: map<string, Value>, refs: set<string>, batches: map<string, EntityUuids>, cs: set<string>): map<string, Value>
  {
    map k | k in refs && IsReference(info, k) && WellFormed(env, payload, k) && TargetOf(info, k) in cs
            && Resolved(info, env, payload, batches, k)
      :: Ref(TargetOf(info, k), UuidOf(env, payload, k))
  }

  /** The unknown references of the batches of the classes in cs. */
  function UnresolvedRefs(info: ClassInfo, env: PatchEnv, payload: map<string, Value>, refs: set<string>, batches: map<string, EntityUuids>, cs: set<string>): set<InvalidPropertyReference>
  {
    set k | k in refs && IsReference(info, k) && WellFormed(env, payload, k) && TargetOf(info, k) in cs
            && !Resolved(info, env, payload, batches, k)
      :: InvalidPropertyReference(k, UuidOf(env, payload, k))
  }

  /** The batch of class c holds exactly the batched references aimed at c, under their UUIDs. */
  lemma BatchHolds(info: ClassInfo, env: PatchEnv, payload: map<string, Value>, refs: set<string>, c: string, k: string)
    requires c in Batches(info, env, payload, refs)
    ensures var b := Batches(info, env, payload, refs)[c];
      (k in b.uuids <==> Batched(info, env, payload, refs, k) && TargetOf(info, k) == c)
      && (k in b.uuids ==> b.uuids[k] == UuidOf(env, payload, k))
      && b.entityClass == c
  {
  }

  lemma ResolvedDataStep(info: ClassInfo, env: PatchEnv, payload: map<string, Value>, refs: set<string>, batches: map<string, EntityUuids>, cs: set<string>, c: string)
    requires batches == Batches(info, env, payload, refs) && c in batches && c !in cs
    ensures ResolvedData(info, env, payload, refs, batches, cs + {c})
         == ResolvedData(info, env, payload, refs, batches, cs) + BatchData(batches[c], env.em)
  {
    var b := batches[c];
    var after := ResolvedData(info, env, payload, refs, batches, cs + {c});
    var sum := ResolvedData(info, env, payload, refs, batches, cs) + BatchData(b, env.em);
    forall k
      ensures k in after <==> k in sum
      ensures k in after ==> after[k] == sum[k]
    {
      ResolvedDataAt(info, env, payload, refs, batches, cs, c, k);
    }
    SameEntries(after, sum);
  }

  lemma UnionAssociates<K, V>(a: map<K, V>, b: map<K, V>, c: map<K, V>)
    ensures (a + b) + c == a + (b + c)
  {
  }

  lemma SameEntries<K, V>(a: map<K, V>, b: map<K, V>)
    requires forall k :: (k in a <==> k in b) && (k in a ==> a[k] == b[k])
    ensures a == b
  {
  }

  lemma ResolvedDataAt(info: ClassInfo, env: PatchEnv, payload: map<string, Value>, refs: set<string>, batches: map<string, EntityUuids>, cs: set<string>, c: string, k: string)
    requires batches == Batches(info, env, payload, refs) && c in batches && c !in cs
    ensures var after := ResolvedData(info, env, payload, refs, batches, cs + {c});
      var sum := ResolvedData(info, env, payload, refs, batches, cs) + BatchData(batches[c], env.em);
      (k in after <==> k in sum) && (k in after ==> after[k] == sum[k])
  {
    BatchHolds(info, env, payload, refs, c, k);
  }

  lemma UnresolvedRefsStep(info: ClassInfo, env: PatchEnv, payload: map<string, Value>, refs: set<string>, batches: map<string, EntityUuids>, cs: set<string>, c: string)
    requires batches == Batches(info, env, payload, refs) && c in batches && c !in cs
    ensures UnresolvedRefs(info, env, payload, refs, batches, cs + {c})
         == UnresolvedRefs(info, env, payload, refs, batches, cs) + ErrorsOf(BatchUnresolved(batches[c], env.em))
  {
    var b := batches[c];
    var after := UnresolvedRefs(info, env, payload, refs, batches, cs + {c});
    var sum := UnresolvedRefs(info, env, payload, refs, batches, cs) + ErrorsOf(BatchUnresolved(b, env.em));
    forall r | r in after
      ensures r in sum
    {
      var k :| k in refs && IsReference(info, k) && WellFormed(env, payload, k) && TargetOf(info, k) in cs + {c}
            && !Resolved(info, env, payload, batches, k) && r == InvalidPropertyReference(k, UuidOf(env, payload, k));
      BatchHolds(info, env, payload, refs, c, k);
      if TargetOf(info, k) == c {
        assert k in BatchUnresolved(b, env.em);
      }
    }
    forall r | r in sum
      ensures r in after
    {
      if r in ErrorsOf(BatchUnresolved(b, env.em)) {
        var k :| k in BatchUnresolved(b, env.em) && r == InvalidPropertyReference(k, BatchUnresolved(b, env.em)[k]);
        BatchHolds(info, env, payload, refs, c, k);
        assert !Resolved(info, env, payload, batches, k);
      }
    }
  }

  /** The invalid references of the pairs of unresolved named in ks, as result::addError records them. */
  function ErrorsIn(unresolved: map<string, Uuid>, ks: set<string>): set<InvalidPropertyReference>
  {
    set p | p in ks && p in unresolved :: InvalidPropertyReference(p, unresolved[p])
  }

  function ErrorsOf(unresolved: map<string, Uuid>): set<InvalidPropertyReference>
  {
    ErrorsIn(unresolved, unresolved.Keys)
  }

  lemma ErrorsInStep(unresolved: map<string, Uuid>, ks: set<string>, p: string)
    requires p in unresolved
    ensures ErrorsIn(unresolved, ks + {p}) == ErrorsIn(unresolved, ks) + {InvalidPropertyReference(p, unresolved[p])}
  {
  }

  /** The elements of a list, as the set the exception copies them into. */
  function Elems<T>(s: seq<T>): set<T>
  {
    set x | x in s
  }

  lemma ElemsAppend<T>(a: seq<T>, b: seq<T>)
    ensures Elems(a + b) == Elems(a) + Elems(b)
  {
    forall x | x in Elems(a + b)
      ensures x in Elems(a) + Elems(b)
    {
      var i :| 0 <= i < |a + b| && (a + b)[i] == x;
      if i < |a| {
        assert a[i] == x;
      } else {
        assert b[i - |a|] == x;
      }
    }
    forall x | x in Elems(a) + Elems(b)
      ensures x in Elems(a + b)
    {
      if x in a {
        var i :| 0 <= i < |a| && a[i] == x;
        assert (a + b)[i] == x;
      } else {
        var i :| 0 <= i < |b| && b[i] == x;
        assert (a + b)[|a| + i] == x;
      }
    }
  }

  /**
   * resolveReferencedEntities: every batch is queried once (an empty one not at
   * all); each reference its query returned maps its property to the entity,
   * each other one becomes an invalid reference.
   */
  method ResolveReferencedEntities(ghost info: ClassInfo, ghost payload: map<string, Value>, ghost refs: set<string>,
                                   batches: map<string, EntityUuids>, env: PatchEnv)
    returns (data: map<string, Value>, invalidRefs: seq<InvalidPropertyReference>)
    requires batches == Batches(info, env, payload, refs)
    ensures data == ResolvedData(info, env, payload, refs, batches, batches.Keys)
    ensures Elems(invalidRefs) == UnresolvedRefs(info, env, payload, refs, batches, batches.Keys)
  {
    data := map[];
    invalidRefs := [];
    NothingResolvedYet(info, env, payload, refs, batches);
    assert Elems(invalidRefs) == {};
    var todo := batches.Keys;
    ghost var done: set<string> := {};
    while todo != {}
      invariant todo <= batches.Keys && done == batches.Keys - todo
      invariant data == ResolvedData(info, env, payload, refs, batches, done)
      invariant Elems(invalidRefs) == UnresolvedRefs(info, env, payload, refs, batches, done)
      decreases todo
    {
      var c :| c in todo;
      data, invalidRefs := ResolveClass(info, payload, refs, done, batches, c, env, data, invalidRefs);
      done := done + {c};
      todo := todo - {c};
    }
    assert done == batches.Keys;
  }

  lemma NothingResolvedYet(info: ClassInfo, env: PatchEnv, payload: map<string, Value>, refs: set<string>, batches: map<string, EntityUuids>)
    ensures ResolvedData(info, env, payload, refs, batches, {}) == map[]
    ensures UnresolvedRefs(info, env, payload, refs, batches, {}) == {}
  {
  }

  /** One iteration of resolveReferencedEntities: the batch of class c is resolved and its results recorded. */
  method ResolveClass(ghost info: ClassInfo, ghost payload: map<string, Value>, ghost refs: set<string>, ghost done: set<string>,
                      batches: map<string, EntityUuids>, c: string, env: PatchEnv,
                      data: map<string, Value>, invalidRefs: seq<InvalidPropertyReference>)
    returns (data': map<string, Value>, invalidRefs': seq<InvalidPropertyReference>)
    requires batches == Batches(info, env, payload, refs) && c in batches && c !in done
    requires data == ResolvedData(info, env, payload, refs, batches, done)
    requires Elems(invalidRefs) == UnresolvedRefs(info, env, payload, refs, batches, done)
    ensures data' == ResolvedData(info, env, payload, refs, batches, done + {c})
    ensures Elems(invalidRefs') == UnresolvedRefs(info, env, payload, refs, batches, done + {c})
  {
    var batchData, unresolved := ResolveBatch(batches[c], env.em);
    ResolveLoopStep(info, env, payload, refs, batches, done, c, data, Elems(invalidRefs));
    data' := data + batchData;
    invalidRefs' := AddErrors(invalidRefs, unresolved);
  }

  /** One batch more resolved: its data joins the resolved data, its unresolved pairs the invalid references. */
  lemma ResolveLoopStep(info: ClassInfo, env: PatchEnv, payload: map<string, Value>, refs: set<string>, batches: map<string, EntityUuids>, done: set<string>, c: string,
                        data: map<string, Value>, invalid: set<InvalidPropertyReference>)
    requires batches == Batches(info, env, payload, refs) && c in batches && c !in done
    requires data == ResolvedData(info, env, payload, refs, batches, done)
    requires invalid == UnresolvedRefs(info, env, payload, refs, batches, done)
    ensures var b := batches[c];
      data + BatchData(b, env.em) == ResolvedData(info, env, payload, refs, batches, done + {c})
      && invalid + ErrorsOf(BatchUnresolved(b, env.em)) == UnresolvedRefs(info, env, payload, refs, batches, done + {c})
  {
    ResolvedDataStep(info, env, payload, refs, batches, done, c);
    UnresolvedRefsStep(info, env, payload, refs, batches, done, c);
  }

  /** unresolved.forEach(result::addError). */
  method AddErrors(invalidRefs: seq<InvalidPropertyReference>, unresolved: map<string, Uuid>)
    returns (r: seq<InvalidPropertyReference>)
    ensures Elems(r) == Elems(invalidRefs) + ErrorsOf(unresolved)
  {
    r := invalidRefs;
    var todo := unresolved.Keys;
    ghost var done: set<string> := {};
    while todo != {}
      invariant todo <= unresolved.Keys && done == unresolved.Keys - todo
      invariant Elems(r) == Elems(invalidRefs) + ErrorsIn(unresolved, done)
      decreases todo
    {
      var p :| p in todo;
      ElemsAppend(r, [InvalidPropertyReference(p, unresolved[p])]);
      ErrorsInStep(unresolved, done, p);
      r := r + [InvalidPropertyReference(p, unresolved[p])];
      done := done + {p};
      todo := todo - {p};
    }
    assert done == unresolved.Keys;
  }

  /** The InvalidReferenceException of a patch: no collection references, the given property references. */
  function InvalidPropertyReferences(refs: set<InvalidPropertyReference>): Exception
  {
    Exception(InvalidReferenceEx(None, Some(refs)), "InvalidReferenceException",
              Some(ApiInfo("error.IllegalReferenceException", Some([]))), None)
  }

  /** The exception performPatch builds from its list of invalid references is the one of their set. */
  lemma InvalidReferencesOfList(s: seq<InvalidPropertyReference>)
    ensures InvalidReferences(None, Some(s)) == InvalidPropertyReferences(Elems(s))
  {
    var r := InvalidReferences(None, Some(s));
    assert r.kind.propertyRefs.value == Elems(s);
  }

  // ---------------------------------------------------------------------------
  // performPatch

  /** The target's properties after a patch and the exception it throws, if any. */
  datatype PatchOutcome = PatchOutcome(props: map<string, Value>, thrown: Option<Exception>)

  /** The writes BeanUtils.setProperty performs for the entries of m named in ks: properties without a setter are skipped. */
  function SetterWrites(info: ClassInfo, m: map<string, Value>, ks: set<string>): map<string, Value>
  {
    map k | k in ks && k in m && Writable(info, k) :: m[k]
  }

  function NullWrites(info: ClassInfo, ns: set<string>): map<string, Value>
  {
    map k | k in ns && Writable(info, k) :: Null
  }

  /** Writing one more entry through its setter (or skipping it) extends the writes over base by that entry. */
  lemma SetterWritesStep(info: ClassInfo, base: map<string, Value>, m: map<string, Value>, ks: set<string>, k: string)
    requires k in m
    ensures var props := base + SetterWrites(info, m, ks);
      (if Writable(info, k) then props[k := m[k]] else props) == base + SetterWrites(info, m, ks + {k})
  {
    var props := base + SetterWrites(info, m, ks);
    if Writable(info, k) {
      assert SetterWrites(info, m, ks + {k}) == SetterWrites(info, m, ks)[k := m[k]];
    } else {
      assert SetterWrites(info, m, ks + {k}) == SetterWrites(info, m, ks);
    }
  }

  lemma NullWritesStep(info: ClassInfo, base: map<string, Value>, ns: set<string>, k: string)
    ensures var props := base + NullWrites(info, ns);
      (if Writable(info, k) then props[k := Null] else props) == base + NullWrites(info, ns + {k})
  {
    if Writable(info, k) {
      assert NullWrites(info, ns + {k}) == NullWrites(info, ns)[k := Null];
    } else {
      assert NullWrites(info, ns + {k}) == NullWrites(info, ns);
    }
  }

  /** All invalid references of a patch: the malformed ones and the unknown ones. */
  function InvalidRefsOf(info: ClassInfo, env: PatchEnv, payload: map<string, Value>): set<InvalidPropertyReference>
  {
    var refs := ReferenceNames(info, payload);
    MalformedRefs(info, env, payload, refs) + UnresolvedRefs(info, env, payload, refs, Batches(info, env, payload, refs), Batches(info, env, payload, refs).Keys)
  }

  /** The properties a patch without invalid references writes: the nulls and the resolved entities. */
  function ReferenceWrites(info: ClassInfo, env: PatchEnv, payload: map<string, Value>): map<string, Value>
  {
    var refs := ReferenceNames(info, payload);
    var batches := Batches(info, env, payload, refs);
    var data := ResolvedData(info, env, payload, refs, batches, batches.Keys);
    NullWrites(info, NullRefs(info, payload, refs)) + SetterWrites(info, data, data.Keys)
  }

  function PatchOf(info: ClassInfo, props: map<string, Value>, payload: map<string, Value>, env: PatchEnv): PatchOutcome
  {
    var mapped := props + Writes(info, env.convert, payload, payload.Keys);
    var typeErrors := Rejections(info, env.convert, payload, payload.Keys);
    if typeErrors != map[] then PatchOutcome(mapped, TypeErrorException(typeErrors))
    else if InvalidRefsOf(info, env, payload) != {} then
      PatchOutcome(mapped, Some(InvalidPropertyReferences(InvalidRefsOf(info, env, payload))))
    else PatchOutcome(mapped + ReferenceWrites(info, env, payload), None)
  }

  /**
   * performPatch: simple properties first (their type errors end the patch);
   * then the references are classified, batched and resolved, and either all
   * invalid ones are thrown together or the nulls and the resolved entities are written.
   */
  method PerformPatch(payload: map<string, Value>, target: Entity, env: PatchEnv) returns (thrown: Option<Exception>)
    modifies target
    ensures target.props == PatchOf(target.info, old(target.props), payload, env).props
    ensures thrown == PatchOf(target.info, old(target.props), payload, env).thrown
  {
    thrown := MapSimpleFields(payload, target, env.convert);
    if thrown.Some? {
      return;
    }
    var info := target.info;
    var refs := set k | k in payload && IsReference(info, k);
    assert refs == ReferenceNames(info, payload);
    var entityUuids, propertiesToNull, malformed := ClassifyReferences(info, payload, refs, env);
    var data, unresolved := ResolveReferencedEntities(info, payload, refs, entityUuids, env);
    var invalidRefs := malformed + unresolved;
    ElemsAppend(malformed, unresolved);
    if |invalidRefs| > 0 {
      assert invalidRefs[0] in Elems(invalidRefs);
      InvalidReferencesOfList(invalidRefs);
      thrown := Some(InvalidReferences(None, Some(invalidRefs)));
      return;
    }
    assert Elems(invalidRefs) == {};
    ghost var mapped := target.props;
    WriteNulls(target, propertiesToNull);
    WriteResolved(target, data);
    UnionAssociates(mapped, NullWrites(info, propertiesToNull), SetterWrites(info, data, data.Keys));
  }

  /** Without invalid references, a referenced attribute sent as anything but null carries a known UUID and is resolved. */
  lemma ValidReferenceResolved(info: ClassInfo, env: PatchEnv, payload: map<string, Value>, k: string)
    requires k in payload && IsReference(info, k) && payload[k] != Null && InvalidRefsOf(info, env, payload) == {}
    ensures WellFormed(env, payload, k)
    ensures var refs := ReferenceNames(info, payload);
      var batches := Batches(info, env, payload, refs);
      var data := ResolvedData(info, env, payload, refs, batches, batches.Keys);
      k in data && data[k] == Ref(TargetOf(info, k), UuidOf(env, payload, k))
  {
    var refs := ReferenceNames(info, payload);
    var batches := Batches(info, env, payload, refs);
    forall j | j in refs && IsReference(info, j) && payload[j] != Null && !WellFormed(env, payload, j)
      ensures MalformedRef(env, j, payload[j]) in MalformedRefs(info, env, payload, refs)
    {
    }
    forall j | j in refs && IsReference(info, j) && WellFormed(env, payload, j) && TargetOf(info, j) in batches
               && !Resolved(info, env, payload, batches, j)
      ensures InvalidPropertyReference(j, UuidOf(env, payload, j)) in UnresolvedRefs(info, env, payload, refs, batches, batches.Keys)
    {
    }
    assert k in refs;
    assert WellFormed(env, payload, k);
    assert TargetOf(info, k) in BatchClasses(info, env, payload, refs);
  }

  /**
   * What a patch does to one referenced attribute it names: the patch succeeds
   * exactly when there are neither type errors nor invalid references; when it
   * throws, the attribute keeps its old value; a malformed UUID always makes it
   * throw; when it succeeds, null is written as null and any other value was a
   * known UUID, whose entity is written.
   */
  lemma PatchMeaning(info: ClassInfo, props: map<string, Value>, payload: map<string, Value>, env: PatchEnv, k: string)
    requires k in payload && IsReference(info, k)
    ensures var out := PatchOf(info, props, payload, env);
      (out.thrown.None? <==> Rejections(info, env.convert, payload, payload.Keys) == map[] && InvalidRefsOf(info, env, payload) == {})
      && (out.thrown.Some? ==> (k in out.props <==> k in props) && (k in props ==> out.props[k] == props[k]))
      && (payload[k] != Null && !WellFormed(env, payload, k) ==> out.thrown.Some?)
      && (out.thrown.None? && payload[k] == Null && Writable(info, k) ==> k in out.props && out.props[k] == Null)
      && (out.thrown.None? && payload[k] != Null ==>
            (WellFormed(env, payload, k)
             && (Writable(info, k) ==> k in out.props && out.props[k] == Ref(TargetOf(info, k), UuidOf(env, payload, k)))))
  {
    var convert := env.convert;
    var out := PatchOf(info, props, payload, env);
    var mapped := props + Writes(info, convert, payload, payload.Keys);
    var rejected := Rejections(info, convert, payload, payload.Keys);
    SimpleFieldsMeaning(info, convert, props, payload, k);
    SkippedEntries(info, convert, k, payload[k]);
    if rejected != map[] {
      var j :| j in rejected;
      SimpleFieldsMeaning(info, convert, props, payload, j);
    }
    var refs := ReferenceNames(info, payload);
    assert k in refs;
    if payload[k] != Null && !WellFormed(env, payload, k) {
      assert MalformedRef(env, k, payload[k]) in MalformedRefs(info, env, payload, refs);
    }
    if out.thrown.None? {
      var batches := Batches(info, env, payload, refs);
      var data := ResolvedData(info, env, payload, refs, batches, batches.Keys);
      var nulls := NullWrites(info, NullRefs(info, payload, refs));
      var setters := SetterWrites(info, data, data.Keys);
      assert out.props == mapped + (nulls + setters);
      if payload[k] == Null {
        assert k !in data;
      } else {
        ValidReferenceResolved(info, env, payload, k);
        assert k !in NullRefs(info, payload, refs);
      }
    }
  }

  lemma NullRefStep(info: ClassInfo, env: PatchEnv, payload: map<string, Value>, done: set<string>, k: string)
    requires k in payload && IsReference(info, k) && payload[k] == Null
    ensures Batches(info, env, payload, done + {k}) == Batches(info, env, payload, done)
    ensures NullRefs(info, payload, done + {k}) == NullRefs(info, payload, done) + {k}
    ensures MalformedRefs(info, env, payload, done + {k}) == MalformedRefs(info, env, payload, done)
  {
    BatchesUnchanged(info, env, payload, done, k);
  }

  lemma BatchedRefStep(info: ClassInfo, env: PatchEnv, payload: map<string, Value>, done: set<string>, k: string)
    requires IsReference(info, k) && WellFormed(env, payload, k) && k !in done
    ensures var c := TargetOf(info, k);
      var b := Batches(info, env, payload, done);
      Batches(info, env, payload, done + {k})
        == b[c := EntityUuids(env.entityNameOf(c), c, (if c in b then b[c].uuids else map[])[k := UuidOf(env, payload, k)])]
    ensures NullRefs(info, payload, done + {k}) == NullRefs(info, payload, done)
    ensures MalformedRefs(info, env, payload, done + {k}) == MalformedRefs(info, env, payload, done)
  {
    BatchesStep(info, env, payload, done, k);
  }

  lemma MalformedRefStep(info: ClassInfo, env: PatchEnv, payload: map<string, Value>, done: set<string>, k: string)
    requires k in payload && IsReference(info, k) && payload[k] != Null && !WellFormed(env, payload, k)
    ensures Batches(info, env, payload, done + {k}) == Batches(info, env, payload, done)
    ensures NullRefs(info, payload, done + {k}) == NullRefs(info, payload, done)
    ensures MalformedRefs(info, env, payload, done + {k}) == MalformedRefs(info, env, payload, done) + {MalformedRef(env, k, payload[k])}
  {
    BatchesUnchanged(info, env, payload, done, k);
  }

  /** The attribute loop of performPatch: nulls, batches per class, and malformed references. */
  method ClassifyReferences(info: ClassInfo, payload: map<string, Value>, refs: set<string>, env: PatchEnv)
    returns (entityUuids: map<string, EntityUuids>, propertiesToNull: set<string>, invalidRefs: seq<InvalidPropertyReference>)
    requires refs == ReferenceNames(info, payload)
    ensures entityUuids == Batches(info, env, payload, refs)
    ensures propertiesToNull == NullRefs(info, payload, refs)
    ensures Elems(invalidRefs) == MalformedRefs(info, env, payload, refs)
  {
    entityUuids := map[];
    propertiesToNull := {};
    invalidRefs := [];
    NothingClassifiedYet(info, env, payload);
    assert Elems(invalidRefs) == {};
    var todo := refs;
    ghost var done: set<string> := {};
    while todo != {}
      invariant todo <= refs && done == refs - todo
      invariant entityUuids == Batches(info, env, payload, done)
      invariant propertiesToNull == NullRefs(info, payload, done)
      invariant Elems(invalidRefs) == MalformedRefs(info, env, payload, done)
      decreases todo
    {
      var property :| property in todo;
      entityUuids, propertiesToNull, invalidRefs := ClassifyReference(info, payload, done, property, env, entityUuids, propertiesToNull, invalidRefs);
      done := done + {property};
      todo := todo - {property};
    }
    assert done == refs;
  }

  lemma NothingClassifiedYet(info: ClassInfo, env: PatchEnv, payload: map<string, Value>)
    ensures Batches(info, env, payload, {}) == map[]
    ensures NullRefs(info, payload, {}) == {}
    ensures MalformedRefs(info, env, payload, {}) == {}
  {
    assert BatchClasses(info, env, payload, {}) == {};
  }

  /** One attribute of performPatch's loop: a null goes to the nulls, a UUID into its class's batch, anything else is invalid. */
  method ClassifyReference(info: ClassInfo, payload: map<string, Value>, ghost done: set<string>, property: string, env: PatchEnv,
                           entityUuids: map<string, EntityUuids>, propertiesToNull: set<string>, invalidRefs: seq<InvalidPropertyReference>)
    returns (entityUuids': map<string, EntityUuids>, propertiesToNull': set<string>, invalidRefs': seq<InvalidPropertyReference>)
    requires property in payload && IsReference(info, property) && property !in done
    requires entityUuids == Batches(info, env, payload, done)
    requires propertiesToNull == NullRefs(info, payload, done)
    requires Elems(invalidRefs) == MalformedRefs(info, env, payload, done)
    ensures entityUuids' == Batches(info, env, payload, done + {property})
    ensures propertiesToNull' == NullRefs(info, payload, done + {property})
    ensures Elems(invalidRefs') == MalformedRefs(info, env, payload, done + {property})
  {
    entityUuids', propertiesToNull', invalidRefs' := entityUuids, propertiesToNull, invalidRefs;
    var uuidObject := payload[property];
    if uuidObject == Null {
      NullRefStep(info, env, payload, done, property);
      propertiesToNull' := propertiesToNull + {property};
    } else if uuidObject.Str? && env.parseUuid(uuidObject.s).Some? {
      BatchedRefStep(info, env, payload, done, property);
      var uuid := env.parseUuid(uuidObject.s).value;
      var cls := info.Property(property).value.kind.target;
      var prior := if cls in entityUuids then entityUuids[cls].uuids else map[];
      entityUuids' := entityUuids[cls := EntityUuids(env.entityNameOf(cls), cls, prior[property := uuid])];
    } else {
      MalformedRefStep(info, env, payload, done, property);
      ElemsAppend(invalidRefs, [MalformedRef(env, property, uuidObject)]);
      invalidRefs' := invalidRefs + [MalformedRef(env, property, uuidObject)];
    }
  }

  /** for (prop : propertiesToNull) setProperty(target, prop, null). */
  method WriteNulls(target: Entity, propertiesToNull: set<string>)
    modifies target
    ensures target.props == old(target.props) + NullWrites(target.info, propertiesToNull)
  {
    var todo := propertiesToNull;
    ghost var done: set<string> := {};
    while todo != {}
      invariant todo <= propertiesToNull && done == propertiesToNull - todo
      invariant target.props == old(target.props) + NullWrites(target.info, done)
      decreases todo
    {
      var prop :| prop in todo;
      NullWritesStep(target.info, old(target.props), done, prop);
      if Writable(target.info, prop) {
        target.SetProperty(prop, Null);
      }
      done := done + {prop};
      todo := todo - {prop};
    }
  }

  /** for (entry : resolved data) setProperty(target, key, value). */
  method WriteResolved(target: Entity, data: map<string, Value>)
    modifies target
    ensures target.props == old(target.props) + SetterWrites(target.info, data, data.Keys)
  {
    var todo := data.Keys;
    ghost var done: set<string> := {};
    while todo != {}
      invariant todo <= data.Keys && done == data.Keys - todo
      invariant target.props == old(target.props) + SetterWrites(target.info, data, done)
      decreases todo
    {
      var key :| key in todo;
      SetterWritesStep(target.info, old(target.props), data, done, key);
      if Writable(target.info, key) {
        target.SetProperty(key, data[key]);
      }
      done := done + {key};
      todo := todo - {key};
    }
  }

  // ---------------------------------------------------------------------------
  // performValidation

  /** Validator.validate, as the registry it leaves behind (errors is the only argument it may change). */
  type Validator = (EntityState, Option<EntityState>, map<string, Value>, ErrorSet) -> ErrorSet

  /** performValidation: a fresh registry, filled by the validator when there is one, thrown when not empty. */
  function PerformValidation(payload: map<string, Value>, entity: EntityState, create: bool,
                             oldState: Option<EntityState>, validator: Option<Validator>): (r: Option<Exception>)
    ensures validator.None? ==> r.None?
    ensures validator.Some? ==>
      var errors := validator.value(entity, oldState, payload, NoErrors);
      (r.Some? <==> !errors.IsEmpty()) && (r.Some? ==> r.value.kind == ValidationEx(errors))
  {
    var errors := if validator.Some? then validator.value(entity, oldState, payload, NoErrors) else NoErrors;
    if errors.IsEmpty() then None else Some(NewValidationException(errors))
  }
}
