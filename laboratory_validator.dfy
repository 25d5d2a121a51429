/**
 * LaboratoryValidator: the domain validator of laboratories. It runs the
 * annotation-based validator of the laboratory class (unique errors on
 * references ignored) and, when the payload names "name", asks the repository
 * for another laboratory with the same name.
 */
module LaboratoryValidation {
  import opened Common
  import opened ErrorRegistry
  import opened Persistence
  import opened AnnotationValidation
  import opened ValidatorFactory

  /** The repository's query for a laboratory with the given name and another uuid. */
  const UniqueNameQuery := "select e from laboratories e where e.name = :name and e.uuid <> :uuid"

  import opened Exceptions

  /**
   * What Spring Data throws when a query declared to return at most one
   * entity (an Optional) finds several.
   */
  const NonUniqueResult := Exception(OtherEx, "IncorrectResultSizeDataAccessException", None, None)

  /**
   * findUniqueNameViolation(name, uuid): no laboratory, the one laboratory the
   * query finds, or the exception Spring throws when it finds more than one.
   */
  function FindUniqueNameViolation(db: Db, name: Value, uuid: Value): (r: Result<Option<EntityState>, Exception>)
  {
    var rows := db.query(UniqueNameQuery, map["name" := Scalar(name), "uuid" := Scalar(uuid)]);
    if |rows| == 0 then Ok(None) else if |rows| == 1 then Ok(Some(rows[0])) else Err(NonUniqueResult)
  }

  /**
   * The JPQL condition e.name = :name and e.uuid <> :uuid: a comparison with
   * null is never true, so a null on either side excludes the row.
   */
  predicate NameClash(row: EntityState, name: Value, uuid: Value)
  {
    name != Null && uuid != Null && row.Get("name") != Null && row.Get("uuid") != Null
    && row.Get("name") == name && row.Get("uuid") != uuid
  }

  /** The stored laboratories the query selects, in storage order. */
  function Clashing(stored: seq<EntityState>, name: Value, uuid: Value): (r: seq<EntityState>)
    ensures forall x :: x in r <==> x in stored && NameClash(x, name, uuid)
    ensures |r| <= |stored|
  {
    if stored == [] then []
    else Clashing(stored[..|stored| - 1], name, uuid)
         + (if NameClash(stored[|stored| - 1], name, uuid) then [stored[|stored| - 1]] else [])
  }

  /** The repository evaluates the query over the stored laboratories. */
  predicate Answers(db: Db, stored: seq<EntityState>, name: Value, uuid: Value)
  {
    db.query(UniqueNameQuery, map["name" := Scalar(name), "uuid" := Scalar(uuid)]) == Clashing(stored, name, uuid)
  }

  /**
   * When the repository evaluates the query over the stored laboratories, the
   * lookup finds nothing exactly when no other laboratory (by UUID) carries the
   * name, finds the clashing laboratory when there is exactly one, and throws
   * when there are several.
   */
  lemma FindUniqueNameViolationMeaning(db: Db, stored: seq<EntityState>, name: Value, uuid: Value)
    requires Answers(db, stored, name, uuid)
    ensures var r := FindUniqueNameViolation(db, name, uuid);
      (r == Ok(None) <==> forall x :: x in stored ==> !NameClash(x, name, uuid))
      && (r.Ok? && r.value.Some? ==>
            r.value.value in stored && NameClash(r.value.value, name, uuid)
            && forall x :: x in stored && NameClash(x, name, uuid) ==> x == r.value.value)
      && (r.Err? <==> |Clashing(stored, name, uuid)| >= 2)
      && (name == Null || uuid == Null ==> r == Ok(None))
  {
    var rows := Clashing(stored, name, uuid);
    if |rows| == 1 {
      forall x | x in stored && NameClash(x, name, uuid)
        ensures x == rows[0]
      {
        assert x in rows;
      }
    }
    if |rows| > 0 {
      assert rows[0] in rows;
    }
  }

  /**
   * The outcome of validate: the registry it leaves behind and the exception
   * it throws. The annotation checks run first; when the payload has a name
   * the lookup either adds the unique error or, when it throws, leaves the
   * registry as the annotation checks left it.
   */
  function LaboratoryCheck(info: ClassInfo, es: ErrorSet, entity: EntityState, data: map<string, Value>, em: Db, repository: Db): (ErrorSet, Option<Exception>)
    requires TableResolvable(info)
  {
    var checked := AnnotationCheck(info, true, es, entity, em);
    if "name" !in data then (checked, None)
    else
      match FindUniqueNameViolation(repository, entity.Get("name"), entity.Get("uuid"))
      case Err(e) => (checked, Some(e))
      case Ok(found) => (if found.Some? then checked.AddField("name", UniqueError) else checked, None)
  }

  /**
   * Only the name field can gain an error beyond the annotation checks, and it
   * gains the unique error exactly when the payload has a name and the lookup
   * finds a laboratory; validate throws only when the lookup does, and without
   * a name in the payload the repository is not consulted.
   */
  lemma LaboratoryCheckMeaning(info: ClassInfo, es: ErrorSet, entity: EntityState, data: map<string, Value>, em: Db, repository: Db)
    requires TableResolvable(info)
    ensures var (r, thrown) := LaboratoryCheck(info, es, entity, data, em, repository);
      var checked := AnnotationCheck(info, true, es, entity, em);
      var lookup := FindUniqueNameViolation(repository, entity.Get("name"), entity.Get("uuid"));
      var found := "name" in data && lookup.Ok? && lookup.value.Some?;
      r.global == checked.global
      && (forall k :: k != "name" ==> r.FieldGet(k) == checked.FieldGet(k))
      && r.FieldGet("name") == checked.FieldGet("name") + (if found then {UniqueError} else {})
      && (thrown.Some? <==> "name" in data && lookup.Err?)
      && (thrown.Some? ==> thrown == Some(NonUniqueResult))
      && ("name" !in data ==> r == checked && thrown.None?)
  {
  }

  /** The validator never removes an error the registry already held. */
  lemma LaboratoryCheckOnlyAdds(info: ClassInfo, es: ErrorSet, entity: EntityState, data: map<string, Value>, em: Db, repository: Db)
    requires TableResolvable(info)
    ensures var r := LaboratoryCheck(info, es, entity, data, em, repository).0;
      r.global == es.global && forall k :: es.FieldGet(k) <= r.FieldGet(k)
  {
    AnnotationCheckOnlyAdds(info, true, es, entity, em);
  }

  class LaboratoryValidator {
    /** The class information of LaboratoryEntity. */
    const laboratoryInfo: ClassInfo
    const laboratoryRepository: Db
    const annotationBasedValidatorFactory: AnnotationBasedValidatorFactory

    constructor (laboratoryInfo: ClassInfo, laboratoryRepository: Db, factory: AnnotationBasedValidatorFactory)
      ensures this.laboratoryInfo == laboratoryInfo && this.laboratoryRepository == laboratoryRepository
      ensures annotationBasedValidatorFactory == factory
    {
      this.laboratoryInfo := laboratoryInfo;
      this.laboratoryRepository := laboratoryRepository;
      this.annotationBasedValidatorFactory := factory;
    }

    /** validate: the annotation checks, then the name lookup, which may throw; the factory may cache a new validator on the way. */
    method Validate(entity: EntityState, previousState: Option<EntityState>, data: map<string, Value>, errors: ValidationErrors)
      returns (thrown: Option<Exception>)
      requires annotationBasedValidatorFactory.Valid() && TableResolvable(laboratoryInfo)
      modifies errors, annotationBasedValidatorFactory
      ensures annotationBasedValidatorFactory.Valid()
      ensures (errors.Snapshot(), thrown) == LaboratoryCheck(laboratoryInfo, old(errors.Snapshot()), entity, data,
                                                             annotationBasedValidatorFactory.entityManager, laboratoryRepository)
    {
      thrown := None;
      var validator := annotationBasedValidatorFactory.Create(laboratoryInfo);
      validator.Validate(entity, previousState, data, errors, annotationBasedValidatorFactory.entityManager);
      if "name" in data {
        var violation := FindUniqueNameViolation(laboratoryRepository, entity.Get("name"), entity.Get("uuid"));
        if violation.Err? {
          thrown := Some(violation.error);
        } else if violation.value.Some? {
          errors.AddUniqueError("name");
        }
      }
    }
  }
}
