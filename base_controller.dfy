/**
 * AbstractBaseController: the generic REST controller of an entity type. A POST
 * builds a new instance and a PATCH loads the stored one; both then run the same
 * update: remember the previous state (a shallow copy, none on create), apply the
 * payload, describe the change as an entity diff, validate, save and convert.
 * The search endpoint wraps one page of the repository's filtered query.
 */
module BaseController {
  import opened Common
  import opened ErrorRegistry
  import opened Exceptions
  import opened EntityObject
  import opened BaseEntity
  import opened EventType
  import StateDiff
  import EntityDiff
  import ServiceUtils
  import CloneUtils
  import Text

  /** A page request: the page number and the page size. */
  datatype Pageable = Pageable(pageNumber: int, pageSize: int)

  /** A page of query results and the totals the query reports. */
  datatype Page = Page(pageable: Pageable, totalElements: int, totalPages: int, content: seq<EntityState>)

  datatype PageInfo = PageInfo(page: int, size: int, totalElements: int, totalPages: int, lastPage: bool)

  /** The search response: the converted entities of the page and its page information. */
  datatype PagedResponse = PagedResponse(content: seq<Value>, page: PageInfo)

  /**
   * The entity repository: findById looks up the stored entities, findFiltered
   * is a query oracle, and saveAndFlush appends the saved state to a log.
   */
  class Repository {
    const stored: map<Uuid, Entity>
    const findFiltered: (string, Pageable) -> Page
    var saved: seq<EntityState>

    constructor (stored: map<Uuid, Entity>, findFiltered: (string, Pageable) -> Page)
      ensures this.stored == stored && this.findFiltered == findFiltered && saved == []
    {
      this.stored := stored;
      this.findFiltered := findFiltered;
      saved := [];
    }

    method SaveAndFlush(e: Entity)
      modifies this
      ensures saved == old(saved) + [e.State()]
    {
      saved := saved + [e.State()];
    }
  }

  /** The Spring Data REST exception for an unknown UUID (not an ApiException). */
  const ResourceNotFound := Exception(ResourceNotFoundEx, "ResourceNotFoundException", None, None)

  /**
   * What performUpdateFromMap leaves behind: the entity's properties, the diff
   * it built (if it got that far), the response or the exception, and whether
   * the entity was saved.
   */
  datatype UpdateOutcome = UpdateOutcome(
    props: map<string, Value>,
    diff: Option<EntityDiff.EntityDiff>,
    result: Result<Value, Exception>,
    saved: bool)

  /** The previous state performUpdateFromMap records: none on create, a shallow copy otherwise. */
  function PreviousState(before: EntityState, create: bool): Option<EntityState>
  {
    if create then None else Some(CloneUtils.ShallowCopyOf(before))
  }

  /**
   * performUpdateFromMap on an entity in state before: patch, then diff, then
   * validation, then save and convert; the first step that throws ends it.
   */
  function UpdateOf(env: ServiceUtils.PatchEnv, validator: Option<ServiceUtils.Validator>, converter: EntityState -> Value,
                    before: EntityState, payload: map<string, Value>, create: bool): UpdateOutcome
  {
    AfterPatch(validator, converter, before, ServiceUtils.PatchOf(before.info, before.props, payload, env), payload, create)
  }

  /** The steps of performUpdateFromMap that follow a patch with the given outcome. */
  function AfterPatch(validator: Option<ServiceUtils.Validator>, converter: EntityState -> Value,
                      before: EntityState, patch: ServiceUtils.PatchOutcome, payload: map<string, Value>, create: bool): UpdateOutcome
  {
    var oldState := PreviousState(before, create);
    var after := EntityState(before.info, patch.props);
    if patch.thrown.Some? then UpdateOutcome(patch.props, None, Err(patch.thrown.value), false)
    else
      var diff := EntityDiff.NewEntityDiff(before.info, oldState, Some(after), Some(payload));
      if diff.Err? then UpdateOutcome(patch.props, None, Err(diff.error), false)
      else
        var invalid := ServiceUtils.PerformValidation(payload, after, create, oldState, validator);
        if invalid.Some? then UpdateOutcome(patch.props, Some(diff.value), Err(invalid.value), false)
        else UpdateOutcome(patch.props, Some(diff.value), Ok(converter(after)), true)
  }

  /**
   * The steps run in order and stop at the first exception: the patched
   * properties stay whatever follows (the accepted simple properties stay
   * written), a patch exception is passed on before any diff is built, and the
   * entity is saved exactly when the update answers normally, with the
   * converted patched state.
   */
  lemma UpdateSteps(validator: Option<ServiceUtils.Validator>, converter: EntityState -> Value,
                    before: EntityState, patch: ServiceUtils.PatchOutcome, payload: map<string, Value>, create: bool)
    ensures var u := AfterPatch(validator, converter, before, patch, payload, create);
      u.props == patch.props
      && (u.saved <==> u.result.Ok?)
      && (patch.thrown.Some? ==> u.result == Err(patch.thrown.value) && u.diff.None?)
      && (u.result.Ok? ==> u.result.value == converter(EntityState(before.info, patch.props)) && u.diff.Some?)
      && (u.diff.Some? ==> u.diff.value.data == payload && u.diff.value.entityClass == before.info
                           && u.diff.value.diff.current == Some(EntityState(before.info, patch.props)))
  {
  }

  /** A create records no previous state, so once the patch went through its diff is a CREATE. */
  lemma CreateIsCreateDiff(validator: Option<ServiceUtils.Validator>, converter: EntityState -> Value,
                           before: EntityState, patch: ServiceUtils.PatchOutcome, payload: map<string, Value>)
    ensures var u := AfterPatch(validator, converter, before, patch, payload, true);
      patch.thrown.None? ==>
        u.diff.Some? && u.diff.value.diff.previous.None? && StateDiff.EventTypeOf(u.diff.value.diff) == CREATE
  {
  }

  /**
   * An update of a base entity records the copy taken before the payload was
   * applied. Its diff is an UPDATE when the patch kept the UUID; a patch that
   * changed the UUID ends in an IllegalArgumentException and nothing is saved.
   */
  lemma UpdateDiffOfCopy(validator: Option<ServiceUtils.Validator>, converter: EntityState -> Value,
                         before: EntityState, patch: ServiceUtils.PatchOutcome, payload: map<string, Value>)
    requires ExtendsBaseEntity(before.info)
    ensures var u := AfterPatch(validator, converter, before, patch, payload, false);
      var after := EntityState(before.info, patch.props);
      patch.thrown.None? ==>
        (after.Uuid() == before.Uuid() ==>
           u.diff.Some? && u.diff.value.diff.previous == Some(CloneUtils.ShallowCopyOf(before))
           && StateDiff.EventTypeOf(u.diff.value.diff) == UPDATE)
        && (after.Uuid() != before.Uuid() ==> u.result.Err? && u.result.error.kind == IllegalArgumentEx && !u.saved)
  {
    CloneUtils.ShallowCopyKeepsUuid(before);
  }

  /** Without a validator (the default getValidator) validation never stops an update. */
  lemma DefaultValidatorNeverRejects(converter: EntityState -> Value,
                                     before: EntityState, patch: ServiceUtils.PatchOutcome, payload: map<string, Value>, create: bool)
    ensures var u := AfterPatch(None, converter, before, patch, payload, create);
      u.result.Err? ==> u.diff.None?
  {
  }

  /**
   * With a validator, an update whose patch and diff went through is saved
   * exactly when the validator reports nothing for the patched state; otherwise
   * it answers with a ValidationException carrying the validator's errors.
   */
  lemma ValidationGatesSave(validator: ServiceUtils.Validator, converter: EntityState -> Value,
                            before: EntityState, patch: ServiceUtils.PatchOutcome, payload: map<string, Value>, create: bool)
    ensures var u := AfterPatch(Some(validator), converter, before, patch, payload, create);
      var errors := validator(EntityState(before.info, patch.props), PreviousState(before, create), payload, NoErrors);
      u.diff.Some? ==> (u.saved <==> errors.IsEmpty()) && (!u.saved ==> u.result.error.kind == ValidationEx(errors))
  {
  }

  class AbstractBaseController {
    const entityClass: ClassInfo
    const repository: Repository
    const env: ServiceUtils.PatchEnv
    const converter: EntityState -> Value
    /** getValidator: None when the controller does not override it. */
    const validator: Option<ServiceUtils.Validator>

    /** The repository holds entities of the controller's class only. */
    predicate Valid()
    {
      forall u | u in repository.stored :: repository.stored[u].info == entityClass
    }

    /** A controller that keeps the default getValidator, which returns null. */
    constructor (entityClass: ClassInfo, repository: Repository, env: ServiceUtils.PatchEnv, converter: EntityState -> Value)
      ensures this.entityClass == entityClass && this.repository == repository && this.env == env
      ensures this.converter == converter && validator == None
    {
      this.entityClass := entityClass;
      this.repository := repository;
      this.env := env;
      this.converter := converter;
      validator := None;
    }

    /** A controller whose getValidator is overridden. */
    constructor WithValidator(entityClass: ClassInfo, repository: Repository, env: ServiceUtils.PatchEnv,
                              converter: EntityState -> Value, validator: ServiceUtils.Validator)
      ensures this.entityClass == entityClass && this.repository == repository && this.env == env
      ensures this.converter == converter && this.validator == Some(validator)
    {
      this.entityClass := entityClass;
      this.repository := repository;
      this.env := env;
      this.converter := converter;
      this.validator := Some(validator);
    }

    method PerformUpdateFromMap(payload: map<string, Value>, entity: Entity, create: bool) returns (r: Result<Value, Exception>)
      modifies entity, repository
      ensures var u := UpdateOf(env, validator, converter, old(entity.State()), payload, create);
        entity.props == u.props && r == u.result
        && repository.saved == old(repository.saved) + (if u.saved then [entity.State()] else [])
    {
      var oldState: Option<EntityState> := None;
      if !create {
        var copy := CloneUtils.ShallowBeanCopy(entity);
        oldState := Some(copy.State());
      }
      var thrown := ServiceUtils.PerformPatch(payload, entity, env);
      if thrown.Some? {
        return Err(thrown.value);
      }
      var diff := EntityDiff.NewEntityDiff(entity.info, oldState, Some(entity.State()), Some(payload));
      if diff.Err? {
        return Err(diff.error);
      }
      var invalid := ServiceUtils.PerformValidation(payload, entity.State(), create, oldState, validator);
      if invalid.Some? {
        return Err(invalid.value);
      }
      repository.SaveAndFlush(entity);
      r := Ok(converter(entity.State()));
    }

    /** postItem: a new instance of the class, updated as a create. */
    method PostItem(payload: map<string, Value>) returns (r: Result<Value, Exception>)
      modifies repository
      ensures var u := UpdateOf(env, validator, converter, NewInstance(entityClass), payload, true);
        r == u.result && repository.saved == old(repository.saved) + (if u.saved then [EntityState(entityClass, u.props)] else [])
    {
      var entity := new Entity(NewInstance(entityClass));
      r := PerformUpdateFromMap(payload, entity, true);
    }

    /**
     * patchItem: an unknown UUID is answered with ResourceNotFoundException
     * before anything is patched; a stored entity is updated in place.
     */
    method PatchItem(uuid: Uuid, payload: map<string, Value>) returns (r: Result<Value, Exception>)
      modifies repository, repository.stored.Values
      ensures uuid !in repository.stored ==>
        r == Err(ResourceNotFound) && repository.saved == old(repository.saved)
        && forall e | e in repository.stored.Values :: e.props == old(e.props)
      ensures uuid in repository.stored ==>
        var e := repository.stored[uuid];
        var u := UpdateOf(env, validator, converter, old(e.State()), payload, false);
        e.props == u.props && r == u.result
        && repository.saved == old(repository.saved) + (if u.saved then [e.State()] else [])
        && forall o | o in repository.stored.Values && o != e :: o.props == old(o.props)
    {
      if uuid !in repository.stored {
        return Err(ResourceNotFound);
      }
      r := PerformUpdateFromMap(payload, repository.stored[uuid], false);
    }

    /**
     * getPage: the repository is asked with the filter upper-cased; the page
     * information copies the page's numbers, lastPage holding exactly on the
     * page numbered one below the total, and every entity is converted in order.
     */
    method GetPage(filter: string, pageable: Pageable) returns (response: PagedResponse)
      ensures var page := repository.findFiltered(Text.ToUpperAscii(filter), pageable);
        response.page.page == page.pageable.pageNumber && response.page.size == page.pageable.pageSize
        && response.page.totalElements == page.totalElements && response.page.totalPages == page.totalPages
        && (response.page.lastPage <==> page.pageable.pageNumber == page.totalPages - 1)
        && |response.content| == |page.content|
        && forall i :: 0 <= i < |page.content| ==> response.content[i] == converter(page.content[i])
    {
      var page := repository.findFiltered(Text.ToUpperAscii(filter), pageable);
      var pageInfo := PageInfo(page.pageable.pageNumber, page.pageable.pageSize, page.totalElements, page.totalPages,
                               page.pageable.pageNumber == page.totalPages - 1);
      var content := seq(|page.content|, i requires 0 <= i < |page.content| => converter(page.content[i]));
      response := PagedResponse(content, pageInfo);
    }
  }
}
