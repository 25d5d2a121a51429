/**
 * RestControllerAdvisor: maps the exceptions thrown behind the REST controllers
 * to responses. Each handler builds an ApiMessageDto and answers with the status
 * its exception class calls for; the Spring security exceptions are handed back
 * to Spring unchanged. The clock reading, the printed stack trace, the
 * MessageSource and the iteration order of a HashSet are given to the handlers.
 */
module RestAdvisor {
  import opened Common
  import opened Text
  import opened ErrorRegistry
  import opened Exceptions
  import opened ExceptionMessages
  import opened ApiMessages

  const NotFound := 404
  const BadRequest := 400
  const InternalServerError := 500

  const ResourceNotFoundKey := "error.ResourceNotFoundException"
  const CollectionRefKey := "error.invalidref.collection"
  const SingleRefKey := "error.invalidref.single"

  /** The field error one invalid single reference becomes: its uuid is the parameter. */
  function SingleRefError(uuid: string): ValidationError
  {
    ValidationError(SingleRefKey, [PStr(uuid)])
  }

  /** The properties named by some of the references. */
  function RefProperties(refs: set<InvalidPropertyReference>): set<string>
  {
    set r | r in refs :: r.property
  }

  /** The field errors of a set of invalid property references, grouped by property. */
  function RefFieldErrors(refs: set<InvalidPropertyReference>): map<string, set<ValidationError>>
  {
    map p | p in RefProperties(refs) :: (set r | r in refs && r.property == p :: SingleRefError(r.uuid))
  }

  /** The elements of the set, each once, in some order (a HashSet's toArray). */
  ghost predicate Enumerates(listing: seq<string>, s: set<string>)
  {
    (forall x :: x in listing <==> x in s) && (forall i, j | 0 <= i < j < |listing| :: listing[i] != listing[j])
  }

  /**
   * The registry handleInvalidReferenceException builds: one global error listing
   * the invalid collection references when there are any (null adds nothing),
   * and a field error per invalid property reference.
   */
  function InvalidReferenceErrors(collectionRefs: Option<set<string>>, listing: seq<string>,
                                  propertyRefs: Option<set<InvalidPropertyReference>>): ErrorSet
  {
    ErrorSet(if collectionRefs.Some? then {ValidationError(CollectionRefKey, [PStr(Join(listing, ", "))])} else {},
             if propertyRefs.Some? then RefFieldErrors(propertyRefs.value) else map[])
  }

  /**
   * No collection references, no global error; otherwise exactly one, whose one
   * parameter is the references joined by ", ". The fields with errors are exactly
   * the properties of the property references, and a field holds the error for a
   * uuid exactly when that (property, uuid) pair was reported.
   */
  lemma InvalidReferenceErrorsMeaning(collectionRefs: Option<set<string>>, listing: seq<string>,
                                      propertyRefs: Option<set<InvalidPropertyReference>>)
    ensures var es := InvalidReferenceErrors(collectionRefs, listing, propertyRefs);
      (collectionRefs.None? ==> es.global == {})
      && (collectionRefs.Some? ==>
            |es.global| == 1 && forall e | e in es.global :: e.code == CollectionRefKey && e.params == [PStr(Join(listing, ", "))])
      && (propertyRefs.None? ==> es.fields == map[])
      && (propertyRefs.Some? ==>
            (forall f :: f in es.fields <==> exists r | r in propertyRefs.value :: r.property == f)
            && (forall r | r in propertyRefs.value :: SingleRefError(r.uuid) in es.fields[r.property])
            && (forall f, e | f in es.fields && e in es.fields[f] ::
                  e.code == SingleRefKey && InvalidPropertyReference(f, e.params[0].s) in propertyRefs.value))
  {
    var es := InvalidReferenceErrors(collectionRefs, listing, propertyRefs);
    if collectionRefs.Some? {
      assert es.global == {ValidationError(CollectionRefKey, [PStr(Join(listing, ", "))])};
    }
    if propertyRefs.Some? {
      var refs := propertyRefs.value;
      forall f | exists r | r in refs :: r.property == f
        ensures f in es.fields
      {
        var r :| r in refs && r.property == f;
        assert f in RefProperties(refs);
      }
      forall f, e | f in es.fields && e in es.fields[f]
        ensures e.code == SingleRefKey && InvalidPropertyReference(f, e.params[0].s) in refs
      {
        var r :| r in refs && r.property == f && e == SingleRefError(r.uuid);
        assert r == InvalidPropertyReference(f, e.params[0].s);
      }
    }
  }

  /** Handling one more reference adds its error to its property's entry. */
  lemma RefFieldErrorsStep(refs: set<InvalidPropertyReference>, todo: set<InvalidPropertyReference>, r: InvalidPropertyReference,
                           global: set<ValidationError>)
    requires todo <= refs && r in todo
    ensures ErrorSet(global, RefFieldErrors(refs - todo)).AddField(r.property, SingleRefError(r.uuid))
         == ErrorSet(global, RefFieldErrors(refs - (todo - {r})))
  {
    var before := RefFieldErrors(refs - todo);
    var after := RefFieldErrors(refs - (todo - {r}));
    var added := ErrorSet(global, before).AddField(r.property, SingleRefError(r.uuid)).fields;
    assert refs - (todo - {r}) == (refs - todo) + {r};
    assert RefProperties(refs - (todo - {r})) == RefProperties(refs - todo) + {r.property};
    assert added.Keys == after.Keys;
    forall p | p in after
      ensures added[p] == after[p]
    {
      if p == r.property {
        assert after[p] == (set x | x in refs - todo && x.property == p :: SingleRefError(x.uuid)) + {SingleRefError(r.uuid)};
      } else {
        assert after[p] == before[p];
      }
    }
  }

  /**
   * The registry built in handleInvalidReferenceException, filled step by step;
   * the collection references are listed in the order the HashSet gives.
   */
  method InvalidReferenceRegistry(collectionRefs: Option<set<string>>, listing: seq<string>,
                                  propertyRefs: Option<set<InvalidPropertyReference>>)
    returns (errors: ValidationErrors)
    requires collectionRefs.Some? ==> Enumerates(listing, collectionRefs.value)
    ensures fresh(errors)
    ensures errors.Snapshot() == InvalidReferenceErrors(collectionRefs, listing, propertyRefs)
  {
    errors := new ValidationErrors();
    if collectionRefs.Some? {
      errors.AddGlobalError(ValidationError(CollectionRefKey, [PStr(Join(listing, ", "))]));
    }
    if propertyRefs.Some? {
      AddPropertyRefErrors(errors, propertyRefs.value);
    }
  }

  /** The forEach over the invalid property references, one field error each. */
  method AddPropertyRefErrors(errors: ValidationErrors, refs: set<InvalidPropertyReference>)
    requires errors.fields == map[]
    modifies errors
    ensures errors.Snapshot() == ErrorSet(old(errors.global), RefFieldErrors(refs))
  {
    var todo := refs;
    ghost var global := errors.global;
    assert RefProperties(refs - todo) == {};
    assert RefFieldErrors(refs - todo) == map[];
    while todo != {}
      invariant todo <= refs
      invariant errors.Snapshot() == ErrorSet(global, RefFieldErrors(refs - todo))
      decreases |todo|
    {
      var r :| r in todo;
      errors.AddFieldError(r.property, SingleRefError(r.uuid));
      RefFieldErrorsStep(refs, todo, r, global);
      todo := todo - {r};
    }
    assert refs - todo == refs;
  }

  /** The body of a response made from an exception: its own message, processed. */
  function ExceptionBody(e: Exception, expose: bool, now: int, trace: string, ms: Option<Translator>): Body
    requires e.Valid()
  {
    Body({Processed(NewMessage(e, now, trace, ms), expose, ms)}, map[])
  }

  /** The body of a response made from an exception under a given key and parameters. */
  function KeyedBody(e: Exception, key: string, params: seq<Param>, expose: bool, now: int, trace: string,
                     ms: Option<Translator>): Body
    requires e.Valid()
  {
    Body({Processed(KeyedMessage(e, key, params, now, trace, ms), expose, ms)}, map[])
  }

  /** What a handler does with an exception: hand it back to Spring, or answer with a status and a body. */
  datatype Response = Rethrown(e: Exception) | Answered(status: int, dto: ApiMessageDto)

  /** The exceptions rethrowSpringExceptions hands back: AccessDenied, MethodNotAllowed, Authentication and their subclasses. */
  predicate IsSpringException(e: Exception)
  {
    e.kind.SpringSecurityEx?
  }

  class RestControllerAdvisor {
    /** MandiConfig.isExposeApiMessageDtoStacktrace. */
    const exposeStacktrace: bool

    constructor (exposeStacktrace: bool)
      ensures this.exposeStacktrace == exposeStacktrace
    {
      this.exposeStacktrace := exposeStacktrace;
    }

    /** createApiMessage(exception): the DTO of the exception's own message. */
    method CreateApiMessage(e: Exception, now: int, trace: string, ms: Option<Translator>) returns (dto: ApiMessageDto)
      requires e.Valid()
      ensures dto.Snapshot() == ExceptionBody(e, exposeStacktrace, now, trace, ms)
    {
      dto := new ApiMessageDto.FromException(e, exposeStacktrace, now, trace, ms);
    }

    /** createApiMessage(exception, key, params): the DTO of an exception message with the given key. */
    method CreateKeyedApiMessage(e: Exception, key: string, params: seq<Param>, now: int, trace: string,
                                 ms: Option<Translator>) returns (dto: ApiMessageDto)
      requires e.Valid()
      ensures dto.Snapshot() == KeyedBody(e, key, params, exposeStacktrace, now, trace, ms)
    {
      var message := new ExceptionMessage.WithKey(e, key, params, now, trace, ms);
      dto := new ApiMessageDto.FromExceptionMessage(message, exposeStacktrace, ms);
    }

    /** createApiMessage(errors, exception): the DTO of the registry's errors; the exception is only logged. */
    method CreateErrorsApiMessage(errors: ValidationErrors, ms: Option<Translator>) returns (dto: ApiMessageDto)
      ensures dto.Snapshot() == BodyOfErrors(errors.Snapshot(), ms)
    {
      dto := new ApiMessageDto.FromErrors(errors, ms);
    }

    /** handleResourceNotFoundException: the exception under the resource-not-found key, with no parameters. */
    method HandleResourceNotFoundException(e: Exception, now: int, trace: string, ms: Option<Translator>)
      returns (dto: ApiMessageDto)
      requires e.Valid()
      ensures dto.Snapshot() == KeyedBody(e, ResourceNotFoundKey, [], exposeStacktrace, now, trace, ms)
    {
      dto := CreateKeyedApiMessage(e, ResourceNotFoundKey, [], now, trace, ms);
    }

    /** handleValidationException: the messages of the exception's own errors. */
    method HandleValidationException(e: Exception, ms: Option<Translator>) returns (dto: ApiMessageDto)
      requires e.kind.ValidationEx?
      ensures dto.Snapshot() == BodyOfErrors(e.kind.errors, ms)
    {
      var errors := new ValidationErrors();
      errors.global, errors.fields := e.kind.errors.global, e.kind.errors.fields;
      dto := CreateErrorsApiMessage(errors, ms);
    }

    /** handleInvalidReferenceException: the messages of the registry built from the invalid references. */
    method HandleInvalidReferenceException(e: Exception, listing: seq<string>, ms: Option<Translator>)
      returns (dto: ApiMessageDto)
      requires e.kind.InvalidReferenceEx?
      requires e.kind.collectionRefs.Some? ==> Enumerates(listing, e.kind.collectionRefs.value)
      ensures dto.Snapshot() == BodyOfErrors(InvalidReferenceErrors(e.kind.collectionRefs, listing, e.kind.propertyRefs), ms)
    {
      var errors := InvalidReferenceRegistry(e.kind.collectionRefs, listing, e.kind.propertyRefs);
      dto := CreateErrorsApiMessage(errors, ms);
    }

    /** handleGenericException: the exception's own message, answered with the exception's status code. */
    method HandleGenericException(e: Exception, now: int, trace: string, ms: Option<Translator>)
      returns (status: int, dto: ApiMessageDto)
      requires e.Valid() && e.kind.GenericEx?
      ensures status == e.kind.statusCode
      ensures dto.Snapshot() == ExceptionBody(e, exposeStacktrace, now, trace, ms)
    {
      dto := CreateApiMessage(e, now, trace, ms);
      status := e.kind.statusCode;
    }

    /**
     * handleInternalServerError (also behind handleGeneralBadRequestException's
     * sibling handlers for argument and message-conversion errors): Spring's own
     * security exceptions are rethrown unchanged, any other is answered with its message.
     */
    method HandleInternalServerError(e: Exception, status: int, now: int, trace: string, ms: Option<Translator>)
      returns (r: Response)
      requires e.Valid()
      ensures r.Rethrown? <==> IsSpringException(e)
      ensures r.Rethrown? ==> r.e == e
      ensures r.Answered? ==> r.status == status && r.dto.Snapshot() == ExceptionBody(e, exposeStacktrace, now, trace, ms)
    {
      if IsSpringException(e) {
        return Rethrown(e);
      }
      var dto := CreateApiMessage(e, now, trace, ms);
      r := Answered(status, dto);
    }

    /**
     * The dispatch Spring performs over the @ExceptionHandler methods: the most
     * specific handler for the exception's class answers it, with the status that
     * handler declares.
     */
    method Handle(e: Exception, listing: seq<string>, now: int, trace: string, ms: Option<Translator>)
      returns (r: Response)
      requires e.Valid()
      requires e.kind.InvalidReferenceEx? && e.kind.collectionRefs.Some? ==> Enumerates(listing, e.kind.collectionRefs.value)
      ensures r.Rethrown? <==> IsSpringException(e)
      ensures r.Rethrown? ==> r.e == e
      ensures e.kind.ResourceNotFoundEx? ==>
        r == Answered(NotFound, r.dto) && r.dto.Snapshot() == KeyedBody(e, ResourceNotFoundKey, [], exposeStacktrace, now, trace, ms)
      ensures e.kind.ValidationEx? ==>
        r == Answered(BadRequest, r.dto) && r.dto.Snapshot() == BodyOfErrors(e.kind.errors, ms)
      ensures e.kind.InvalidReferenceEx? ==>
        r == Answered(BadRequest, r.dto)
        && r.dto.Snapshot() == BodyOfErrors(InvalidReferenceErrors(e.kind.collectionRefs, listing, e.kind.propertyRefs), ms)
      ensures e.kind.GenericEx? ==>
        r == Answered(e.kind.statusCode, r.dto) && r.dto.Snapshot() == ExceptionBody(e, exposeStacktrace, now, trace, ms)
      ensures e.kind.BadRequestEx? || e.kind.ArgumentNotValidEx? || e.kind.MessageNotReadableEx? ==>
        r == Answered(BadRequest, r.dto) && r.dto.Snapshot() == ExceptionBody(e, exposeStacktrace, now, trace, ms)
      ensures e.kind.PlainApiEx? || e.kind.IllegalArgumentEx? || e.kind.OtherEx? ==>
        r == Answered(InternalServerError, r.dto) && r.dto.Snapshot() == ExceptionBody(e, exposeStacktrace, now, trace, ms)
    {
      match e.kind
      case ResourceNotFoundEx =>
        var dto := HandleResourceNotFoundException(e, now, trace, ms);
        r := Answered(NotFound, dto);
      case ValidationEx(_) =>
        var dto := HandleValidationException(e, ms);
        r := Answered(BadRequest, dto);
      case InvalidReferenceEx(_, _) =>
        var dto := HandleInvalidReferenceException(e, listing, ms);
        r := Answered(BadRequest, dto);
      case BadRequestEx =>
        var dto := CreateApiMessage(e, now, trace, ms);
        r := Answered(BadRequest, dto);
      case GenericEx(_) =>
        var status, dto := HandleGenericException(e, now, trace, ms);
        r := Answered(status, dto);
      case ArgumentNotValidEx =>
        r := HandleInternalServerError(e, BadRequest, now, trace, ms);
      case MessageNotReadableEx =>
        r := HandleInternalServerError(e, BadRequest, now, trace, ms);
      case _ =>
        r := HandleInternalServerError(e, InternalServerError, now, trace, ms);
    }
  }

  /**
   * The response to an InvalidReferenceException carries no field of its own:
   * a global message per collection listing, and under each property one message
   * per reported uuid, keyed "error.invalidref.single" with the uuid as parameter.
   */
  lemma InvalidReferenceResponse(collectionRefs: Option<set<string>>, listing: seq<string>,
                                 propertyRefs: Option<set<InvalidPropertyReference>>, ms: Option<Translator>)
    requires propertyRefs.Some?
    ensures var b := BodyOfErrors(InvalidReferenceErrors(collectionRefs, listing, propertyRefs), ms);
      (collectionRefs.None? <==> b.global == {})
      && (forall r | r in propertyRefs.value :: r.property in b.fields && ErrorMessage(SingleRefError(r.uuid), ms) in b.fields[r.property])
      && (forall f :: f in b.fields <==> exists r | r in propertyRefs.value :: r.property == f)
  {
    var es := InvalidReferenceErrors(collectionRefs, listing, propertyRefs);
    InvalidReferenceErrorsMeaning(collectionRefs, listing, propertyRefs);
    BodyOfErrorsMeaning(es, ms);
  }
}
