/**
 * The exceptions the REST layer throws and maps to responses: ApiException and
 * its subclasses ValidationException, InvalidReferenceException, GenericException
 * and BadRequestException, and the framework exceptions the advisor tells apart.
 * Exceptions are values; a ValidationException carries the contents of the
 * ValidationErrors object it was built from.
 */
module Exceptions {
  import opened Common
  import opened ErrorRegistry

  /** An invalid UUID (possibly not a UUID at all) given for a single reference property. */
  datatype InvalidPropertyReference = InvalidPropertyReference(property: string, uuid: string)

  /**
   * A MessageSource, the locale being fixed: the text its bundles hold for a
   * key, with the parameters filled in, or None when no bundle holds the key.
   */
  type Translator = (string, seq<Param>) -> Option<string>

  /**
   * getMessage(key, params, defaultMessage = key, locale) on the MessageSource
   * when there is one, and the key itself when there is none.
   */
  function Translate(ms: Option<Translator>, key: string, params: seq<Param>): string
  {
    if ms.Some? && ms.value(key, params).Some? then ms.value(key, params).value else key
  }

  /** The parameters an ApiException hands to getMessage: a null array is none. */
  function ParamsOf(info: ApiInfo): seq<Param>
  {
    if info.params.Some? then info.params.value else []
  }

  /** The runtime class of an exception, as far as exception handling distinguishes it. */
  datatype ExceptionKind =
    | ValidationEx(errors: ErrorSet)
    | InvalidReferenceEx(collectionRefs: Option<set<string>>, propertyRefs: Option<set<InvalidPropertyReference>>)
    | GenericEx(statusCode: int)
    | BadRequestEx
    | PlainApiEx
    | ResourceNotFoundEx
    | ArgumentNotValidEx
    | MessageNotReadableEx
    | IllegalArgumentEx
    | SpringSecurityEx
    | OtherEx
  {
    /** The subclasses of ApiException. */
    predicate IsApi()
    {
      ValidationEx? || InvalidReferenceEx? || GenericEx? || BadRequestEx? || PlainApiEx?
    }
  }

  /** The i18n key and parameters of an ApiException (parameters are null for ApiException(Throwable)). */
  datatype ApiInfo = ApiInfo(i18nKey: string, params: Option<seq<Param>>)

  /**
   * A thrown exception: its kind, its class's simple name, its API key and
   * parameters when it is an ApiException, and the message of any other exception.
   */
  datatype Exception = Exception(kind: ExceptionKind, simpleName: string, api: Option<ApiInfo>, message: Option<string>)
  {
    predicate Valid()
    {
      api.Some? <==> kind.IsApi()
    }
  }

  /** ValidationException(ValidationErrors): key "error.ValidationException", carrying the errors unchanged. */
  function NewValidationException(errors: ErrorSet): (r: Exception)
    ensures r.Valid() && r.kind.ValidationEx? && r.kind.errors == errors
    ensures r.api == Some(ApiInfo("error.ValidationException", Some([])))
  {
    Exception(ValidationEx(errors), "ValidationException", Some(ApiInfo("error.ValidationException", Some([]))), None)
  }

  /**
   * ValidationException(field) and ValidationException(field, message, params): a
   * fresh registry holding the one field error, keyed by the message or by
   * "error.validation.invalidValue" when the message is null.
   */
  function FieldValidationException(field: string, message: Option<string>, params: seq<Param>): (r: Exception)
  {
    var code := if message.Some? then message.value else "error.validation.invalidValue";
    NewValidationException(NoErrors.AddField(field, ValidationError(code, params)))
  }

  /** The single-field exceptions hold exactly one error, on that field, and no global error. */
  lemma FieldValidationExceptionShape(field: string, message: Option<string>, params: seq<Param>)
    ensures var r := FieldValidationException(field, message, params);
      r.Valid() && r.kind.ValidationEx?
      && r.kind.errors.global == {}
      && r.kind.errors.fields.Keys == {field}
      && r.kind.errors.fields[field] == {ValidationError(if message.None? then "error.validation.invalidValue" else message.value, params)}
      && !r.kind.errors.IsEmpty()
  {
  }

  /** InvalidReferenceException(InvalidPropertyReference): no collection references, one property reference. */
  function SingleInvalidReference(err: InvalidPropertyReference): (r: Exception)
    ensures r.Valid() && r.kind == InvalidReferenceEx(None, Some({err}))
  {
    Exception(InvalidReferenceEx(None, Some({err})), "InvalidReferenceException",
              Some(ApiInfo("error.IllegalReferenceException", Some([]))), None)
  }

  /** InvalidReferenceException(Collection, Collection): each given collection is copied into a set, null stays null. */
  function InvalidReferences(collectionRefs: Option<seq<string>>, propertyRefs: Option<seq<InvalidPropertyReference>>): (r: Exception)
    ensures r.Valid() && r.kind.InvalidReferenceEx?
    ensures r.kind.collectionRefs.None? <==> collectionRefs.None?
    ensures r.kind.propertyRefs.None? <==> propertyRefs.None?
    ensures collectionRefs.Some? ==> forall s :: s in r.kind.collectionRefs.value <==> s in collectionRefs.value
    ensures propertyRefs.Some? ==> forall p :: p in r.kind.propertyRefs.value <==> p in propertyRefs.value
  {
    var c := if collectionRefs.None? then None else Some(set s | s in collectionRefs.value);
    var p := if propertyRefs.None? then None else Some(set x | x in propertyRefs.value);
    Exception(InvalidReferenceEx(c, p), "InvalidReferenceException", Some(ApiInfo("error.IllegalReferenceException", Some([]))), None)
  }

  /** GenericException(status, key, params): an API exception answered with the given status code. */
  function NewGenericException(statusCode: int, key: string, params: seq<Param>): (r: Exception)
    ensures r.Valid() && r.kind == GenericEx(statusCode) && r.api == Some(ApiInfo(key, Some(params)))
  {
    Exception(GenericEx(statusCode), "GenericException", Some(ApiInfo(key, Some(params))), None)
  }

  /**
   * Throwable.getMessage: for an ApiException the key translated by the
   * MessageSource, or the key itself when there is none; otherwise the exception's own message.
   */
  function MessageOf(e: Exception, ms: Option<Translator>): (r: Option<string>)
    requires e.Valid()
    ensures e.kind.IsApi() && ms.Some? && ms.value(e.api.value.i18nKey, ParamsOf(e.api.value)).Some? ==>
      r == ms.value(e.api.value.i18nKey, ParamsOf(e.api.value))
    ensures e.kind.IsApi() && (ms.None? || ms.value(e.api.value.i18nKey, ParamsOf(e.api.value)).None?) ==>
      r == Some(e.api.value.i18nKey)
    ensures !e.kind.IsApi() ==> r == e.message
  {
    if e.api.Some? then Some(Translate(ms, e.api.value.i18nKey, ParamsOf(e.api.value)))
    else e.message
  }
}
