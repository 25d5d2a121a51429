/**
 * The client's error normaliser: whatever a failed request produced (an error
 * object from the server, a string, nothing) becomes an error response whose
 * error carries a `global` list and a `fields` object.
 */
module ApiError {
  import opened Common
  import Text
  import opened JsonFlatten

  /** What the catch handler passes on: undefined or a JSON value. */
  datatype Input = Undefined | Defined(v: Json)

  /** The normaliser's answer: always status "error" with data null. */
  datatype Response = Response(status: string, error: Json, data: Json)

  /** The as-written normaliser either answers or throws a TypeError. */
  datatype Outcome = Answered(response: Response) | ThrowsTypeError

  const GenericKey := "fe.generic.unknownError"
  const GenericMessage := "Unknown request error occurred"
  const OnlyMessageKey := "fe.generic.onlyMessageNoKey"
  const StringWrappedKey := "fe.generic.stringResponseWrapped"

  /** An ErrorType object: its key and its message. */
  function ErrorType(key: string, message: string): Json
  {
    JObj([Member("key", JStr(key)), Member("message", JStr(message))])
  }

  /** createGenericErrorType. */
  function GenericError(): Json
  {
    ErrorType(GenericKey, GenericMessage)
  }

  /** The property `key` of a value: an object's member, undefined (None) otherwise and when missing. */
  function Get(j: Json, key: string): Option<Json>
  {
    if j.JObj? then GetMember(j.members, key) else None
  }

  function GetMember(members: seq<Member>, key: string): Option<Json>
  {
    if |members| == 0 then None
    else if members[0].key == key then Some(members[0].value)
    else GetMember(members[1..], key)
  }

  /** typeof x === "object": objects, arrays and null. */
  predicate TypeofObject(x: Option<Json>)
  {
    x.Some? && (x.value.JObj? || x.value.JArr? || x.value.JNull?)
  }

  predicate IsArray(x: Option<Json>)
  {
    x.Some? && x.value.JArr?
  }

  predicate IsNullish(x: Option<Json>)
  {
    x.None? || x.value.JNull?
  }

  /** The own properties a spread copies: an object's members, an array's indices; nothing for null and primitives. */
  function Spread(j: Json): seq<Member>
  {
    match j
    case JObj(members) => members
    case JArr(items) => IndexMembers(items, 0)
    case _ => []
  }

  function IndexMembers(items: seq<Json>, from: nat): seq<Member>
    decreases |items|
  {
    if |items| == 0 then [] else [Member(Text.NatToString(from), items[0])] + IndexMembers(items[1..], from + 1)
  }

  /** A property written after a spread: an existing key keeps its place and takes the value, a new key goes last. */
  function SetMember(members: seq<Member>, key: string, value: Json): seq<Member>
  {
    if |members| == 0 then [Member(key, value)]
    else if members[0].key == key then [Member(key, value)] + members[1..]
    else [members[0]] + SetMember(members[1..], key, value)
  }

  /** Spreading b after a: each of b's properties written over a in b's order. */
  function SpreadOver(a: seq<Member>, b: seq<Member>): seq<Member>
    decreases |b|
  {
    if |b| == 0 then a else SpreadOver(SetMember(a, b[0].key, b[0].value), b[1..])
  }

  /** The error object when the entity is close to valid: an array `global` and a non-null object `fields`. */
  predicate AlmostValid(entity: Json)
  {
    IsArray(Get(entity, "global")) && TypeofObject(Get(entity, "fields")) && !IsNullish(Get(entity, "fields"))
  }

  /** The global list of the partial fallback (lines 48-67), given that `global` is not dereferenced when null. */
  function FallbackGlobal(entity: Json): seq<Json>
  {
    var g := Get(entity, "global");
    var f := Get(entity, "fields");
    if IsArray(g) then [g.value]
    else if g.Some? && g.value.JObj? && Get(g.value, "message").Some? && Get(g.value, "message").value.JStr? then
      [JObj(SpreadOver([Member("key", JStr(OnlyMessageKey))], g.value.members))]
    else if !TypeofObject(f) || IsNullish(f) then [GenericError()]
    else []
  }

  /** The partial fallback error: the entity's own properties, then `fields` as a copied object, then `global`. */
  function FallbackError(entity: Json): Json
  {
    var f := Get(entity, "fields");
    var fields := JObj(if TypeofObject(f) then Spread(f.value) else []);
    JObj(SetMember(SetMember(Spread(entity), "fields", fields), "global", JArr(FallbackGlobal(entity))))
  }

  function ErrorResponse(error: Json): Response
  {
    Response("error", error, JNull)
  }

  /** The answer for what cannot be read: the generic error and no field errors. */
  function GenericResponse(): Response
  {
    ErrorResponse(JObj([Member("global", JArr([GenericError()])), Member("fields", JObj([]))]))
  }

  /** Only an object or an array takes the object path: typeof "object" and not null. */
  predicate ObjectEntity(input: Input)
  {
    input.Defined? && (input.v.JObj? || input.v.JArr?)
  }

  /** An object whose `global` is null: line 56 reads `.message` of it. */
  predicate NullGlobal(input: Input)
  {
    ObjectEntity(input) && Get(input.v, "global") == Some(JNull)
  }

  /**
   * createAndCheckErrorResponse as written: for an object whose `global` is
   * null, `typeof global === "object"` holds and reading `global.message`
   * throws a TypeError.
   */
  function CreateAndCheckErrorResponseAsWritten(input: Input): Outcome
  {
    if NullGlobal(input) then ThrowsTypeError
    else Answered(CreateAndCheckErrorResponse(input))
  }

  /**
   * createAndCheckErrorResponse with a null `global` treated like a missing
   * one: an almost valid object passes unchanged, any other object or array
   * gets the partial fallback, a non-empty string is wrapped, and everything
   * else gets the generic error.
   */
  function CreateAndCheckErrorResponse(input: Input): Response
  {
    if ObjectEntity(input) then
      if AlmostValid(input.v) then ErrorResponse(input.v) else ErrorResponse(FallbackError(input.v))
    else if input.Defined? && input.v.JStr? && input.v.s != "" then
      ErrorResponse(JObj([Member("global", JArr([ErrorType(StringWrappedKey, input.v.s)])), Member("fields", JObj([]))]))
    else GenericResponse()
  }

  lemma {:induction false} SetMemberGet(members: seq<Member>, key: string, value: Json, other: string)
    ensures GetMember(SetMember(members, key, value), key) == Some(value)
    ensures other != key ==> GetMember(SetMember(members, key, value), other) == GetMember(members, other)
  {
    if |members| > 0 && members[0].key != key {
      SetMemberGet(members[1..], key, value, other);
    }
  }

  lemma {:induction false} SpreadOverGet(a: seq<Member>, b: seq<Member>, key: string)
    ensures GetMember(SpreadOver(a, b), key) == if LastValue(b, key).Some? then LastValue(b, key) else GetMember(a, key)
    decreases |b|
  {
    if |b| > 0 {
      SetMemberGet(a, b[0].key, b[0].value, key);
      SpreadOverGet(SetMember(a, b[0].key, b[0].value), b[1..], key);
    }
  }

  /** The value of the last member with the key: the one a spread leaves behind. */
  function LastValue(members: seq<Member>, key: string): Option<Json>
  {
    if |members| == 0 then None
    else
      var rest := LastValue(members[1..], key);
      if rest.Some? then rest else if members[0].key == key then Some(members[0].value) else None
  }

  /** A two-property error object {global, fields} reads back its two properties. */
  lemma GlobalAndFields(global: Json, fields: Json)
    ensures var e := JObj([Member("global", global), Member("fields", fields)]);
      Get(e, "global") == Some(global) && Get(e, "fields") == Some(fields)
  {
    var ms := [Member("global", global), Member("fields", fields)];
    assert ms[1..] == [Member("fields", fields)];
    assert "fields"[0] != "global"[0];
    assert ms[0].key != "fields";
    assert GetMember(ms, "fields") == GetMember(ms[1..], "fields");
    assert GetMember(ms[1..], "fields") == Some(fields);
  }

  /** Every answer has status "error" and data null, and its error has a `global` list and a `fields` object. */
  lemma ResponseShape(input: Input)
    ensures var r := CreateAndCheckErrorResponse(input);
      r.status == "error" && r.data == JNull
      && IsArray(Get(r.error, "global")) && TypeofObject(Get(r.error, "fields")) && !IsNullish(Get(r.error, "fields"))
  {
    if ObjectEntity(input) {
      if !AlmostValid(input.v) {
        FallbackFields(input.v);
      }
    } else if input.Defined? && input.v.JStr? && input.v.s != "" {
      GlobalAndFields(JArr([ErrorType(StringWrappedKey, input.v.s)]), JObj([]));
    } else {
      GlobalAndFields(JArr([GenericError()]), JObj([]));
    }
  }

  lemma FallbackFields(entity: Json)
    ensures Get(FallbackError(entity), "global") == Some(JArr(FallbackGlobal(entity)))
    ensures Get(FallbackError(entity), "fields")
      == Some(JObj(if TypeofObject(Get(entity, "fields")) then Spread(Get(entity, "fields").value) else []))
  {
    var f := Get(entity, "fields");
    var fields := JObj(if TypeofObject(f) then Spread(f.value) else []);
    var m := SetMember(Spread(entity), "fields", fields);
    SetMemberGet(Spread(entity), "fields", fields, "global");
    SetMemberGet(m, "global", JArr(FallbackGlobal(entity)), "fields");
  }

  /** Undefined, null, booleans, numbers and the empty string get the generic error and no field errors. */
  lemma UnreadableGetsGeneric(input: Input)
    requires input.Undefined? || input.v.JNull? || input.v.JBool? || input.v.JNum? || input.v == JStr("")
    ensures var e := CreateAndCheckErrorResponse(input).error;
      Get(e, "global") == Some(JArr([GenericError()])) && Get(e, "fields") == Some(JObj([]))
  {
    GlobalAndFields(JArr([GenericError()]), JObj([]));
  }

  /** A non-empty string becomes one global error with the wrapping key and the string as message. */
  lemma StringIsWrapped(s: string)
    requires s != ""
    ensures var e := CreateAndCheckErrorResponse(Defined(JStr(s))).error;
      Get(e, "global") == Some(JArr([ErrorType(StringWrappedKey, s)])) && Get(e, "fields") == Some(JObj([]))
  {
    GlobalAndFields(JArr([ErrorType(StringWrappedKey, s)]), JObj([]));
  }

  /** An object with an array `global` and a non-null object `fields` is the error, unchanged. */
  lemma AlmostValidPassesThrough(entity: Json)
    requires entity.JObj? && AlmostValid(entity)
    ensures CreateAndCheckErrorResponse(Defined(entity)).error == entity
  {
  }

  /**
   * Any other object gets the partial fallback: its fields copied (nothing when
   * they are no object), and a global list that holds the array `global` as its
   * one element, or the message-only `global` with the backup key unless it has
   * its own, or the generic error when `fields` is unusable too, or nothing.
   */
  lemma FallbackMeaning(entity: Json)
    requires (entity.JObj? || entity.JArr?) && !AlmostValid(entity) && !NullGlobal(Defined(entity))
    ensures var e := CreateAndCheckErrorResponse(Defined(entity)).error;
      var g := Get(entity, "global");
      var f := Get(entity, "fields");
      Get(e, "fields") == Some(JObj(if TypeofObject(f) then Spread(f.value) else []))
      && (IsArray(g) ==> Get(e, "global") == Some(JArr([g.value])))
      && (!IsArray(g) && g.Some? && g.value.JObj? && Get(g.value, "message").Some? && Get(g.value, "message").value.JStr? ==>
            exists m :: Get(e, "global") == Some(JArr([m]))
              && Get(m, "key") == (if LastValue(g.value.members, "key").Some? then LastValue(g.value.members, "key") else Some(JStr(OnlyMessageKey)))
              && Get(m, "message") == LastValue(g.value.members, "message"))
      && (!IsArray(g) && !(g.Some? && g.value.JObj? && Get(g.value, "message").Some? && Get(g.value, "message").value.JStr?) ==>
            Get(e, "global") == Some(JArr(if !TypeofObject(f) || IsNullish(f) then [GenericError()] else [])))
  {
    FallbackFields(entity);
    var g := Get(entity, "global");
    if !IsArray(g) && g.Some? && g.value.JObj? && Get(g.value, "message").Some? && Get(g.value, "message").value.JStr? {
      var m := JObj(SpreadOver([Member("key", JStr(OnlyMessageKey))], g.value.members));
      SpreadOverGet([Member("key", JStr(OnlyMessageKey))], g.value.members, "key");
      SpreadOverGet([Member("key", JStr(OnlyMessageKey))], g.value.members, "message");
      MessageIsLast(g.value.members);
      assert Get(CreateAndCheckErrorResponse(Defined(entity)).error, "global") == Some(JArr([m]));
    }
  }

  /** A message found by lookup is also there as a last value. */
  lemma {:induction false} MessageIsLast(members: seq<Member>)
    requires GetMember(members, "message").Some?
    ensures LastValue(members, "message").Some?
  {
    if members[0].key != "message" {
      MessageIsLast(members[1..]);
    } else if LastValue(members[1..], "message").None? {
    }
  }

  /**
   * The as-written normaliser throws exactly for an object whose `global` is
   * null ({"global": null} is one); on every other input it answers as the
   * corrected one does.
   */
  lemma NullGlobalThrows(input: Input)
    ensures CreateAndCheckErrorResponseAsWritten(input).ThrowsTypeError? <==> NullGlobal(input)
    ensures !NullGlobal(input) ==> CreateAndCheckErrorResponseAsWritten(input) == Answered(CreateAndCheckErrorResponse(input))
    ensures CreateAndCheckErrorResponseAsWritten(Defined(JObj([Member("global", JNull)]))).ThrowsTypeError?
  {
  }

  /** The corrected normaliser answers {"global": null} with the generic error, its fields being unusable. */
  lemma NullGlobalCorrected()
    ensures var e := CreateAndCheckErrorResponse(Defined(JObj([Member("global", JNull)]))).error;
      Get(e, "global") == Some(JArr([GenericError()])) && Get(e, "fields") == Some(JObj([]))
  {
    var entity := JObj([Member("global", JNull)]);
    FallbackFields(entity);
  }
}
