# mandi: the entity backend and its web client, modelled in Dafny

mandi manages laboratory data as JPA entities. A Spring REST backend
exposes them and a React client edits them. This project models the part of
both that decides what an entity becomes and what the user is told:

- **Backend patching** (`ServiceUtils`, `AbstractBaseController`, `CloneUtils`).
  A JSON payload is applied to an entity. Simple properties are converted
  and type-checked first. References are then checked by UUID against the
  database in one batch per class. A diff of the old and new state is built,
  and the entity is validated and saved.
- **Validation** (`AnnotationBasedValidator`, `LaboratoryValidator`,
  `ValidationErrors`, the validator factory).
  - `@NotNull`, `@Column(nullable, length, unique)` and `@Table` unique
    constraints are turned into field checks and a JPQL uniqueness query.
  - Errors are collected per field and globally in a registry.
- **Error reporting** (the exceptions, `ExceptionMessage`, `ApiMessageDto`,
  `RestControllerAdvisor`). Exceptions and error registries become the JSON
  message body that each exception handler answers with.
- **Small utilities**: `StringUtils`, `UserSummary`, `BaseEntity`,
  `StateDiff`/`EntityDiff`/`EventType`, `ComplexFieldsModelMapper`.
- **The client**:
  - URL building (`api-utils.ts`, `entity-api.ts`, `routes.ts`);
  - normalising error responses (`api-error.ts`);
  - date formatting and JSON flattening;
  - pagination;
  - the numeric input field;
  - the hooks `useEntityField`, `useEntityForm`, `useFetchEntity` and
    `useFetchEntityList`: debounced patching, backend errors mapped onto
    fields, and paged fetching.

How each part is modelled:

- Reflection is replaced by a `ClassInfo` schema: declared properties, their
  kinds and annotations, and whether they have a getter and a setter.
- An entity's state is a map from property name to `Value`.
- Objects that Java or React update in place are classes, with `modifies`
  clauses on their methods:
  - the entity;
  - the `ValidationErrors` registry;
  - `ExceptionMessage` and `ApiMessageDto`;
  - the validator and the validator cache;
  - the repository;
  - the hooks' state.
- Pure helpers are functions with lemmas.
- Loops in the source are `while` loops with invariants, proved against the
  specification functions the lemmas talk about.
- Everything outside the program is a parameter:
  - the database and JPQL evaluation;
  - the `MessageSource`;
  - Jackson's converter;
  - `UUID.fromString`;
  - `encodeURIComponent`, and `Number.toString` in the request layer and the field hook;
  - the clock, stack traces and server responses.

## Model

| member | source | states |
|---|---|---|
| ErrorRegistry.AddKeepsAndRecords | src/main/java/de/conti/tires/mandi/backend/core/validation/ValidationErrors.java:43-58 | adding a global or field error makes the registry non-empty and loses no earlier error |
| ErrorRegistry.AddToFieldsMeaning | src/main/java/de/conti/tires/mandi/backend/core/validation/ValidationErrors.java:91-94 | adding one error to several fields gives each of them the error and leaves every other entry as it was |
| ErrorRegistry.AddFieldStep | src/main/java/de/conti/tires/mandi/backend/core/validation/ValidationErrors.java:76-79 | adding errors one by one is adding their set |
| ErrorRegistry.SetFieldLeavesOne | src/main/java/de/conti/tires/mandi/backend/core/validation/ValidationErrors.java:105-109 | setFieldError leaves exactly one error on the field and no other field changes |
| ErrorRegistry.RangeErrorMeaning | src/main/java/de/conti/tires/mandi/backend/core/validation/ValidationErrors.java:183-252 | a value is rejected exactly when it lies outside a bound that is given; a missing value or bound never fails, and the error names the check that failed |
| ErrorRegistry.ValidationErrors.AddGlobalError | src/main/java/de/conti/tires/mandi/backend/core/validation/ValidationErrors.java:43-46 | the registry after the call is the old one with the global error added |
| ErrorRegistry.ValidationErrors.AddFieldError | src/main/java/de/conti/tires/mandi/backend/core/validation/ValidationErrors.java:54-58 | the registry after the call is the old one with the error added under the field, and nothing else changed |
| ErrorRegistry.ValidationErrors.AddGlobalErrors | src/main/java/de/conti/tires/mandi/backend/core/validation/ValidationErrors.java:76-79 | every given error is added to the global errors |
| ErrorRegistry.ValidationErrors.SetFieldError | src/main/java/de/conti/tires/mandi/backend/core/validation/ValidationErrors.java:105-109 | the given error becomes the field's only error |
| ErrorRegistry.ValidationErrors.DecideRequiredErrorString | src/main/java/de/conti/tires/mandi/backend/core/validation/ValidationErrors.java:118-126 | a null, empty or blank string adds the required error; any other string adds nothing |
| ErrorRegistry.ValidationErrors.DecideRequiredError | src/main/java/de/conti/tires/mandi/backend/core/validation/ValidationErrors.java:135-143 | only null adds the required error |
| ErrorRegistry.ValidationErrors.DecideLengthError | src/main/java/de/conti/tires/mandi/backend/core/validation/ValidationErrors.java:154-167 | a non-null string longer than the limit adds a length error carrying the limit; nothing else does |
| ErrorRegistry.ValidationErrors.DecideRangeError | src/main/java/de/conti/tires/mandi/backend/core/validation/ValidationErrors.java:183-206 | the range error is added exactly when the value lies outside a given bound |
| ErrorRegistry.ValidationErrors.AddUniqueError | src/main/java/de/conti/tires/mandi/backend/core/validation/ValidationErrors.java:260-263 | the field gains the unique error |
| ErrorRegistry.ValidationErrors.ClearField | src/main/java/de/conti/tires/mandi/backend/core/validation/ValidationErrors.java:279-282 | the field's entry is removed and nothing else changes |
| ErrorRegistry.ValidationErrors.Clear | src/main/java/de/conti/tires/mandi/backend/core/validation/ValidationErrors.java:287-291 | the registry becomes empty |
| ErrorRegistry.ValidationErrors.ThrowExceptionOnError | src/main/java/de/conti/tires/mandi/backend/core/validation/ValidationErrors.java:298-304 | a ValidationException carrying exactly the registered errors is thrown when the registry holds anything; otherwise nothing is thrown |
| Exceptions.NewValidationException | src/main/java/de/conti/tires/mandi/backend/core/exception/ValidationException.java:23-46 | the exception has the key error.ValidationException and carries the errors unchanged |
| Exceptions.FieldValidationExceptionShape | src/main/java/de/conti/tires/mandi/backend/core/exception/ValidationException.java:48-53 | a single-field exception holds exactly one error, on that field, and no global error |
| Exceptions.SingleInvalidReference | src/main/java/de/conti/tires/mandi/backend/core/exception/InvalidReferenceException.java:32-38 | a single invalid property reference gives no collection references and exactly that one property reference |
| Exceptions.InvalidReferences | src/main/java/de/conti/tires/mandi/backend/core/exception/InvalidReferenceException.java:46-54 | each given collection becomes a set with the same elements; a null collection stays null |
| Exceptions.NewGenericException | src/main/java/de/conti/tires/mandi/backend/core/exception/GenericException.java:22-38 | a generic exception answers with the status code it was given, under its key and parameters |
| Exceptions.MessageOf | src/main/java/de/conti/tires/mandi/backend/core/exception/ApiException.java:42-51 | the message of an API exception is the MessageSource's text for its key and parameters; it is the key itself when there is no MessageSource or no bundle holds the key; any other exception keeps its own message |
| ExceptionMessages.BuildMessage | src/main/java/de/conti/tires/mandi/backend/core/exception/ApiMessageDto.java:129-134 | the text is the MessageSource's text for the key and parameters when a bundle holds it, and the key itself (the default message) when no bundle does or there is no MessageSource; it is always one of the two |
| ExceptionMessages.BuildMessageIsGetMessage | src/main/java/de/conti/tires/mandi/backend/core/exception/ApiException.java:42-51 | for an API exception, building the message from its key and parameters gives the same text as the exception's own getMessage |
| ExceptionMessages.TranslationNeedsEntry | src/main/java/de/conti/tires/mandi/backend/core/exception/ApiMessageDto.java:129-134 | a MessageSource changes the text exactly when it holds an entry for the key that differs from the key |
| ExceptionMessages.KeyAndParams | src/main/java/de/conti/tires/mandi/backend/core/validation/ExceptionMessage.java:48-60 | an API exception gives its own key and parameters; any other exception the unknown-server-error key and no parameters |
| ExceptionMessages.ClearedMeaning | src/main/java/de/conti/tires/mandi/backend/core/validation/ExceptionMessage.java:97-102 | clearing removes only the exception details, which a reader of the message does not see, and clearing twice changes nothing more |
| ExceptionMessages.ExceptionMessage.constructor | src/main/java/de/conti/tires/mandi/backend/core/validation/ExceptionMessage.java:48-60 | the new message is an ERROR message with the exception's key and parameters and its details |
| ExceptionMessages.ExceptionMessage.WithKey | src/main/java/de/conti/tires/mandi/backend/core/validation/ExceptionMessage.java:70-76 | the new message is an ERROR message with the given key and parameters |
| ExceptionMessages.ExceptionMessage.ApplyValues | src/main/java/de/conti/tires/mandi/backend/core/validation/ExceptionMessage.java:81-90 | the details become the exception's simple name, its message and its stack trace, and nothing else changes |
| ExceptionMessages.ExceptionMessage.ClearExceptionDetails | src/main/java/de/conti/tires/mandi/backend/core/validation/ExceptionMessage.java:97-102 | the stack trace, error message and exception name become null, and nothing else changes |
| ApiMessages.BodyOfErrorsMeaning | src/main/java/de/conti/tires/mandi/backend/core/exception/ApiMessageDto.java:94-113 | there is one message per global error and one per error of each field; each message carries its error's code as key and the error's parameters; distinct errors give distinct messages |
| ApiMessages.MessagesCount | src/main/java/de/conti/tires/mandi/backend/core/exception/ApiMessageDto.java:94-113 | there are exactly as many messages as errors |
| ApiMessages.ProcessedMeaning | src/main/java/de/conti/tires/mandi/backend/core/exception/ApiMessageDto.java:118-134 | a processed message keeps its key, parameters and time; its message is the MessageSource's text for the key, or the key when no bundle holds it or there is no MessageSource; its exception details remain only when stack traces are included |
| ApiMessages.ApiMessageDto.ApplyFromErrors | src/main/java/de/conti/tires/mandi/backend/core/exception/ApiMessageDto.java:94-113 | the global messages and the field map become those of the registry's errors |
| ApiMessages.ApiMessageDto.ApplyFromExceptions | src/main/java/de/conti/tires/mandi/backend/core/exception/ApiMessageDto.java:118-127 | every message is processed and added to the global messages; the fields are left alone |
| ApiMessages.ApiMessageDto.FromErrors | src/main/java/de/conti/tires/mandi/backend/core/exception/ApiMessageDto.java:45-49 | the DTO holds the messages of the registry's errors |
| ApiMessages.ApiMessageDto.FromException | src/main/java/de/conti/tires/mandi/backend/core/exception/ApiMessageDto.java:57-63 | the DTO holds exactly the one message made from the exception |
| ApiMessages.ApiMessageDto.FromExceptionMessage | src/main/java/de/conti/tires/mandi/backend/core/exception/ApiMessageDto.java:84-89 | the DTO holds exactly the given message, processed |
| ApiMessages.CollectMessages | src/main/java/de/conti/tires/mandi/backend/core/exception/ApiMessageDto.java:104-111 | the loop over one field's errors yields that field's set of messages |
| RestAdvisor.InvalidReferenceErrorsMeaning | src/main/java/de/conti/tires/mandi/container/rest/RestControllerAdvisor.java:86-95 | there is no global error without collection references, otherwise exactly one, listing them; the fields with errors are exactly the properties of the property references, each with one error per reported UUID |
| RestAdvisor.InvalidReferenceResponse | src/main/java/de/conti/tires/mandi/container/rest/RestControllerAdvisor.java:86-95 | the response has one global message for the collection listing and, under each property, one message per reported UUID |
| RestAdvisor.InvalidReferenceRegistry | src/main/java/de/conti/tires/mandi/container/rest/RestControllerAdvisor.java:88-92 | the registry that is built holds exactly the errors the meaning lemma describes |
| RestAdvisor.RestControllerAdvisor.HandleResourceNotFoundException | src/main/java/de/conti/tires/mandi/container/rest/RestControllerAdvisor.java:60-63 | the answer is 404 with the exception under the resource-not-found key and no parameters |
| RestAdvisor.RestControllerAdvisor.HandleValidationException | src/main/java/de/conti/tires/mandi/container/rest/RestControllerAdvisor.java:73-76 | the answer is 400 with the messages of the exception's own errors |
| RestAdvisor.RestControllerAdvisor.HandleInvalidReferenceException | src/main/java/de/conti/tires/mandi/container/rest/RestControllerAdvisor.java:86-95 | the answer is 400 with the messages of the registry built from the invalid references |
| RestAdvisor.RestControllerAdvisor.HandleGenericException | src/main/java/de/conti/tires/mandi/container/rest/RestControllerAdvisor.java:130-133 | the answer carries the exception's own status code and message |
| RestAdvisor.RestControllerAdvisor.HandleInternalServerError | src/main/java/de/conti/tires/mandi/container/rest/RestControllerAdvisor.java:170-195 | Spring security exceptions are rethrown unchanged; any other exception is answered with 500 and its message |
| RestAdvisor.RestControllerAdvisor.Handle | src/main/java/de/conti/tires/mandi/container/rest/RestControllerAdvisor.java:60-160 | every exception is answered by the most specific handler for its class, with the status that handler declares |
| RestAdvisor.RestControllerAdvisor.CreateApiMessage | src/main/java/de/conti/tires/mandi/container/rest/RestControllerAdvisor.java:204-208 | the DTO holds the exception's own message |
| RestAdvisor.RestControllerAdvisor.CreateKeyedApiMessage | src/main/java/de/conti/tires/mandi/container/rest/RestControllerAdvisor.java:219-224 | the DTO holds a message with the given key and parameters |
| RestAdvisor.RestControllerAdvisor.CreateErrorsApiMessage | src/main/java/de/conti/tires/mandi/container/rest/RestControllerAdvisor.java:234-238 | the DTO holds the messages of the registry's errors |
| AnnotationValidation.FindFieldByName | src/main/java/de/conti/tires/mandi/backend/core/validation/AnnotationBasedValidator.java:427-447 | the result is a declared field that the column name refers to, the first one in declaration order; it is absent only when no field matches |
| AnnotationValidation.GroupOfMeaning | src/main/java/de/conti/tires/mandi/backend/core/validation/AnnotationBasedValidator.java:93-120 | a unique constraint's group holds each field its column names resolve to, each exactly once |
| AnnotationValidation.PutIsMapUpdate | src/main/java/de/conti/tires/mandi/backend/core/validation/AnnotationBasedValidator.java:110-118 | storing a group under its key acts as a map update: that key gives the new group and every other key what it gave before |
| AnnotationValidation.FieldRestrictionsMeaning | src/main/java/de/conti/tires/mandi/backend/core/validation/AnnotationBasedValidator.java:127-162 | a field name has a restriction exactly when some field of that name declares one, and it is the restriction of the last such field |
| AnnotationValidation.RestrictionOfMeaning | src/main/java/de/conti/tires/mandi/backend/core/validation/AnnotationBasedValidator.java:164-189 | a value is required exactly when @NotNull or @Column(nullable = false) says so |
| AnnotationValidation.ProcessTableAnnotation | src/main/java/de/conti/tires/mandi/backend/core/validation/AnnotationBasedValidator.java:93-120 | the entries are those the constraints put in order, one Map.put per @Table unique constraint under its comma-joined field names |
| AnnotationValidation.TableEntriesMeaning | src/main/java/de/conti/tires/mandi/backend/core/validation/AnnotationBasedValidator.java:93-120 | no key appears twice; a key is present exactly when some constraint's joined field names equal it, and it holds the group of the last such constraint, so constraints naming the same fields leave one entry |
| AnnotationValidation.ProcessFieldAnnotation | src/main/java/de/conti/tires/mandi/backend/core/validation/AnnotationBasedValidator.java:127-162 | each restricted field gets its restriction, and each unique column a single-field group |
| AnnotationValidation.FieldErrorsMeaning | src/main/java/de/conti/tires/mandi/backend/core/validation/AnnotationBasedValidator.java:219-256 | a required field fails only for null and the empty string; the length limit fails for a longer string, or for a collection that holds one; no other error arises |
| AnnotationValidation.CheckField | src/main/java/de/conti/tires/mandi/backend/core/validation/AnnotationBasedValidator.java:219-256 | the registry gains exactly the field's check errors |
| AnnotationValidation.NullCountMeaning | src/main/java/de/conti/tires/mandi/backend/core/validation/AnnotationBasedValidator.java:392-417 | every member of a group is null exactly when the null count reaches the group's size |
| AnnotationValidation.WhereClauseIsJoin | src/main/java/de/conti/tires/mandi/backend/core/validation/AnnotationBasedValidator.java:271-334 | the where clause is the OR of one term per queried group, in order |
| AnnotationValidation.WhereClauseBlank | src/main/java/de/conti/tires/mandi/backend/core/validation/AnnotationBasedValidator.java:271-334 | no query is made exactly when no group is queried |
| AnnotationValidation.QueriedGroupsMeaning | src/main/java/de/conti/tires/mandi/backend/core/validation/AnnotationBasedValidator.java:282-300 | the queried groups are exactly the groups where no member has an error and some member is not null, in iteration order |
| AnnotationValidation.BoundParametersAreNamed | src/main/java/de/conti/tires/mandi/backend/core/validation/AnnotationBasedValidator.java:271-334 | a parameter is bound exactly when some queried group has that member with a non-null value, which is exactly when some term names it |
| AnnotationValidation.WithoutReferences | src/main/java/de/conti/tires/mandi/backend/core/validation/AnnotationBasedValidator.java:336-360 | the result keeps exactly the members whose value is not an entity reference, in order |
| AnnotationValidation.HitFieldsMeaning | src/main/java/de/conti/tires/mandi/backend/core/validation/AnnotationBasedValidator.java:362-390 | for one stored entity, a field is marked exactly when it is reported for a matching group |
| AnnotationValidation.UniqueViolationsMeaning | src/main/java/de/conti/tires/mandi/backend/core/validation/AnnotationBasedValidator.java:271-390 | corrected: a field gets the unique error exactly when some other stored entity (by UUID) agrees with the validated one on every field of a queried group that holds the field |
| AnnotationValidation.UniqueViolationsAsWrittenMeaning | src/main/java/de/conti/tires/mandi/backend/core/validation/AnnotationBasedValidator.java:362-390 | as written: every group, queried or not, is compared with every entity the query returns |
| AnnotationValidation.IntendedWithinAsWritten | src/main/java/de/conti/tires/mandi/backend/core/validation/AnnotationBasedValidator.java:362-390 | every field the corrected comparison marks is also marked as written |
| AnnotationValidation.AllNullGroupMarkedAsWritten | src/main/java/de/conti/tires/mandi/backend/core/validation/AnnotationBasedValidator.java:369-387 | as written, a unique column that is null in both the validated entity and a stored one gets the unique error once another group makes the query return that entity |
| AnnotationValidation.AllNullGroupNotMarked | src/main/java/de/conti/tires/mandi/backend/core/validation/AnnotationBasedValidator.java:369-387 | corrected, the same example marks only the field that really collides |
| AnnotationValidation.CreateExpressionsCountingNulls | src/main/java/de/conti/tires/mandi/backend/core/validation/AnnotationBasedValidator.java:392-417 | the null count, the expressions and the parameters of a group are those of its members, in order |
| AnnotationValidation.GroupIsValid | src/main/java/de/conti/tires/mandi/backend/core/validation/AnnotationBasedValidator.java:369-380 | a group is valid exactly when some member differs between the parameters and the stored entity |
| AnnotationValidation.BuildWhereClause | src/main/java/de/conti/tires/mandi/backend/core/validation/AnnotationBasedValidator.java:282-320 | the loop yields the where clause and parameters that the specification functions describe |
| AnnotationValidation.AnnotationCheckOnlyAdds | src/main/java/de/conti/tires/mandi/backend/core/validation/AnnotationBasedValidator.java:195-207 | validation only adds errors: global errors stay as they are, every field keeps its errors, and a field gains only its own check errors or the unique error |
| AnnotationValidation.AnnotationBasedValidator.constructor | src/main/java/de/conti/tires/mandi/backend/core/validation/AnnotationBasedValidator.java:72-84 | the validator is configured from the class's @Table constraints and the annotations of its fields |
| AnnotationValidation.AnnotationBasedValidator.Validate | src/main/java/de/conti/tires/mandi/backend/core/validation/AnnotationBasedValidator.java:195-207 | the registry after validation is the annotation check of the entity: field restrictions first, then the unique constraints |
| AnnotationValidation.AnnotationBasedValidator.ValidateFieldRestrictions | src/main/java/de/conti/tires/mandi/backend/core/validation/AnnotationBasedValidator.java:219-256 | the registry gains the field-check errors of every restricted field |
| AnnotationValidation.AnnotationBasedValidator.ValidateUniqueConstraintRestrictions | src/main/java/de/conti/tires/mandi/backend/core/validation/AnnotationBasedValidator.java:271-334 | the registry gains the unique errors that the as-written comparison yields for the query's results |
| LaboratoryValidation.Clashing | src/main/java/de/conti/tires/mandi/backend/laboratory/LaboratoryValidator.java:34-52 | the laboratories the JPQL query selects are exactly the stored ones with a non-null name equal to the given non-null name and a UUID other than the given non-null UUID |
| LaboratoryValidation.FindUniqueNameViolationMeaning | src/main/java/de/conti/tires/mandi/backend/laboratory/LaboratoryValidator.java:34-52 | for a database that answers the query with the clashing laboratories: no clash gives no result; one clash gives that laboratory; two or more make the single-result lookup throw; a null name or UUID finds nothing |
| LaboratoryValidation.LaboratoryCheckMeaning | src/main/java/de/conti/tires/mandi/backend/laboratory/LaboratoryValidator.java:34-52 | beyond the annotation checks only the name can gain an error: the unique error, exactly when the payload has a name that exactly one other laboratory carries; when several carry it the lookup's exception is thrown and the registry keeps the annotation checks' errors |
| LaboratoryValidation.LaboratoryCheckOnlyAdds | src/main/java/de/conti/tires/mandi/backend/laboratory/LaboratoryValidator.java:34-52 | the laboratory validator never removes an error already in the registry |
| LaboratoryValidation.LaboratoryValidator.Validate | src/main/java/de/conti/tires/mandi/backend/laboratory/LaboratoryValidator.java:34-52 | the registry becomes the laboratory check of the entity and the thrown exception, if any, is the check's; the factory may cache a new validator |
| ValidatorFactory.RequestMeaning | src/main/java/de/conti/tires/mandi/backend/core/validation/AnnotationBasedValidatorFactory.java:50-57 | after a request the pair of class and flag is cached; an existing entry is never replaced, and every other pair is left alone |
| ValidatorFactory.RequestIdempotent | src/main/java/de/conti/tires/mandi/backend/core/validation/AnnotationBasedValidatorFactory.java:50-57 | asking twice for the same pair leaves the cache as the first request left it |
| ValidatorFactory.AnnotationBasedValidatorFactory.CreateWithFlag | src/main/java/de/conti/tires/mandi/backend/core/validation/AnnotationBasedValidatorFactory.java:50-57 | the result is the cached validator of the pair, or a new one configured with that flag and stored under it |
| ValidatorFactory.AnnotationBasedValidatorFactory.Create | src/main/java/de/conti/tires/mandi/backend/core/validation/AnnotationBasedValidatorFactory.java:36-39 | the result is the validator that ignores unique errors on references |
| ServiceUtils.PerformValidation | src/main/java/de/conti/tires/mandi/backend/core/base/ServiceUtils.java:39-55 | validation fails exactly when a validator is given and reports an error; the exception then carries exactly those errors |
| ServiceUtils.SimpleFieldsMeaning | src/main/java/de/conti/tires/mandi/backend/core/base/ServiceUtils.java:176-241 | a property holds its converted value exactly when its payload entry is written, and keeps its old value otherwise; it has a type error exactly when its entry is rejected |
| ServiceUtils.SkippedEntries | src/main/java/de/conti/tires/mandi/backend/core/base/ServiceUtils.java:186-200 | keys naming a nested property, inaccessible properties and references are never written and never rejected |
| ServiceUtils.EmptyStringIsNull | src/main/java/de/conti/tires/mandi/backend/core/base/ServiceUtils.java:201-215 | an empty string counts as null: a primitive property gets the required error; any other is written null when it can be |
| ServiceUtils.EnumRule | src/main/java/de/conti/tires/mandi/backend/core/base/ServiceUtils.java:243-257 | an enum property accepts null, the name of one of its constants, or a value of exactly its class; anything else is an invalid value |
| ServiceUtils.MapSimpleFields | src/main/java/de/conti/tires/mandi/backend/core/base/ServiceUtils.java:176-241 | every entry is handled: accepted ones are written, and the type errors are thrown together afterwards, with the accepted writes kept |
| ServiceUtils.MapSimpleField | src/main/java/de/conti/tires/mandi/backend/core/base/ServiceUtils.java:186-238 | one entry is written or rejected as the specification says |
| ServiceUtils.BatchHolds | src/main/java/de/conti/tires/mandi/backend/core/base/ServiceUtils.java:115-144 | the batch of a class holds exactly the references aimed at that class, under their UUIDs |
| ServiceUtils.ResolveBatch | src/main/java/de/conti/tires/mandi/backend/core/base/ServiceUtils.java:289-321 | an empty batch makes no query; otherwise each returned entity resolves the references with its UUID, and the rest stay unresolved |
| ServiceUtils.ResolveReferencedEntities | src/main/java/de/conti/tires/mandi/backend/core/base/ServiceUtils.java:289-321 | every batch is queried once; each returned reference maps its property to the entity, and every other reference becomes an invalid reference |
| ServiceUtils.ClassifyReferences | src/main/java/de/conti/tires/mandi/backend/core/base/ServiceUtils.java:115-144 | the attribute loop sorts nulls into the nulls, UUIDs into their class's batch, and anything else into the malformed references |
| ServiceUtils.InvalidReferencesOfList | src/main/java/de/conti/tires/mandi/backend/core/base/ServiceUtils.java:146-151 | the exception built from the list of invalid references is the one built from their set |
| ServiceUtils.PerformPatch | src/main/java/de/conti/tires/mandi/backend/core/base/ServiceUtils.java:101-166 | the entity and the thrown exception after the patch are those of the patch specification: type errors first, then all invalid references together, else nulls and resolved references written |
| ServiceUtils.PatchMeaning | src/main/java/de/conti/tires/mandi/backend/core/base/ServiceUtils.java:101-166 | a patch succeeds exactly when there are no type errors and no invalid references; when it throws, a referenced attribute keeps its old value; a malformed reference makes it throw; on success a null reference is written null and a well-formed one is resolved to its entity |
| ServiceUtils.ValidReferenceResolved | src/main/java/de/conti/tires/mandi/backend/core/base/ServiceUtils.java:289-321 | without invalid references, every reference sent as a non-null value is well formed and is resolved |
| ServiceUtils.WriteNulls | src/main/java/de/conti/tires/mandi/backend/core/base/ServiceUtils.java:155-158 | each property to null is set to null through its setter |
| ServiceUtils.WriteResolved | src/main/java/de/conti/tires/mandi/backend/core/base/ServiceUtils.java:159-161 | each resolved reference is written through its setter |
| ServiceUtils.AddErrors | src/main/java/de/conti/tires/mandi/backend/core/base/ServiceUtils.java:347-350 | every unresolved reference is added as an invalid property reference |
| EntityObject.Entity.SetProperty | src/main/java/de/conti/tires/mandi/backend/core/base/ServiceUtils.java:155-161 | exactly the one property now holds the value |
| BaseController.UpdateSteps | src/main/java/de/conti/tires/mandi/backend/core/base/AbstractBaseController.java:175-193 | the steps run in order and stop at the first exception: a patch exception is passed on before any diff is built, and the accepted simple properties stay written |
| BaseController.CreateIsCreateDiff | src/main/java/de/conti/tires/mandi/backend/core/base/AbstractBaseController.java:175-180 | a create has no previous state, so its diff is a CREATE once the patch succeeded |
| BaseController.UpdateDiffOfCopy | src/main/java/de/conti/tires/mandi/backend/core/base/AbstractBaseController.java:175-205 | an update records the copy taken before patching; its diff is an UPDATE when the UUID is kept, and a changed UUID ends in an IllegalArgumentException |
| BaseController.DefaultValidatorNeverRejects | src/main/java/de/conti/tires/mandi/backend/core/base/AbstractBaseController.java:248-251 | without a validator, validation never stops an update |
| BaseController.ValidationGatesSave | src/main/java/de/conti/tires/mandi/backend/core/base/AbstractBaseController.java:175-193 | an update whose patch and diff succeeded is saved exactly when the validator reports nothing; otherwise it ends in a ValidationException carrying the validator's errors |
| BaseController.Repository.SaveAndFlush | src/main/java/de/conti/tires/mandi/backend/core/base/AbstractBaseController.java:236-239 | the saved entity is appended to the repository's saved states |
| BaseController.AbstractBaseController.constructor | src/main/java/de/conti/tires/mandi/backend/core/base/AbstractBaseController.java:248-251 | a controller that keeps the default getValidator, which returns null |
| BaseController.AbstractBaseController.WithValidator | src/main/java/de/conti/tires/mandi/backend/core/base/AbstractBaseController.java:248-251 | a controller whose getValidator returns the given validator |
| BaseController.AbstractBaseController.PerformUpdateFromMap | src/main/java/de/conti/tires/mandi/backend/core/base/AbstractBaseController.java:175-224 | the entity, the exception and the saved state are those of the update specification |
| BaseController.AbstractBaseController.PostItem | src/main/java/de/conti/tires/mandi/backend/core/base/AbstractBaseController.java:51-57 | a new instance of the class is updated as a create |
| BaseController.AbstractBaseController.PatchItem | src/main/java/de/conti/tires/mandi/backend/core/base/AbstractBaseController.java:72-76 | an unknown UUID is answered with ResourceNotFoundException before anything is patched; a stored entity is updated in place |
| BaseController.AbstractBaseController.GetPage | src/main/java/de/conti/tires/mandi/backend/core/base/AbstractBaseController.java:99-116 | the repository is asked with the filter upper-cased; the page information copies the page's numbers, lastPage holds exactly on the last page, and every entity is converted |
| CloneUtils.ShallowCopyMeaning | src/main/java/de/conti/tires/mandi/backend/util/CloneUtils.java:34-42 | a shallow copy agrees with its source on every copyable property and holds the new instance's value elsewhere |
| CloneUtils.ShallowCopyKeepsUuid | src/main/java/de/conti/tires/mandi/backend/util/CloneUtils.java:34-42 | a shallow copy of a base entity keeps its UUID |
| CloneUtils.ShallowBeanCopy | src/main/java/de/conti/tires/mandi/backend/util/CloneUtils.java:34-42 | the copy is a new object holding the shallow copy of the source |
| CloneUtils.AuditCopyMeaning | src/main/java/de/conti/tires/mandi/backend/util/CloneUtils.java:57-66 | the audit copy holds null in exactly the six standard properties, has no UUID, and is the shallow copy elsewhere |
| CloneUtils.ShallowAuditBaseCopy | src/main/java/de/conti/tires/mandi/backend/util/CloneUtils.java:57-66 | the copy is a new object holding the audit copy of the source |
| CloneUtils.CloneMeaning | src/main/java/de/conti/tires/mandi/backend/util/CloneUtils.java:85-113 | in a clone, an excluded or inaccessible property keeps the new instance's value, a Set property becomes a new empty set, a Map property a new empty map, and any other property the source's value |
| CloneUtils.CloneIsUnpersisted | src/main/java/de/conti/tires/mandi/backend/util/CloneUtils.java:85-97 | a clone of a base entity has no UUID and no version |
| CloneUtils.CloneBaseEntity | src/main/java/de/conti/tires/mandi/backend/util/CloneUtils.java:85-97 | the result is a new object holding the clone of the source |
| CloneUtils.CopyValue | src/main/java/de/conti/tires/mandi/backend/util/CloneUtils.java:100-113 | one more declared property is copied, or skipped when excluded or inaccessible |
| CloneUtils.ValidateDuplication | src/main/java/de/conti/tires/mandi/backend/util/CloneUtils.java:124-136 | the validator sees the initialized clone with no previous state; a ValidationException is thrown exactly when it reports an error |
| CloneUtils.DuplicationIsCreation | src/main/java/de/conti/tires/mandi/backend/util/CloneUtils.java:124-136 | validating a duplicate is the validation performed when that clone is created |
| BaseEntity.NewInstance | src/main/java/de/conti/tires/mandi/backend/core/base/BaseEntity.java:29-47 | every property of a new instance holds its initializer or its type's default |
| BaseEntity.NewInstanceDefaults | src/main/java/de/conti/tires/mandi/backend/core/base/BaseEntity.java:29-47 | a new entity has no UUID and no version, is active and is not deleted |
| BaseEntity.ToStringTellsUuids | src/main/java/de/conti/tires/mandi/backend/core/base/BaseEntity.java:50-53 | two persisted entities of one class print alike only when their UUIDs are equal |
| BaseEntity.EqualsByUuidLaws | src/main/java/de/conti/tires/mandi/backend/core/base/BaseEntity.java:62-65 | equalsByUuid is reflexive and symmetric on present objects and never holds for null |
| StateDiff.DiffClassification | src/main/java/de/conti/tires/mandi/backend/core/base/StateDiff.java:36-71 | a diff is built exactly when some state is given and any two given states share their UUID; its event type says which of the two states exist |
| EntityDiff.NewEntityDiff | src/main/java/de/conti/tires/mandi/backend/core/base/EntityDiff.java:37-43 | the state diff's checks apply, and a null data map becomes an empty one |
| EventType.LabelsDistinct | src/main/java/de/conti/tires/mandi/backend/core/doe/EventType.java:21-34 | distinct event types have distinct labels |
| StringUtils.NotFoundStringShape | src/main/java/de/conti/tires/mandi/backend/util/StringUtils.java:36-50 | the message starts with the class name less its "Entity" suffix and ends with the quoted UUID |
| StringUtils.JoinNonNullsSkipsNulls | src/main/java/de/conti/tires/mandi/backend/util/StringUtils.java:59-64 | null parts leave no trace, not even a separator, so all-null parts give the empty string |
| StringUtils.NonNulls | src/main/java/de/conti/tires/mandi/backend/util/StringUtils.java:59-64 | the kept parts are exactly the non-null ones |
| StringUtils.TrimToLengthSpec | src/main/java/de/conti/tires/mandi/backend/util/StringUtils.java:73-81 | the result is the text itself when it fits; otherwise it has the length limit, keeps the text's prefix and ends in the ellipsis; trimming twice changes nothing more |
| StringUtils.ReplaceZeros | src/main/java/de/conti/tires/mandi/backend/util/StringUtils.java:90 | every '0' becomes 'O', every other character stays, and no '0' is left |
| StringUtils.ReplaceZeroWithO | src/main/java/de/conti/tires/mandi/backend/util/StringUtils.java:88-91 | a null text throws a NullPointerException; otherwise every '0' becomes 'O' and every other character stays |
| UserSummary.Of | src/main/java/de/conti/tires/mandi/backend/user/projection/UserSummary.java:47-50 | null gives null; otherwise the summary carries the user's UUID, first name, last name and e-mail |
| UserSummary.ReadableNameCases | src/main/java/de/conti/tires/mandi/backend/user/projection/UserSummary.java:58-67 | the readable name is "first last", or the one non-empty name, or the user name when neither is given |
| ComplexFieldsModelMapper.ParseSemicolonSeparated | src/main/java/de/conti/tires/mandi/backend/util/ComplexFieldsModelMapper.java:132-136 | each segment is non-empty and holds no semicolon |
| ComplexFieldsModelMapper.ParseKeepsCharacters | src/main/java/de/conti/tires/mandi/backend/util/ComplexFieldsModelMapper.java:132-136 | the segments, put together, are the input without its semicolons |
| ComplexFieldsModelMapper.ParseSingleAndEmpty | src/main/java/de/conti/tires/mandi/backend/util/ComplexFieldsModelMapper.java:132-136 | a non-empty value without semicolons is one segment; a value made only of semicolons gives none |
| ComplexFieldsModelMapper.ParseSemicolonSeparatedCollection | src/main/java/de/conti/tires/mandi/backend/util/ComplexFieldsModelMapper.java:144-152 | a list collector keeps the segments in order; a set collector holds exactly the segments |
| Dates.PadMeaning | src/main/frontend/src/utils/date.ts:1-9 | the padded number is exactly as long as asked and reads as the number modulo that power of ten |
| Dates.PadInjective | src/main/frontend/src/utils/date.ts:1-9 | two padded numbers are equal exactly when the numbers agree in their last digits |
| Dates.DateTimeStringShape | src/main/frontend/src/utils/date.ts:1-9 | the date-time string is the day-first date, a blank, and a time with colons at 2 and 5 whose groups read as hours, minutes and seconds |
| Dates.DayFirstFormatsAgree | src/main/frontend/src/utils/date.ts:11-21 | the two day-first formats differ only in their separators |
| Dates.DateStringYRoundTrip | src/main/frontend/src/utils/date.ts:23-26 | the year-first date reads back as its parts: ten characters, dashes at 4 and 7, and digit groups giving year, month (counted from 1) and day |
| Dates.ToDbDateString | src/main/frontend/src/utils/date.ts:28-31 | the database date is the year-first date at midnight |
| Dates.ReportDateLabelMeaning | src/main/frontend/src/utils/date.ts:33-36 | the label is the date's digits with dots added: removing the dots gives the digits back, and an eight-digit date reads yyyy.mm.dd |
| JsonFlatten.FlattenIsLeaves | src/main/frontend/src/utils/json.ts:12-26 | the flat object is built from the leaves in visiting order |
| JsonFlatten.FlattenMeaning | src/main/frontend/src/utils/json.ts:12-26 | each key of the flat object is the path of a leaf holding its value, and each leaf's path is a key that holds that leaf unless a later leaf has the same path |
| JsonFlatten.LeavesShape | src/main/frontend/src/utils/json.ts:12-26 | every visited value is a leaf, and its path extends the path it was reached from |
| JsonFlatten.EmptyContributesNothing | src/main/frontend/src/utils/json.ts:12-26 | empty arrays and objects, and arrays and objects made only of them, contribute no key |
| JsonFlatten.MembersLaterWins | src/main/frontend/src/utils/json.ts:12-26 | a later member's entries win over an earlier member's at the same path |
| JsonFlatten.StripDot | src/main/frontend/src/utils/json.ts:12-26 | exactly one trailing dot is removed |
| Routes.SearchRoute | src/main/frontend/src/router/routes.ts:14 | the route is "/search/" and the type, or "/search" when no type is given |
| Routes.EntityRoutesAgree | src/main/frontend/src/router/routes.ts:16-28 | the detail route is the detail pattern with the uuid in place of its placeholder, and the search route is the search route of that type |
| Routes.RoutesInjective | src/main/frontend/src/router/routes.ts:16-28 | different entity paths get different routes, and different uuids get different detail routes |
| Pagination.MovesStayInRange | src/main/frontend/src/views/utils/entity-data-grid-pagination.tsx:16-19 | on a grid with pages every button leads to a page of the grid; previous and next move by exactly one page unless that would leave the grid |
| Pagination.DisabledIffNoMove | src/main/frontend/src/views/utils/entity-data-grid-pagination.tsx:59-83 | a button is disabled exactly when pressing it would not change the page |
| Pagination.EmptyGridMoves | src/main/frontend/src/views/utils/entity-data-grid-pagination.tsx:16-19 | on an empty grid, next and last point at page -1 and both are disabled |
| Pagination.RowRange | src/main/frontend/src/views/utils/entity-data-grid-pagination.tsx:25-26 | the reported range starts right after the earlier pages' rows, spans at most one page and never runs past the total; a page at or past the end of the rows, page 0 of an empty grid among them, reports an inverted range ending at the total ("1–0 of 0") |
| Pagination.RangesAdjacent | src/main/frontend/src/views/utils/entity-data-grid-pagination.tsx:25-26 | consecutive pages report adjacent ranges |
| ApiUtils.ApiPath | src/main/frontend/src/api/api-utils.ts:7-10 | the path is followed by "/uuid" exactly when a non-empty uuid is given |
| ApiUtils.SearchApiPath | src/main/frontend/src/api/api-utils.ts:12-15 | the search path is the path followed by "/search" |
| ApiUtils.ApiBasePath | src/main/frontend/src/api/api-utils.ts:17-19 | the base path is the API base URL, a slash and the path |
| ApiUtils.StringifyIsAllPairs | src/main/frontend/src/api/api-utils.ts:56-70 | the query string is every pair joined by '&'; undefined values and empty arrays leave no trace, and an array gives one pair per element |
| ApiUtils.RequestUrlMeaning | src/main/frontend/src/api/api-utils.ts:249-255 | the URL is the bare path exactly when no parameter gives a pair; otherwise it is the path, '?' and the query string |
| ApiUtils.NothingSetNoPairs | src/main/frontend/src/api/api-utils.ts:56-70 | parameters that are all undefined give an empty query string |
| EntityApi.PagedUrlParamsMeaning | src/main/frontend/src/api/entity-api.ts:128-154 | the paged search sends filter, page, size and sort as given, and every other caller parameter unchanged |
| EntityApi.SortParamMeaning | src/main/frontend/src/api/entity-api.ts:131-134 | the sort parameter names the first entry's field and direction, and is empty exactly when there is no entry |
| EntityApi.SetParamLookup | src/main/frontend/src/api/entity-api.ts:136-142 | setting a key gives it the new value and leaves every other key alone |
| EntityApi.EntityApiPaths | src/main/frontend/src/api/entity-api.ts:58-169 | the single-entity operations address base/path/uuid, list and create address base/path, and the paged list path/search, each with the HTTP method it names |
| ApiError.ResponseShape | src/main/frontend/src/api/api-error.ts:26-111 | every answer has status "error" and data null, and its error has a global list and a fields object |
| ApiError.UnreadableGetsGeneric | src/main/frontend/src/api/api-error.ts:103-110 | undefined, null, booleans, numbers and the empty string get the generic error and no field errors |
| ApiError.StringIsWrapped | src/main/frontend/src/api/api-error.ts:86-99 | a non-empty string becomes one global error carrying the string as its message |
| ApiError.AlmostValidPassesThrough | src/main/frontend/src/api/api-error.ts:38-46 | an object with an array global and an object fields is passed through unchanged |
| ApiError.FallbackMeaning | src/main/frontend/src/api/api-error.ts:51-82 | any other object keeps its fields when they are an object, and its global list is the array global as one element, the message-only global, or the generic error |
| ApiError.NullGlobalThrows | src/main/frontend/src/api/api-error.ts:56-62 | as written, the normaliser throws exactly for an object whose global is null, and otherwise answers as the corrected one |
| ApiError.NullGlobalCorrected | src/main/frontend/src/api/api-error.ts:56-62 | corrected, {"global": null} gets the generic error |
| NumericField.NumberTestMeaning | src/main/frontend/src/components/Form/components/EntityNumericField.tsx:62-66 | the scanner accepts exactly the strings of the number pattern, for every setting of the two flags |
| NumericField.NumberTestExamples | src/main/frontend/src/components/Form/components/EntityNumericField.tsx:54-66 | "" and "-" pass, "1,5" and "-12.0" pass, and ",5", "1,2,3" and "1.5." do not |
| NumericField.ReplaceFirstCommaMeaning | src/main/frontend/src/components/Form/components/EntityNumericField.tsx:74-79 | the replacement changes the first ',' into '.' and nothing else |
| NumericField.HandleOnChangeMeaning | src/main/frontend/src/components/Form/components/EntityNumericField.tsx:74-79 | an input is passed on exactly when it matches the pattern, and what is passed on holds no ',' |
| NumericField.AcceptedHasOneSeparator | src/main/frontend/src/components/Form/components/EntityNumericField.tsx:62-79 | an accepted input holds at most one ',' and no other separator after it |
| UseEntityField.ValueFromData | src/main/frontend/src/hooks/useEntityField.ts:41 | no data, a missing key and null all read as "" |
| UseEntityField.HelperText | src/main/frontend/src/hooks/useEntityField.ts:69-70 | the helper text is the field's error, or a single blank when there is none |
| UseEntityField.DefaultEqMeaning | src/main/frontend/src/hooks/useEntityField.ts:48-62 | the default comparator is an equivalence that ignores white space at either end |
| UseEntityField.ChangeNeverSkips | src/main/frontend/src/hooks/useEntityField.ts:73-83 | onChange never skips: in patch-on-blur mode it only sets the local copy, otherwise it only calls setField in onChange mode, with the normalised input |
| UseEntityField.BlurAndEnterMeaning | src/main/frontend/src/hooks/useEntityField.ts:85-102 | blur does nothing outside patch-on-blur mode; both skip exactly when the normalised input equals the stored value, and otherwise patch it |
| UseEntityField.DefaultSkipsPadding | src/main/frontend/src/hooks/useEntityField.ts:48-102 | with the defaults, blur and Enter send nothing for an input that differs from the stored string only by white space at its ends |
| UseEntityField.EntityField.constructor | src/main/frontend/src/hooks/useEntityField.ts:41 | the local copy starts as the data's value |
| UseEntityField.EntityField.Rerender | src/main/frontend/src/hooks/useEntityField.ts:65-67 | a later render keeps the local copy: the callback meant to refresh it is never called |
| UseEntityField.EntityField.HandleChange | src/main/frontend/src/hooks/useEntityField.ts:73-83 | the field's state after onChange is the one its effect describes |
| UseEntityField.EntityField.HandleBlur | src/main/frontend/src/hooks/useEntityField.ts:85-93 | the field's state after onBlur is the one its effect describes |
| UseEntityField.EntityField.HandleEnter | src/main/frontend/src/hooks/useEntityField.ts:95-102 | the field's state after Enter is the one its effect describes |
| UseEntityField.TypeThenBlur | src/main/frontend/src/hooks/useEntityField.ts:73-93 | in patch-on-blur mode typing sends nothing: a change and a blur send at most the blur's one patch, and the field then shows what was typed |
| UseEntityForm.ChangedMeaning | src/main/frontend/src/hooks/useEntityForm.ts:114-129 | only edited keys survive, with their edited values, and a key is dropped exactly when its new value equals the loaded one |
| UseEntityForm.RemoveUnchanged | src/main/frontend/src/hooks/useEntityForm.ts:114-129 | the loop yields the changed keys that the specification describes |
| UseEntityForm.PickedMeaning | src/main/frontend/src/hooks/useEntityForm.ts:132-140 | with data loaded, the picked object has exactly the requested keys with their current values; without data it is empty |
| UseEntityForm.PickKeysFromData | src/main/frontend/src/hooks/useEntityForm.ts:132-140 | the loop yields the picked object that the specification describes |
| UseEntityForm.SetKeys | src/main/frontend/src/hooks/useEntityForm.ts:188-204 | every listed key gets the value and every other key keeps its own |
| UseEntityForm.QueuePrecedence | src/main/frontend/src/hooks/useEntityForm.ts:224 | new edits win over pending ones, and pending ones over forced error fields; the queue holds exactly their keys |
| UseEntityForm.MappedErrorsMeaning | src/main/frontend/src/hooks/useEntityForm.ts:166-172 | a backend field that maps to a usable key gives that key the text of the last field mapped to it; no other key gets one |
| UseEntityForm.BackendErrorsMeaning | src/main/frontend/src/hooks/useEntityForm.ts:160-186 | after a backend error a key the server named shows its message; a sent key it did not name shows "Another field has an error." when any field error was named, and is cleared otherwise; every other key keeps its error |
| UseEntityForm.GlobalMessagesMeaning | src/main/frontend/src/hooks/useEntityForm.ts:184-185 | the global errors are the non-empty messages, all of them in order when none is empty |
| UseEntityForm.DefaultToMsgMeaning | src/main/frontend/src/hooks/useEntityForm.ts:143-153 | the default message of an entry is never empty unless the entry carries an empty text |
| UseEntityForm.FillSentKeys | src/main/frontend/src/hooks/useEntityForm.ts:174-180 | each sent key without an error of its own gets the generic text or is cleared |
| UseEntityForm.ComputeBackendErrors | src/main/frontend/src/hooks/useEntityForm.ts:160-186 | the loops yield the field errors and global messages that the meaning lemmas describe |
| UseEntityForm.EntityForm.SchedulePatch | src/main/frontend/src/hooks/useEntityForm.ts:207-232 | nothing happens when no edit changes anything and no field shows an error; otherwise the queue takes forced, pending and new edits and the timer is armed; the form's other state stays |
| UseEntityForm.EntityForm.SetField | src/main/frontend/src/hooks/useEntityForm.ts:283-294 | the field's error is cleared, its state becomes UNDEFINED, the data takes the value at once, and the edit is scheduled; the global errors, saving flag, hook error and refs stay |
| UseEntityForm.EntityForm.Flush | src/main/frontend/src/hooks/useEntityForm.ts:229-239 | the whole queue is taken and emptied, saving starts, and the request carries the queue |
| UseEntityForm.EntityForm.ApplyBackendErrors | src/main/frontend/src/hooks/useEntityForm.ts:160-186 | the field errors are spread over the previous ones and the global errors are replaced |
| UseEntityForm.EntityForm.HandleResponse | src/main/frontend/src/hooks/useEntityForm.ts:242-270 | a backend error spreads the field errors, replaces the global errors, marks the sent keys ERROR and keeps the data; a success with data merges it, clears the sent keys' errors, marks them SUCCESS and empties the global errors; any other response changes nothing; the hook's error, saving flag, queue and refs stay |
| UseEntityForm.EntityForm.Receive | src/main/frontend/src/hooks/useEntityForm.ts:235-276 | once unmounted nothing changes; otherwise a response is handled as above, an exception sets the hook's error (its message or "Patch error") and nothing else, and saving ends; each field's new value is given for every case |
| UseEntityForm.EntityForm.ClearErrorsForKeys | src/main/frontend/src/hooks/useEntityForm.ts:188-195 | the listed keys' errors become empty and the others stay |
| UseEntityForm.EntityForm.SetStateForKeys | src/main/frontend/src/hooks/useEntityForm.ts:197-204 | the listed keys get the state and the others keep theirs |
| UseEntityForm.EntityForm.Unmount | src/main/frontend/src/hooks/useEntityForm.ts:100-103 | unmounting marks the hook unmounted and clears the timer; the queue is not sent |
| UseFetchEntity.ReduceMeaning | src/main/frontend/src/hooks/useFetchEntity.ts:30-56 | FETCHING and ERROR clear the entity, COMPLETED installs its payload, and UPDATE_ENTITY replaces the entity and keeps the loading state |
| UseFetchEntity.RunAppend | src/main/frontend/src/hooks/useFetchEntity.ts:30-56 | dispatching a sequence is dispatching its first part, then the rest |
| UseFetchEntity.StartMeaning | src/main/frontend/src/hooks/useFetchEntity.ts:96-119 | starting for a uuid leaves the hook fetching; without a uuid it is completed with no entity; on the first render no FETCHING is dispatched |
| UseFetchEntity.HandleResponseMeaning | src/main/frontend/src/hooks/useFetchEntity.ts:121-158 | corrected: a cancelled callback dispatches nothing, a success installs its data, a not-found for a known type dispatches nothing, and any other error ends in "error" |
| UseFetchEntity.AsWrittenAgrees | src/main/frontend/src/hooks/useFetchEntity.ts:121-158 | as written, the callback throws exactly for an error that is not a 404 and has no global error, and otherwise agrees with the corrected one |
| UseFetchEntity.EmptyGlobalStaysFetching | src/main/frontend/src/hooks/useFetchEntity.ts:132 | a 500 with only field errors throws as written, so the hook stays "fetching"; corrected, it ends in "error" |
| UseFetchEntity.FetchLifecycle | src/main/frontend/src/hooks/useFetchEntity.ts:112-170 | from any state, the start and a successful response leave the fetched entity, completed; an error that is not a not-found leaves no entity, in "error" |
| UseFetchEntityList.Requests | src/main/frontend/src/hooks/useFetchEntityList.ts:49-92 | the requests ask for pages 0 to n-1 in order, with the filter and page size 100 |
| UseFetchEntityList.LastPageMeaning | src/main/frontend/src/hooks/useFetchEntityList.ts:49-92 | the loop ends at the first page from which it stops, and goes on past every page before it |
| UseFetchEntityList.SinglePage | src/main/frontend/src/hooks/useFetchEntityList.ts:57-61 | without fetchAll only page 0 is requested, and its data is kept when it arrives |
| UseFetchEntityList.AllPages | src/main/frontend/src/hooks/useFetchEntityList.ts:62-81 | with fetchAll and no failure, the entries are those of every page up to the last one, in order |
| UseFetchEntityList.FailureListsNothing | src/main/frontend/src/hooks/useFetchEntityList.ts:83-100 | a failed response leaves no data; a cleanup leaves no data and the hook still fetching |
| UseFetchEntityList.ItemsPrefix | src/main/frontend/src/hooks/useFetchEntityList.ts:62-81 | the entries of earlier pages come first |
| UseFetchEntityList.EntityListHook.FetchData | src/main/frontend/src/hooks/useFetchEntityList.ts:39-101 | the requests made and the final isFetching and data are those of the page-loop specification |

## Left out

- Date parsing (`Date.parse`) and the `Date` getters in `utils/date.ts` are inputs: the model starts from the day, month, year and time numbers.
- `decideRangeError` converts numbers to `double`; the model compares them as mathematical reals.
- JavaScript object key order is a sequence of keys where the text depends on it. `encodeURIComponent`, and `Number.toString` in the request layer and the field hook, are function parameters.
- `getList` and `getPaginated` in `api-utils.ts`, and the HTTP call itself, are not modelled. Their answers are parameters of the hooks.
- The 401 redirect in `api-utils.ts`, axios, timers, the React router and the navigation after a create in `useEntityForm` are left out.
- The load effect of `useEntityForm` (`useEntityForm.ts:75-104`) is not modelled. The loaded data is a field of the form.
- `console.log` calls are left out.
- `setItems` in `useFetchEntityList` is not modelled.
- UseFetchEntityList.EntityListHook.FetchData: the effect's cleanup is the page number being requested when it runs (`cancelAt`), rather than an asynchronous event.
- ServiceUtils.PerformPatch: the ApiException thrown when a setter itself fails (`ServiceUtils.java:162-165`) is not modelled. Setters always succeed.
- The iteration order of `HashMap` and `HashSet` is a fixed sequence where the output text depends on it, and a set elsewhere.
- ApiMessages.ApiMessageDto.ApplyFromErrors: messages are values, so two equal messages collapse in a set, where Java keeps both objects.
- Exceptions.NewValidationException: the exception carries a copy of the registry's errors, not the registry object, so later changes to the registry are not seen through it.
- The `MessageSource`, the clock and printed stack traces are parameters.
- Reflection (property types, getters and setters, annotations) is replaced by the `ClassInfo` schema.
- `BeanUtils.copyProperties` is modelled by what it copies: every property with a getter and a setter.
- AnnotationValidation.AnnotationBasedValidator.constructor: requires every @Table column name to resolve to a field. The `NoSuchElementException` that `Optional.get` throws otherwise (`AnnotationBasedValidator.java:109`) is not modelled. The same precondition is carried by ValidatorFactory.AnnotationBasedValidatorFactory.Create, ValidatorFactory.AnnotationBasedValidatorFactory.CreateWithFlag, LaboratoryValidation.LaboratoryCheck and the laboratory validator.
- AnnotationValidation.AnnotationBasedValidator.Validate: a property without a getter reads as null. In the source the failed getter lookup ends validation early: the `NoSuchMethodException` is logged and the remaining checks are skipped (`AnnotationBasedValidator.java:198-206`).
- ErrorRegistry.ValidationErrors.DecideLengthError: a string's length is its number of Dafny characters. Java counts UTF-16 code units, so a text outside the Basic Multilingual Plane is longer there.
- StringUtils.TrimToLength: lengths and the cut point count Dafny characters, not UTF-16 code units, so a cut never splits a surrogate pair as Java's `substring` can.
- BaseController.AbstractBaseController.GetPage: the filter is upper-cased for ASCII letters only. Java's `toUpperCase` also maps other letters (`ä` to `Ä`, `ß` to `SS`), and the model does not capture that.
- Dates.ReportDateLabel: the date is a natural number printed in decimal. Negative, fractional or exponent-notation numbers, which `"" + date` prints with a sign, a point or an `e`, are not modelled.
- LaboratoryValidation.FindUniqueNameViolation: names compare as exact values. Database collation is not modelled, and the text of the thrown `IncorrectResultSizeDataAccessException` is not either.
- The database and JPQL evaluation are an oracle from a query text and its parameters to the returned entities. Spring's exception-handler dispatch is modelled by the exception's class.

## Findings

| source | as written | input that shows it | evidently intended | confidence | as-written member | corrected member |
|---|---|---|---|---|---|---|
| src/main/java/de/conti/tires/mandi/backend/core/validation/AnnotationBasedValidator.java:369-387 | every unique group, including one skipped from the query because all its members are null, is compared with every entity the query returns | two unique columns, name and code; the stored entity and the validated one share the name and both have code null: code is marked as a duplicate too | only the groups that were put into the query are compared, so a null column is never a duplicate | not executed | AnnotationValidation.AllNullGroupMarkedAsWritten | AnnotationValidation.AllNullGroupNotMarked |
| src/main/frontend/src/api/api-error.ts:56 | `typeof entity.global === "object"` also holds for null, so `entity.global.message` is read from null | the error body `{"global": null}` throws a TypeError inside the normaliser | a null global falls through to the generic error | not executed | ApiError.NullGlobalThrows | ApiError.NullGlobalCorrected |
| src/main/frontend/src/hooks/useFetchEntity.ts:132 | the not-found test reads `global[0].key` without checking that there is a global error | a 500 answer whose error has only field errors: the callback throws, no action is dispatched, and the hook stays "fetching" | the first global error is read only when there is one, so the error is reported | not executed | UseFetchEntity.AsWrittenAgrees | UseFetchEntity.HandleResponseMeaning |
