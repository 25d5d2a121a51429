/**
 * ApiMessageDto: the body of an error response, a set of global messages and a
 * set of messages per field. It is filled either from a ValidationErrors
 * registry (one translated ERROR message per error) or from exception messages
 * (each cleared of its details unless stack traces are exposed, then translated
 * and added to the global messages).
 */
module ApiMessages {
  import opened Common
  import opened ErrorRegistry
  import opened Exceptions
  import opened ExceptionMessages

  /** The message built for one validation error: an ERROR keyed by the error code, translated. */
  function ErrorMessage(e: ValidationError, ms: Option<Translator>): Msg
  {
    Msg(ERROR, e.code, Some(e.params), Some(BuildMessage(e.code, Some(e.params), ms)), None)
  }

  /** The messages of a set of validation errors. */
  function Messages(errs: set<ValidationError>, ms: Option<Translator>): set<Msg>
  {
    set e | e in errs :: ErrorMessage(e, ms)
  }

  /** The per-field messages of the fields named in ks. */
  function FieldMessages(fields: map<string, set<ValidationError>>, ks: set<string>, ms: Option<Translator>): map<string, set<Msg>>
  {
    map f | f in ks && f in fields :: Messages(fields[f], ms)
  }

  /** The body applyFromErrors builds from a registry. */
  datatype Body = Body(global: set<Msg>, fields: map<string, set<Msg>>)

  function BodyOfErrors(es: ErrorSet, ms: Option<Translator>): Body
  {
    Body(Messages(es.global, ms), FieldMessages(es.fields, es.fields.Keys, ms))
  }

  /**
   * There is one message per error and one per global error in particular: an
   * error's message carries its code as key and its parameters, and distinct
   * errors give distinct messages. The field map names exactly the fields of the
   * registry, each holding the messages of that field's errors.
   */
  lemma BodyOfErrorsMeaning(es: ErrorSet, ms: Option<Translator>)
    ensures var b := BodyOfErrors(es, ms);
      (forall e :: e in es.global <==> ErrorMessage(e, ms) in b.global)
      && (forall m :: m in b.global ==> m.msgType == ERROR && m.details.None? && m.parameters.Some?
                                        && ValidationError(m.key, m.parameters.value) in es.global)
      && b.fields.Keys == es.fields.Keys
      && (forall f, e :: f in es.fields ==> (e in es.fields[f] <==> ErrorMessage(e, ms) in b.fields[f]))
      && |b.global| == |es.global|
  {
    forall e | ErrorMessage(e, ms) in Messages(es.global, ms)
      ensures e in es.global
    {
      var e' :| e' in es.global && ErrorMessage(e', ms) == ErrorMessage(e, ms);
      ErrorMessageInjective(e, e', ms);
    }
    forall f, e | f in es.fields && ErrorMessage(e, ms) in Messages(es.fields[f], ms)
      ensures e in es.fields[f]
    {
      var e' :| e' in es.fields[f] && ErrorMessage(e', ms) == ErrorMessage(e, ms);
      ErrorMessageInjective(e, e', ms);
    }
    MessagesCount(es.global, ms);
  }

  lemma ErrorMessageInjective(e: ValidationError, e': ValidationError, ms: Option<Translator>)
    requires ErrorMessage(e, ms) == ErrorMessage(e', ms)
    ensures e == e'
  {
    assert e.code == ErrorMessage(e, ms).key;
    assert e'.code == ErrorMessage(e', ms).key;
  }

  /** Distinct errors give distinct messages, so there are as many messages as errors. */
  lemma {:induction false} MessagesCount(errs: set<ValidationError>, ms: Option<Translator>)
    ensures |Messages(errs, ms)| == |errs|
    decreases |errs|
  {
    if errs != {} {
      var e :| e in errs;
      var rest := errs - {e};
      MessagesCount(rest, ms);
      assert Messages(errs, ms) == Messages(rest, ms) + {ErrorMessage(e, ms)};
      assert ErrorMessage(e, ms) !in Messages(rest, ms);
    }
  }

  lemma MessagesStep(done: set<ValidationError>, e: ValidationError, ms: Option<Translator>)
    ensures Messages(done + {e}, ms) == Messages(done, ms) + {ErrorMessage(e, ms)}
  {
  }

  /** Handling one more pending field adds that field's messages to the map of the handled ones. */
  lemma FieldMessagesStep(fields: map<string, set<ValidationError>>, todo: set<string>, f: string, ms: Option<Translator>)
    requires f in todo && todo <= fields.Keys
    ensures FieldMessages(fields, fields.Keys - (todo - {f}), ms)
         == FieldMessages(fields, fields.Keys - todo, ms)[f := Messages(fields[f], ms)]
  {
    assert fields.Keys - (todo - {f}) == (fields.Keys - todo) + {f};
  }

  /** The messages a map gives to the objects of a set. */
  ghost function Image<O>(f: map<O, Msg>, s: set<O>): set<Msg>
    requires s <= f.Keys
  {
    set m | m in s :: f[m]
  }

  /** Handling one more object of the pending ones adds its message to the image of the handled ones. */
  lemma ImageStep<O>(f: map<O, Msg>, all: set<O>, todo: set<O>, o: O)
    requires all <= f.Keys && todo <= all && o in todo
    ensures Image(f, all - (todo - {o})) == Image(f, all - todo) + {f[o]}
  {
    assert all - (todo - {o}) == (all - todo) + {o};
  }

  /** The loop over one field's errors, adding each error's message to the field's set. */
  method CollectMessages(errs: set<ValidationError>, ms: Option<Translator>) returns (fieldMessages: set<Msg>)
    ensures fieldMessages == Messages(errs, ms)
  {
    fieldMessages := {};
    var todo := errs;
    ghost var done: set<ValidationError> := {};
    assert Messages({}, ms) == {};
    while todo != {}
      invariant done + todo == errs && done !! todo
      invariant fieldMessages == Messages(done, ms)
      decreases |todo|
    {
      var e :| e in todo;
      fieldMessages := fieldMessages + {ErrorMessage(e, ms)};
      MessagesStep(done, e, ms);
      todo := todo - {e};
      done := done + {e};
    }
    assert done == errs;
  }

  /** What applyFromExceptions makes of one exception message: details cleared unless exposed, then translated. */
  function Processed(m: Msg, includeStacktrace: bool, ms: Option<Translator>): (r: Msg)
  {
    var c := if includeStacktrace then m else Cleared(m);
    c.(message := Some(BuildMessage(c.key, c.parameters, ms)))
  }

  /**
   * A processed message keeps its key, parameters and time, carries the
   * MessageSource's text for its key and parameters (the key itself when no
   * bundle holds it or there is no MessageSource), and exposes its exception
   * details only when stack traces are included.
   */
  lemma ProcessedMeaning(m: Msg, includeStacktrace: bool, ms: Option<Translator>)
    requires m.details.Some?
    ensures var r := Processed(m, includeStacktrace, ms);
      var ps := if m.parameters.Some? then m.parameters.value else [];
      r.key == m.key && r.parameters == m.parameters && r.msgType == m.msgType
      && r.details.Some? && r.details.value.dateTime == m.details.value.dateTime
      && (ms.Some? && ms.value(m.key, ps).Some? ==> r.message == ms.value(m.key, ps))
      && (ms.None? || ms.value(m.key, ps).None? ==> r.message == Some(m.key))
      && (includeStacktrace ==> r.details == m.details)
      && (!includeStacktrace ==> r.details.value.stacktrace.None? && r.details.value.errorMessage.None?
                                 && r.details.value.exceptionName.None?)
  {
  }

  class ApiMessageDto {
    var global: set<Msg>
    var fields: map<string, set<Msg>>
    var includeStacktrace: bool

    function Snapshot(): Body
      reads this
    {
      Body(global, fields)
    }

    /** ApiMessageDto(ValidationErrors): the messages of the registry's errors. */
    constructor FromErrors(errors: ValidationErrors, ms: Option<Translator>)
      ensures Snapshot() == BodyOfErrors(errors.Snapshot(), ms) && !includeStacktrace
    {
      global := {};
      fields := map[];
      includeStacktrace := false;
      new;
      ApplyFromErrors(errors.Snapshot(), ms);
    }

    /** ApiMessageDto(exception, includeStacktrace): the one message made from the exception. */
    constructor FromException(exception: Exception, includeStacktrace: bool, now: int, trace: string, ms: Option<Translator>)
      requires exception.Valid()
      ensures Snapshot() == Body({Processed(NewMessage(exception, now, trace, ms), includeStacktrace, ms)}, map[])
    {
      global := {};
      fields := map[];
      this.includeStacktrace := includeStacktrace;
      new;
      var message := new ExceptionMessage(exception, now, trace, ms);
      ProcessMessage(message, includeStacktrace, ms);
      global := global + {message.Snapshot()};
    }

    /** ApiMessageDto(ExceptionMessage, includeStacktrace): the given message, processed in place. */
    constructor FromExceptionMessage(message: ExceptionMessage, includeStacktrace: bool, ms: Option<Translator>)
      modifies message
      ensures message.Snapshot() == Processed(old(message.Snapshot()), includeStacktrace, ms)
      ensures Snapshot() == Body({message.Snapshot()}, map[])
    {
      global := {};
      fields := map[];
      this.includeStacktrace := includeStacktrace;
      new;
      ProcessMessage(message, includeStacktrace, ms);
      global := global + {message.Snapshot()};
    }

    /** ApiMessageDto(Set<ExceptionMessage>, includeStacktrace): every given message, processed in place. */
    constructor FromExceptionMessages(messages: set<ExceptionMessage>, includeStacktrace: bool, ms: Option<Translator>,
                                      ghost before: map<ExceptionMessage, Msg>)
      requires messages <= before.Keys && forall m | m in messages :: m.Snapshot() == before[m]
      modifies messages
      ensures forall m | m in messages :: m.Snapshot() == Processed(before[m], includeStacktrace, ms)
      ensures Snapshot() == Body(set m | m in messages :: Processed(before[m], includeStacktrace, ms), map[])
    {
      global := {};
      fields := map[];
      this.includeStacktrace := includeStacktrace;
      new;
      ApplyFromExceptions(messages, ms, before);
    }

    /** applyFromErrors: one translated message per global error, then per error of each field. */
    method ApplyFromErrors(es: ErrorSet, ms: Option<Translator>)
      requires global == {} && fields == map[]
      modifies this
      ensures Snapshot() == BodyOfErrors(es, ms) && includeStacktrace == old(includeStacktrace)
    {
      AddGlobalMessages(es.global, ms);
      var keys := es.fields.Keys;
      while keys != {}
        invariant keys <= es.fields.Keys
        invariant fields == FieldMessages(es.fields, es.fields.Keys - keys, ms) && global == Messages(es.global, ms)
        invariant includeStacktrace == old(includeStacktrace)
        decreases |keys|
      {
        var f :| f in keys;
        AddFieldMessages(f, es.fields[f], ms);
        FieldMessagesStep(es.fields, keys, f, ms);
        keys := keys - {f};
      }
    }

    /** The loop over the global errors. */
    method AddGlobalMessages(errs: set<ValidationError>, ms: Option<Translator>)
      requires global == {}
      modifies this
      ensures global == Messages(errs, ms)
      ensures fields == old(fields) && includeStacktrace == old(includeStacktrace)
    {
      var todo := errs;
      ghost var done: set<ValidationError> := {};
      assert Messages({}, ms) == {};
      while todo != {}
        invariant done + todo == errs && done !! todo
        invariant global == Messages(done, ms)
        invariant fields == old(fields) && includeStacktrace == old(includeStacktrace)
        decreases |todo|
      {
        var e :| e in todo;
        global := global + {ErrorMessage(e, ms)};
        MessagesStep(done, e, ms);
        todo := todo - {e};
        done := done + {e};
      }
      assert done == errs;
    }

    /** One field's entry: an (initially empty) set holding the messages of its errors. */
    method AddFieldMessages(f: string, errs: set<ValidationError>, ms: Option<Translator>)
      modifies this
      ensures fields == old(fields)[f := Messages(errs, ms)]
      ensures global == old(global) && includeStacktrace == old(includeStacktrace)
    {
      var fieldMessages := CollectMessages(errs, ms);
      fields := fields[f := fieldMessages];
    }

    /**
     * applyFromExceptions: each message is processed and added to the global
     * messages; the fields stay as they are. The ghost map names the state
     * each message is in on entry.
     */
    method ApplyFromExceptions(messages: set<ExceptionMessage>, ms: Option<Translator>, ghost before: map<ExceptionMessage, Msg>)
      requires messages <= before.Keys && forall m | m in messages :: m.Snapshot() == before[m]
      modifies this, messages
      ensures forall m | m in messages :: m.Snapshot() == Processed(before[m], includeStacktrace, ms)
      ensures global == old(global) + (set m | m in messages :: Processed(before[m], includeStacktrace, ms))
      ensures fields == old(fields) && includeStacktrace == old(includeStacktrace)
    {
      var processed := ProcessAll(messages, includeStacktrace, ms, before);
      global := global + processed;
    }
  }

  /** One pass of applyFromExceptions: clear the details unless exposed, then set the translation. */
  method ProcessMessage(message: ExceptionMessage, includeStacktrace: bool, ms: Option<Translator>)
    modifies message
    ensures message.Snapshot() == Processed(old(message.Snapshot()), includeStacktrace, ms)
  {
    if !includeStacktrace {
      message.ClearExceptionDetails();
    }
    message.SetMessage(BuildMessage(message.key, message.parameters, ms));
  }

  /** ProcessMessage, stated against the state the message is to end in. */
  method ProcessTo(message: ExceptionMessage, includeStacktrace: bool, ms: Option<Translator>, ghost target: Msg)
    requires target == Processed(message.Snapshot(), includeStacktrace, ms)
    modifies message
    ensures message.Snapshot() == target
  {
    ProcessMessage(message, includeStacktrace, ms);
  }

  /** The processed state of every message, and the set of them. */
  lemma ProcessedMap(before: map<ExceptionMessage, Msg>, messages: set<ExceptionMessage>, includeStacktrace: bool,
                     ms: Option<Translator>) returns (after: map<ExceptionMessage, Msg>)
    requires messages <= before.Keys
    ensures messages <= after.Keys
    ensures forall m | m in messages :: after[m] == Processed(before[m], includeStacktrace, ms)
    ensures Image(after, messages) == set m | m in messages :: Processed(before[m], includeStacktrace, ms)
  {
    after := map m | m in messages :: Processed(before[m], includeStacktrace, ms);
  }

  /**
   * The loop of applyFromExceptions: every message processed in place, and the
   * set of the processed messages, which the DTO adds to its global messages.
   */
  method ProcessAll(messages: set<ExceptionMessage>, includeStacktrace: bool, ms: Option<Translator>,
                    ghost before: map<ExceptionMessage, Msg>)
    returns (processed: set<Msg>)
    requires messages <= before.Keys && forall m | m in messages :: m.Snapshot() == before[m]
    modifies messages
    ensures forall m | m in messages :: m.Snapshot() == Processed(before[m], includeStacktrace, ms)
    ensures processed == set m | m in messages :: Processed(before[m], includeStacktrace, ms)
  {
    ghost var after := ProcessedMap(before, messages, includeStacktrace, ms);
    processed := {};
    var todo := messages;
    while todo != {}
      invariant todo <= messages
      invariant forall m | m in messages :: m.Snapshot() == if m in todo then before[m] else after[m]
      invariant processed == Image(after, messages - todo)
      decreases |todo|
    {
      var message :| message in todo;
      ProcessTo(message, includeStacktrace, ms, after[message]);
      processed := processed + {message.Snapshot()};
      ImageStep(after, messages, todo, message);
      todo := todo - {message};
    }
  }
}
